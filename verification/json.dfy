/** JSON documents as the SDK hands them to org.json, and the one org.json
    operation the query builder relies on: `JSONObject.put`. */
module Json {
  import opened Common

  /** A `java.util.Date`: an instant counted in milliseconds since the epoch. */
  datatype Date = Date(epochMillis: int)

  /** A Java number as org.json sees it: finite, or one of the values that
      `JSONObject.put` refuses. */
  datatype Number = Finite(value: real) | NaN | Infinity(positive: bool)

  /** A value that can be stored under a key of a `JSONObject`. `JDate` is a
      raw `java.util.Date` object that has not been rewritten yet. */
  datatype JValue =
    | JNull
    | JBool(b: bool)
    | JNumber(n: Number)
    | JString(s: string)
    | JArray(items: seq<JValue>)
    | JObject(fields: map<string, JValue>)
    | JDate(date: Date)

  /** The contents of a `JSONObject`. */
  type Object = map<string, JValue>

  /** Why `JSONObject.put` refused a name/value pair. */
  datatype JsonFault = ForbiddenNumber(n: Number) | NullName

  /** `org.json.JSONException`; its message is identified by the fault. */
  datatype JSONException = JSONException(message: JsonFault)

  predicate IsForbiddenNumber(v: JValue) {
    v.JNumber? && !v.n.Finite?
  }

  /** `JSONObject.put(name, value)` for a non-null value: a NaN or infinite
      number is refused first, then a null name; otherwise the name is bound
      to the value, replacing any earlier binding, and nothing else changes. */
  function Put(o: Object, name: Option<string>, v: JValue): (r: Outcome<Object, JSONException>)
    ensures r.Returned? <==> name.Some? && !IsForbiddenNumber(v)
    ensures r.Returned? ==> r.value.Keys == o.Keys + {name.value} && r.value[name.value] == v
    ensures r.Returned? ==> forall k :: k in o && k != name.value ==> r.value[k] == o[k]
    ensures r.Thrown? ==> r.exception.message == if IsForbiddenNumber(v) then ForbiddenNumber(v.n) else NullName
  {
    if IsForbiddenNumber(v) then Thrown(JSONException(ForbiddenNumber(v.n)))
    else if name.None? then Thrown(JSONException(NullName))
    else Returned(o[name.value := v])
  }
}
