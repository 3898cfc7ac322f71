/** The query condition builder `NCMBQuery`: a class name and a mutable
    "where" object that `whereEqualTo` writes and the `conditions` getter
    wraps. The mutable object is modelled as an immutable `Query` value that
    each call replaces. */
module Query {
  import opened Common
  import opened Json

  /** The state of one `NCMBQuery`: its class name and `mWhereConditions`. */
  datatype Query = Query(className: string, where: Object)

  /** `IllegalArgumentException`, carrying the message of the `JSONException`
      it was built from. */
  datatype IllegalArgumentException = IllegalArgumentException(message: JsonFault)

  /** One call `whereEqualTo(key, value)`; the key is a nullable Kotlin string. */
  datatype Condition = Condition(key: Option<string>, value: JValue)

  /** What `findInBackground` hands on: nothing, or one search of the object
      service for a class with the query's conditions. */
  datatype FindDispatch =
    | NoSearch
    | ObjectSearch(className: string, conditions: Object, callback: CallbackRef)

  const UserClass := "user"
  const WhereKey := "where"
  const TypeKey := "__type"
  const IsoKey := "iso"
  const DateTypeName := "Date"

  /** The typed document `{"__type": "Date", "iso": iso}` the backend reads as a date. */
  predicate IsDateDocument(v: JValue) {
    && v.JObject?
    && v.fields.Keys == {TypeKey, IsoKey}
    && v.fields[TypeKey] == JString(DateTypeName)
    && v.fields[IsoKey].JString?
  }

  /** No top-level value of the object is a raw `Date` that was never
      rewritten. A `Date` nested inside an array or object value is not looked
      at, just as `convertConditionValue` does not look inside such values. */
  predicate NoTopLevelRawDates(w: Object) {
    forall k :: k in w ==> !w[k].JDate?
  }

  /** A call that `JSONObject.put` accepts: a non-null key and a value that is
      not a NaN or infinite number. */
  predicate Accepted(c: Condition) {
    c.key.Some? && !IsForbiddenNumber(c.value)
  }

  /** The constructor: a query for a class starts with an empty where-object. */
  function NewQuery(className: string): (q: Query)
    ensures q.className == className
    ensures |q.where| == 0
  {
    Query(className, map[])
  }

  /** `convertConditionValue`: a `Date` becomes a date document holding its
      ISO-8601 text as formatted by `fmt`; every other value passes unchanged. */
  function ConvertConditionValue(fmt: Date -> string, v: JValue): (r: JValue)
    ensures v.JDate? ==> IsDateDocument(r) && r.fields[IsoKey] == JString(fmt(v.date))
    ensures !v.JDate? ==> r == v
    ensures !r.JDate?
    ensures IsForbiddenNumber(r) <==> IsForbiddenNumber(v)
  {
    if v.JDate? then
      JObject(map[TypeKey := JString(DateTypeName), IsoKey := JString(fmt(v.date))])
    else
      v
  }

  /** How a reader of the stored conditions recovers a date: a date document
      is parsed back with `parse`, anything else is taken as it is. */
  function DecodeConditionValue(parse: string -> Date, v: JValue): JValue
  {
    if IsDateDocument(v) then JDate(parse(v.fields[IsoKey].s)) else v
  }

  /** The `conditions` getter: `{"where": where}` when the where-object has an
      entry, and the empty object otherwise. */
  function Conditions(q: Query): (c: Object)
    ensures WhereKey in c <==> |q.where| > 0
    ensures WhereKey in c ==> c.Keys == {WhereKey} && c[WhereKey] == JObject(q.where)
    ensures WhereKey !in c ==> |c| == 0
  {
    if |q.where| > 0 then map[WhereKey := JObject(q.where)] else map[]
  }

  /** How a receiver of a conditions document reads its where-object. */
  function WhereOf(c: Object): Object
  {
    if WhereKey in c && c[WhereKey].JObject? then c[WhereKey].fields else map[]
  }

  /** `whereEqualTo(key, value)`: the converted value is put under the key;
      a refusal of the put is rethrown as an `IllegalArgumentException` with
      the same message, and the query is then left as it was. */
  function WhereEqualTo(fmt: Date -> string, q: Query, key: Option<string>, value: JValue)
    : (r: Outcome<Query, IllegalArgumentException>)
    ensures r.Returned? <==> Accepted(Condition(key, value))
    ensures r.Thrown? ==>
      Put(q.where, key, ConvertConditionValue(fmt, value)) == Thrown(JSONException(r.exception.message))
    ensures r.Returned? ==> r.value.className == q.className
    ensures r.Returned? ==> r.value.where.Keys == q.where.Keys + {key.value}
    ensures r.Returned? ==> r.value.where[key.value] == ConvertConditionValue(fmt, value)
    ensures r.Returned? ==> forall k :: k in q.where && k != key.value ==> r.value.where[k] == q.where[k]
  {
    match Put(q.where, key, ConvertConditionValue(fmt, value))
    case Returned(w) => Returned(q.(where := w))
    case Thrown(e) => Thrown(IllegalArgumentException(e.message))
  }

  /** `findInBackground`: the class "user" is not supported and starts no
      search (the callback is never called); any other class starts exactly
      one object-service search carrying the current conditions. */
  function FindInBackground(q: Query, callback: CallbackRef): (d: FindDispatch)
    ensures d.NoSearch? <==> q.className == UserClass
    ensures d.ObjectSearch? ==> d.className == q.className && d.callback == callback
    ensures d.ObjectSearch? ==> d.conditions == Conditions(q)
    ensures d.ObjectSearch? ==> WhereOf(d.conditions) == q.where
  {
    if q.className == UserClass then NoSearch
    else ObjectSearch(q.className, Conditions(q), callback)
  }

  /** A run of `whereEqualTo` calls on one query, in order; the first call
      that throws ends the run with its exception. */
  function WhereEqualToAll(fmt: Date -> string, q: Query, calls: seq<Condition>)
    : Outcome<Query, IllegalArgumentException>
    decreases |calls|
  {
    if |calls| == 0 then Returned(q)
    else
      match WhereEqualTo(fmt, q, calls[0].key, calls[0].value)
      case Thrown(e) => Thrown(e)
      case Returned(q') => WhereEqualToAll(fmt, q', calls[1..])
  }

  /** The index of the last call in `calls` that writes key `k`, or -1. */
  function LastCallFor(calls: seq<Condition>, k: string): (i: int)
    ensures -1 <= i < |calls|
    ensures i >= 0 ==> calls[i].key == Some(k)
    ensures forall j :: i < j < |calls| ==> calls[j].key != Some(k)
    decreases |calls|
  {
    if |calls| == 0 then -1
    else
      var rest := LastCallFor(calls[1..], k);
      if rest >= 0 then rest + 1
      else if calls[0].key == Some(k) then 0
      else -1
  }

  /** The keys written by a run of calls. */
  function KeysOf(calls: seq<Condition>): set<string>
  {
    set i | 0 <= i < |calls| && calls[i].key.Some? :: calls[i].key.value
  }

  // ---------------------------------------------------------------------
  // Properties
  // ---------------------------------------------------------------------

  /** A freshly constructed query has empty conditions. */
  lemma FreshQueryHasEmptyConditions(className: string, callback: CallbackRef)
    ensures Conditions(NewQuery(className)) == map[]
    ensures FindInBackground(NewQuery(className), callback).ObjectSearch? ==>
      FindInBackground(NewQuery(className), callback).conditions == map[]
  {
  }

  /** The where-object can be read back from the conditions document, so two
      queries with equal conditions have equal where-objects. */
  lemma ConditionsRoundTrip(q: Query, q': Query)
    ensures WhereOf(Conditions(q)) == q.where
    ensures Conditions(q) == Conditions(q') ==> q.where == q'.where
  {
  }

  /** A non-Date value is stored exactly as given. */
  lemma NonDateValueStoredAsIs(fmt: Date -> string, q: Query, k: string, v: JValue)
    requires !v.JDate? && !IsForbiddenNumber(v)
    ensures WhereEqualTo(fmt, q, Some(k), v).Returned?
    ensures WhereEqualTo(fmt, q, Some(k), v).value.where == q.where[k := v]
  {
  }

  /** Writing a key twice keeps only the last value: the result is the same
      as writing the last value once, and the second write adds no entry. */
  lemma SameKeyTwiceKeepsLast(fmt: Date -> string, q: Query, k: string, v1: JValue, v2: JValue)
    requires Accepted(Condition(Some(k), v1)) && Accepted(Condition(Some(k), v2))
    ensures
      var once := WhereEqualTo(fmt, q, Some(k), v1).value;
      var twice := WhereEqualTo(fmt, once, Some(k), v2);
      && twice == WhereEqualTo(fmt, q, Some(k), v2)
      && |twice.value.where| == |once.where|
  {
    var once := WhereEqualTo(fmt, q, Some(k), v1).value;
    var twice := WhereEqualTo(fmt, once, Some(k), v2).value;
    assert twice.where.Keys == once.where.Keys;
    assert twice.where == WhereEqualTo(fmt, q, Some(k), v2).value.where;
  }

  /** Calls on distinct keys commute. */
  lemma DistinctKeysCommute(fmt: Date -> string, q: Query, c1: Condition, c2: Condition)
    requires Accepted(c1) && Accepted(c2) && c1.key != c2.key
    ensures WhereEqualToAll(fmt, q, [c1, c2]) == WhereEqualToAll(fmt, q, [c2, c1])
  {
    var a := WhereEqualTo(fmt, q, c1.key, c1.value).value;
    var b := WhereEqualTo(fmt, q, c2.key, c2.value).value;
    assert [c1, c2][1..] == [c2];
    assert [c2, c1][1..] == [c1];
    var ab := WhereEqualTo(fmt, a, c2.key, c2.value).value;
    var ba := WhereEqualTo(fmt, b, c1.key, c1.value).value;
    assert ab.where == ba.where;
  }

  /** Converting twice is converting once: a date document is not a `Date`. */
  lemma ConvertIdempotent(fmt: Date -> string, v: JValue)
    ensures ConvertConditionValue(fmt, ConvertConditionValue(fmt, v)) == ConvertConditionValue(fmt, v)
  {
  }

  /** A stored date is read back as the same instant whenever parsing undoes
      the formatter on it. */
  lemma DateRoundTrip(fmt: Date -> string, parse: string -> Date, d: Date)
    requires parse(fmt(d)) == d
    ensures DecodeConditionValue(parse, ConvertConditionValue(fmt, JDate(d))) == JDate(d)
  {
  }

  /** A non-Date value is read back unchanged unless it already has the shape
      of a date document. */
  lemma NonDateRoundTrip(fmt: Date -> string, parse: string -> Date, v: JValue)
    requires !v.JDate? && !IsDateDocument(v)
    ensures DecodeConditionValue(parse, ConvertConditionValue(fmt, v)) == v
  {
  }

  /** The conversion cannot be inverted in general: a `Date` and a plain
      object shaped like its date document are stored identically. */
  lemma DateAndDateDocumentCollide(fmt: Date -> string, d: Date)
    ensures
      var doc := JObject(map[TypeKey := JString(DateTypeName), IsoKey := JString(fmt(d))]);
      && doc != JDate(d)
      && ConvertConditionValue(fmt, doc) == ConvertConditionValue(fmt, JDate(d))
  {
  }

  /** After a run of accepted calls, each key holds the converted value of
      the last call that wrote it; keys no call wrote keep their old value. */
  lemma {:induction false} LastWriteWins(fmt: Date -> string, q: Query, calls: seq<Condition>, k: string)
    requires forall i :: 0 <= i < |calls| ==> Accepted(calls[i])
    ensures WhereEqualToAll(fmt, q, calls).Returned?
    ensures WhereEqualToAll(fmt, q, calls).value.className == q.className
    ensures
      var w := WhereEqualToAll(fmt, q, calls).value.where;
      var i := LastCallFor(calls, k);
      && (k in w <==> k in q.where || i >= 0)
      && (i >= 0 ==> w[k] == ConvertConditionValue(fmt, calls[i].value))
      && (i < 0 && k in q.where ==> w[k] == q.where[k])
    decreases |calls|
  {
    if |calls| > 0 {
      var q' := WhereEqualTo(fmt, q, calls[0].key, calls[0].value).value;
      forall i | 0 <= i < |calls[1..]|
        ensures Accepted(calls[1..][i])
      {
        assert calls[1..][i] == calls[i + 1];
      }
      LastWriteWins(fmt, q', calls[1..], k);
    }
  }

  /** A run of accepted calls adds exactly the keys it writes. */
  lemma {:induction false} RunKeys(fmt: Date -> string, q: Query, calls: seq<Condition>)
    requires forall i :: 0 <= i < |calls| ==> Accepted(calls[i])
    ensures WhereEqualToAll(fmt, q, calls).Returned?
    ensures WhereEqualToAll(fmt, q, calls).value.where.Keys == q.where.Keys + KeysOf(calls)
    decreases |calls|
  {
    if |calls| > 0 {
      var q' := WhereEqualTo(fmt, q, calls[0].key, calls[0].value).value;
      forall i | 0 <= i < |calls[1..]|
        ensures Accepted(calls[1..][i])
      {
        assert calls[1..][i] == calls[i + 1];
      }
      RunKeys(fmt, q', calls[1..]);
      assert KeysOf(calls) == {calls[0].key.value} + KeysOf(calls[1..]) by {
        forall x | x in KeysOf(calls)
          ensures x in {calls[0].key.value} + KeysOf(calls[1..])
        {
          var i :| 0 <= i < |calls| && calls[i].key.Some? && calls[i].key.value == x;
          if i > 0 {
            assert calls[1..][i - 1] == calls[i];
          }
        }
        forall x | x in KeysOf(calls[1..])
          ensures x in KeysOf(calls)
        {
          var i :| 0 <= i < |calls[1..]| && calls[1..][i].key.Some? && calls[1..][i].key.value == x;
          assert calls[1..][i] == calls[i + 1];
        }
      }
    }
  }

  /** Every run of calls, accepted or not, keeps raw dates out of the top level
      of the where-object. */
  lemma {:induction false} RunKeepsNoTopLevelRawDates(fmt: Date -> string, q: Query, calls: seq<Condition>)
    requires NoTopLevelRawDates(q.where)
    ensures WhereEqualToAll(fmt, q, calls).Returned? ==> NoTopLevelRawDates(WhereEqualToAll(fmt, q, calls).value.where)
    decreases |calls|
  {
    if |calls| > 0 {
      var r := WhereEqualTo(fmt, q, calls[0].key, calls[0].value);
      if r.Returned? {
        RunKeepsNoTopLevelRawDates(fmt, r.value, calls[1..]);
      }
    }
  }

  /** Hence no query reachable from the constructor holds a raw `Date` as a
      top-level value of its where-object. */
  lemma ReachableQueriesHoldNoTopLevelRawDates(fmt: Date -> string, className: string, calls: seq<Condition>)
    ensures WhereEqualToAll(fmt, NewQuery(className), calls).Returned? ==>
      NoTopLevelRawDates(WhereEqualToAll(fmt, NewQuery(className), calls).value.where)
  {
    RunKeepsNoTopLevelRawDates(fmt, NewQuery(className), calls);
  }
}
