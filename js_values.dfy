/** The JavaScript values the worker handles: parsed JSON documents, reads of
    their properties, plain objects used as string dictionaries (headers),
    and the String() conversion applied by encodeURIComponent. */
module JsValues {
  import opened Outcomes
  import opened Strings

  /** A value produced by JSON.parse (numbers restricted to integers, taken
      as exact and unbounded rather than as doubles). An
      object keeps its members in source order, duplicates included. */
  datatype Json =
    | JNull
    | JBool(b: bool)
    | JNum(n: int)
    | JStr(s: string)
    | JArr(items: seq<Json>)
    | JObj(members: seq<(string, Json)>)

  /** The value stored under `key` in a member list; as in an object built by
      JSON.parse, the last occurrence of a repeated key wins. */
  function Lookup<V>(ms: seq<(string, V)>, key: string): Option<V>
    decreases |ms|
  {
    if ms == [] then None
    else if ms[|ms| - 1].0 == key then Some(ms[|ms| - 1].1)
    else Lookup(ms[..|ms| - 1], key)
  }

  /** Lookup finds a key exactly when some member has it, and then yields
      the value of the last member with that key. */
  lemma {:induction false} LookupLastWins<V>(ms: seq<(string, V)>, key: string)
    ensures Lookup(ms, key).None? <==> forall i :: 0 <= i < |ms| ==> ms[i].0 != key
    ensures Lookup(ms, key).Some? ==>
              exists i :: 0 <= i < |ms| && ms[i] == (key, Lookup(ms, key).value)
                          && forall j :: i < j < |ms| ==> ms[j].0 != key
  {
    if Lookup(ms, key).Some? {
      var i := LookupLast(ms, key);
      assert ms[i].0 == key;
    } else {
      LookupMissing(ms, key);
    }
  }

  /** The index of the member a successful lookup found. */
  lemma {:induction false} LookupLast<V>(ms: seq<(string, V)>, key: string) returns (i: nat)
    requires Lookup(ms, key).Some?
    ensures i < |ms| && ms[i] == (key, Lookup(ms, key).value)
    ensures forall j :: i < j < |ms| ==> ms[j].0 != key
    decreases |ms|
  {
    if ms[|ms| - 1].0 == key {
      i := |ms| - 1;
    } else {
      var init := ms[..|ms| - 1];
      i := LookupLast(init, key);
      assert ms[i] == init[i];
    }
  }

  /** A failed lookup means no member has the key. */
  lemma {:induction false} LookupMissing<V>(ms: seq<(string, V)>, key: string)
    requires Lookup(ms, key).None?
    ensures forall i :: 0 <= i < |ms| ==> ms[i].0 != key
    decreases |ms|
  {
    if ms != [] {
      var init := ms[..|ms| - 1];
      LookupMissing(init, key);
      assert forall i :: 0 <= i < |init| ==> ms[i] == init[i];
    }
  }

  /** A key no member has is not found. */
  lemma {:induction false} LookupAbsent<V>(ms: seq<(string, V)>, key: string)
    requires forall i :: 0 <= i < |ms| ==> ms[i].0 != key
    ensures Lookup(ms, key) == None
    decreases |ms|
  {
    if ms != [] {
      LookupAbsent(ms[..|ms| - 1], key);
    }
  }

  /** In a plain object, lookup finds the one member with the key. */
  lemma {:induction false} LookupDistinct<V>(ms: seq<(string, V)>, i: nat)
    requires DistinctKeys(ms)
    requires i < |ms|
    ensures Lookup(ms, ms[i].0) == Some(ms[i].1)
    decreases |ms|
  {
    if i < |ms| - 1 {
      var init := ms[..|ms| - 1];
      assert init[i] == ms[i];
      LookupDistinct(init, i);
    }
  }

  /** Reading property `key` of a JSON value; None is `undefined`. Only own
      members of objects are found: the keys the worker reads (tool,
      parameters, summary, start, end, eventId) name no property inherited by
      any JSON value. */
  function Get(v: Json, key: string): (r: Option<Json>)
    ensures r.Some? ==> v.JObj?
  {
    match v
    case JObj(ms) => Lookup(ms, key)
    case _ => None
  }

  /** The keys of a member list, in order. */
  function Keys<V>(ms: seq<(string, V)>): seq<string>
  {
    seq(|ms|, i requires 0 <= i < |ms| => ms[i].0)
  }

  /** A plain object: no key occurs twice. */
  predicate DistinctKeys<V>(ms: seq<(string, V)>)
  {
    forall i, j :: 0 <= i < j < |ms| ==> ms[i].0 != ms[j].0
  }

  /** The position of `key` in a member list that has it. */
  function IndexOfKey<V>(ms: seq<(string, V)>, key: string): (i: nat)
    requires key in Keys(ms)
    ensures i < |ms| && ms[i].0 == key
    decreases |ms|
  {
    if ms[0].0 == key then 0
    else
      assert Keys(ms) == [ms[0].0] + Keys(ms[1..]);
      1 + IndexOfKey(ms[1..], key)
  }

  /** Assigning property `key` of a plain object: an existing key keeps its
      place and takes the new value, a new key is added at the end. */
  function Put<V>(ms: seq<(string, V)>, key: string, value: V): (r: seq<(string, V)>)
    requires DistinctKeys(ms)
    ensures DistinctKeys(r)
    ensures Lookup(r, key) == Some(value)
    ensures forall k :: k != key ==> Lookup(r, k) == Lookup(ms, k)
    ensures Keys(r) == if key in Keys(ms) then Keys(ms) else Keys(ms) + [key]
  {
    if key in Keys(ms) then
      var i := IndexOfKey(ms, key);
      var r := ms[i := (key, value)];
      assert Keys(r) == Keys(ms);
      LookupDistinct(r, i);
      PutUnchanged(ms, r, key);
      r
    else
      var r := ms + [(key, value)];
      forall i | 0 <= i < |ms|
        ensures ms[i].0 != key
      {
        assert Keys(ms)[i] == ms[i].0;
      }
      assert r[..|ms|] == ms;
      assert Keys(r) == Keys(ms) + [key];
      assert forall k :: k != key ==> Lookup(r, k) == Lookup(ms, k);
      r
  }

  /** Replacing the value of one key of a plain object leaves the lookup of
      every other key as it was. */
  lemma PutUnchanged<V>(ms: seq<(string, V)>, r: seq<(string, V)>, key: string)
    requires DistinctKeys(ms) && DistinctKeys(r) && |r| == |ms|
    requires forall j :: 0 <= j < |ms| ==> r[j].0 == ms[j].0
    requires forall j :: 0 <= j < |ms| && ms[j].0 != key ==> r[j] == ms[j]
    ensures forall k :: k != key ==> Lookup(r, k) == Lookup(ms, k)
  {
    forall k | k != key
      ensures Lookup(r, k) == Lookup(ms, k)
    {
      if j :| 0 <= j < |ms| && ms[j].0 == k {
        LookupDistinct(ms, j);
        LookupDistinct(r, j);
      } else {
        LookupAbsent(ms, k);
        LookupAbsent(r, k);
      }
    }
  }

  /** The members `JSON.stringify` writes for property `key` holding `v`: none
      when the property is `undefined`. */
  function Member(key: string, v: Option<Json>): (ms: seq<(string, Json)>)
    ensures Lookup(ms, key) == v
    ensures forall k :: k != key ==> Lookup(ms, k).None?
  {
    match v
    case None => []
    case Some(x) => [(key, x)]
  }

  /** The TypeError `String()` throws for an object that has no callable
      `toString` and no `valueOf` returning a primitive. */
  const NotPrimitive := "Cannot convert object to primitive value"

  /** `String(x)` throws: `x` is an object with an own `toString` member
      (no JSON value is callable, and the inherited `valueOf` returns the
      object itself), or an array holding such a value at any depth of
      arrays. An object without one prints through the inherited
      `toString`, so what its members hold does not matter. */
  predicate Throws(x: Json)
    decreases x
  {
    match x
    case JObj(ms) => Lookup(ms, "toString").Some?
    case JArr(items) => exists i :: 0 <= i < |items| && Throws(items[i])
    case _ => false
  }

  /** String(v) for a value read out of a JSON document (None is
      `undefined`), or the TypeError it throws. */
  function JsString(v: Option<Json>): Result<string>
  {
    match v
    case None => Ok("undefined")
    case Some(x) => JsonString(x)
  }

  /** An array is joined with ',' after converting each element in turn,
      null becoming the empty string; the first element that throws ends
      the conversion. */
  function JsonString(x: Json): Result<string>
    decreases x
  {
    match x
    case JNull => Ok("null")
    case JBool(b) => Ok(if b then "true" else "false")
    case JNum(n) => Ok(IntToString(n))
    case JStr(s) => Ok(s)
    case JArr(items) =>
      var parts := Collect(seq(|items|, i requires 0 <= i < |items| =>
                     if items[i].JNull? then Ok("") else JsonString(items[i])));
      if parts.Ok? then Ok(Join(parts.value, ',')) else Err(parts.message)
    case JObj(ms) =>
      if Lookup(ms, "toString").Some? then Err(NotPrimitive) else Ok("[object Object]")
  }

  /** The values of `rs` in order, or the first error among them. */
  function Collect<T>(rs: seq<Result<T>>): (r: Result<seq<T>>)
    ensures r.Ok? <==> forall i :: 0 <= i < |rs| ==> rs[i].Ok?
    ensures r.Ok? ==> |r.value| == |rs| && forall i :: 0 <= i < |rs| ==> r.value[i] == rs[i].value
    ensures r.Err? ==> exists i :: 0 <= i < |rs| && rs[i] == Err(r.message)
  {
    if rs == [] then Ok([])
    else if rs[0].Err? then Err(rs[0].message)
    else
      var rest := Collect(rs[1..]);
      if rest.Ok? then Ok([rs[0].value] + rest.value) else Err(rest.message)
  }

  /** String(x) throws exactly when `Throws(x)`, and then always with the
      TypeError's message. */
  lemma {:induction false} JsonStringThrows(x: Json)
    ensures JsonString(x).Err? <==> Throws(x)
    ensures JsonString(x).Err? ==> JsonString(x).message == NotPrimitive
    decreases x
  {
    match x
    case JArr(items) =>
      var rs := seq(|items|, i requires 0 <= i < |items| =>
                  if items[i].JNull? then Ok("") else JsonString(items[i]));
      forall i | 0 <= i < |items|
        ensures rs[i].Err? <==> Throws(items[i])
        ensures rs[i].Err? ==> rs[i].message == NotPrimitive
      {
        JsonStringThrows(items[i]);
      }
    case _ =>
  }

  /** String() is the identity on strings, gives "undefined" for a missing
      value, "[object Object]" for an object it can convert, and writes an
      integer of the model as a decimal numeral that reads back as that
      integer (JavaScript agrees for magnitudes up to 2^53); it throws
      exactly on the values `Throws` names. */
  lemma JsStringFacts(v: Option<Json>)
    ensures v.Some? && v.value.JStr? ==> JsString(v) == Ok(v.value.s)
    ensures v.Some? && v.value.JNum? ==> JsString(v).Ok? && ParseInt(JsString(v).value) == Some(v.value.n)
    ensures v.None? ==> JsString(v) == Ok("undefined")
    ensures v.Some? && v.value.JObj? && !Throws(v.value) ==> JsString(v) == Ok("[object Object]")
    ensures JsString(v).Err? <==> v.Some? && Throws(v.value)
    ensures JsString(v).Err? ==> JsString(v).message == NotPrimitive
  {
    if v.Some? {
      JsonStringThrows(v.value);
      if v.value.JNum? {
        ParseIntToString(v.value.n);
      }
    }
  }
}
