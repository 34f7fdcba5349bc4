/**
 * The Gson tree the client reads responses into, and the Gson accessors the
 * client calls on it, with the exceptions those accessors throw. JSON text
 * itself is not modelled: a response body arrives as a tree (or fails to).
 */
module Json {
  import opened Options
  import opened Numbers

  /** A JSON value as Gson holds it. Numbers are integral (see README). */
  datatype Json =
    | JNull
    | JBool(b: bool)
    | JNum(n: int)
    | JStr(s: string)
    | JArr(items: seq<Json>)
    | JObj(members: seq<Member>)

  /** One member of a JSON object: its key and its value, in insertion order. */
  type Member = (string, Json)

  /** An exception raised inside Gson or the JDK, reduced to its message. */
  datatype Fault = Fault(message: Option<string>)

  /** The absent member dereferenced: a null-dereference exception. */
  const NullDereference: Fault := Fault(None)

  datatype Result<+T> = Ok(value: T) | Err(fault: Fault)

  /** `JsonObject.get`: the member's value, or `null` when the key is absent. */
  function Get(members: seq<Member>, key: string): (r: Option<Json>)
    ensures r.None? <==> forall i :: 0 <= i < |members| ==> members[i].0 != key
    ensures r.Some? ==> exists i :: 0 <= i < |members| && members[i] == (key, r.value)
    decreases |members|
  {
    if |members| == 0 then None
    else if members[0].0 == key then Some(members[0].1)
    else
      var r := Get(members[1..], key);
      assert forall i :: 1 <= i < |members| ==> members[i] == members[1..][i - 1];
      r
  }

  /** `JsonObject.has`. */
  predicate Has(members: seq<Member>, key: string) {
    Get(members, key).Some?
  }

  /** The keys of an object's members, in order. */
  function Keys(members: seq<Member>): seq<string>
    decreases |members|
  {
    if |members| == 0 then [] else [members[0].0] + Keys(members[1..])
  }

  /**
   * `JsonObject.addProperty`: a new key goes last; an existing key keeps its
   * place and takes the new value.
   */
  function AddProperty(members: seq<Member>, key: string, value: Json): (r: seq<Member>)
    ensures Get(r, key) == Some(value)
    ensures forall k :: k != key ==> Get(r, k) == Get(members, k)
    ensures !Has(members, key) ==> r == members + [(key, value)]
    ensures Has(members, key) ==> |r| == |members|
    ensures Has(members, key) ==> Keys(r) == Keys(members)
    decreases |members|
  {
    if |members| == 0 then [(key, value)]
    else if members[0].0 == key then [(key, value)] + members[1..]
    else
      var rest := AddProperty(members[1..], key, value);
      AddPropertyStep(members, key, value, rest);
      [members[0]] + rest
  }

  /** A member with another key in front of the updated remaining members. */
  lemma AddPropertyStep(members: seq<Member>, key: string, value: Json, rest: seq<Member>)
    requires |members| > 0 && members[0].0 != key
    requires Get(rest, key) == Some(value)
    requires forall k :: k != key ==> Get(rest, k) == Get(members[1..], k)
    requires !Has(members[1..], key) ==> rest == members[1..] + [(key, value)]
    requires Has(members[1..], key) ==> |rest| == |members| - 1
    requires Has(members[1..], key) ==> Keys(rest) == Keys(members[1..])
    ensures var r := [members[0]] + rest;
            Get(r, key) == Some(value)
            && (forall k :: k != key ==> Get(r, k) == Get(members, k))
            && (!Has(members, key) ==> r == members + [(key, value)])
            && (Has(members, key) ==> |r| == |members|)
            && (Has(members, key) ==> Keys(r) == Keys(members))
  {
    var r := [members[0]] + rest;
    assert r[0] == members[0] && r[1..] == rest;
    assert Get(members, key) == Get(members[1..], key);
    assert Get(r, key) == Get(rest, key);
    forall k | k != key
      ensures Get(r, k) == Get(members, k)
    {
      if members[0].0 != k {
        assert Get(r, k) == Get(rest, k);
      }
    }
    if Has(members, key) {
      assert Keys(r) == [members[0].0] + Keys(rest);
      assert Keys(members) == [members[0].0] + Keys(members[1..]);
    } else {
      assert members == [members[0]] + members[1..];
    }
  }

  /** `JsonElement.getAsJsonObject`. */
  function AsObject(j: Json): (r: Result<seq<Member>>)
    ensures r.Ok? <==> j.JObj?
    ensures r.Ok? ==> r.value == j.members
  {
    if j.JObj? then Ok(j.members) else Err(Fault(Some("Not a JSON Object")))
  }

  /**
   * `JsonObject.getAsJsonArray(key)`: a cast of the member to an array. For
   * an absent key Gson returns `null`; both callers test `has(key)` first,
   * so that case is never reached, and here it is a failure.
   */
  function MemberAsArray(members: seq<Member>, key: string): (r: Result<seq<Json>>)
    ensures r.Ok? <==> Get(members, key).Some? && Get(members, key).value.JArr?
    ensures r.Ok? ==> r.value == Get(members, key).value.items
  {
    match Get(members, key)
    case None => Err(NullDereference)
    case Some(JArr(items)) => Ok(items)
    case Some(_) => Err(Fault(Some("cannot be cast to class com.google.gson.JsonArray")))
  }

  function BoolText(b: bool): string {
    if b then "true" else "false"
  }

  /**
   * `JsonElement.getAsString`: text as is, a number as its literal, a
   * boolean as "true"/"false", a one-element array as its element; null,
   * objects and other arrays throw.
   */
  function AsString(j: Json): (r: Result<string>)
    ensures j.JStr? ==> r == Ok(j.s)
    ensures j.JNum? ==> r.Ok? && ParseLong(r.value) == (if LONG_MIN <= j.n <= LONG_MAX then Some(j.n) else None)
    ensures j.JNull? || j.JObj? ==> r.Err?
    ensures j.JArr? && |j.items| != 1 ==> r.Err?
  {
    match j
    case JStr(s) => Ok(s)
    case JNum(n) =>
      var s := Decimal(n);
      if LONG_MIN <= n <= LONG_MAX then ParseDecimal(n); Ok(s) else ParseOutOfRange(n); Ok(s)
    case JBool(b) => Ok(BoolText(b))
    case JNull => Err(Fault(Some("JsonNull")))
    case JObj(_) => Err(Fault(Some("JsonObject")))
    case JArr(items) =>
      if |items| == 1 then AsString(items[0])
      else Err(Fault(Some("Array must have size 1, but has size " + Decimal(|items|))))
  }

  /** Text outside the `long` range does not parse. */
  lemma ParseOutOfRange(n: int)
    requires !(LONG_MIN <= n <= LONG_MAX)
    ensures ParseLong(Decimal(n)) == None
  {
    var s := Decimal(n);
    if n < 0 {
      DigitsCorrect(-n);
      assert s[1..] == Digits(-n);
    } else {
      DigitsCorrect(n);
      assert IsDigit(s[0]);
    }
  }

  /** `Long.parseLong` as Gson calls it, with its exception. */
  function ParseOrFault(s: string): (r: Result<Long>)
    ensures r.Ok? <==> ParseLong(s).Some?
    ensures r.Ok? ==> r.value == ParseLong(s).value
  {
    match ParseLong(s)
    case Some(v) => Ok(v)
    case None => Err(Fault(Some("For input string: \"" + s + "\"")))
  }

  /**
   * `JsonElement.getAsLong`: a number narrowed to 64 bits, text and booleans
   * through `Long.parseLong`, a one-element array as its element; null,
   * objects and other arrays throw.
   */
  function AsLong(j: Json): (r: Result<Long>)
    ensures j.JNum? ==> r == Ok(Wrap64(j.n))
    ensures j.JStr? ==> (r.Ok? <==> ParseLong(j.s).Some?)
    ensures j.JStr? && r.Ok? ==> r.value == ParseLong(j.s).value
    ensures j.JNull? || j.JObj? || j.JBool? ==> r.Err?
    ensures j.JArr? && |j.items| != 1 ==> r.Err?
  {
    match j
    case JNum(n) => Ok(Wrap64(n))
    case JStr(s) => ParseOrFault(s)
    case JBool(b) => ParseOrFault(BoolText(b))
    case JNull => Err(Fault(Some("JsonNull")))
    case JObj(_) => Err(Fault(Some("JsonObject")))
    case JArr(items) =>
      if |items| == 1 then AsLong(items[0])
      else Err(Fault(Some("Array must have size 1, but has size " + Decimal(|items|))))
  }

  /** `obj.get(key).getAsString()`: an absent key dereferences `null`. */
  function MemberAsString(members: seq<Member>, key: string): (r: Result<string>)
    ensures Get(members, key).None? ==> r == Err(NullDereference)
    ensures Get(members, key).Some? ==> r == AsString(Get(members, key).value)
  {
    match Get(members, key)
    case None => Err(NullDereference)
    case Some(v) => AsString(v)
  }

  /** `obj.get(key).getAsLong()`: an absent key dereferences `null`. */
  function MemberAsLong(members: seq<Member>, key: string): (r: Result<Long>)
    ensures Get(members, key).None? ==> r == Err(NullDereference)
    ensures Get(members, key).Some? ==> r == AsLong(Get(members, key).value)
  {
    match Get(members, key)
    case None => Err(NullDereference)
    case Some(v) => AsLong(v)
  }
}
