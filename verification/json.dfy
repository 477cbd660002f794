/** Parsed JSON request bodies, as `express.json()` hands them to the handlers. */
module Json {
  import opened Common
  import opened Chars
  import opened Text

  datatype Json =
    | JString(str: string)
    | JNumber(num: int)
    | JBool(truth: bool)
    | JNull
    | JArray(items: seq<Json>)
    | JObject(members: seq<Member>)

  datatype Member = Member(key: string, value: Json)

  /** A request body: the members of the top-level object, in the order they were written. */
  type Body = seq<Member>

  /**
   Whether `k` is an array index: the canonical decimal form (no sign, no leading zero) of a
   number below 2^32 - 1. `Object.keys` lists such keys before every other key.
   */
  predicate IsArrayIndex(k: string) {
    && |k| > 0 && (forall i :: 0 <= i < |k| ==> IsDigit(k[i]))
    && (|k| > 1 ==> k[0] != '0')
    && DecimalValue(k) < 0xFFFF_FFFF
  }

  /**
   Whether `Object.keys` lists the member at `i` no later than the member at `j`: array indices
   first, in ascending numeric order, then the other keys in the order they were written.
   */
  predicate ListedNoLater(body: Body, i: nat, j: nat)
    requires i < |body| && j < |body|
  {
    if IsArrayIndex(body[i].key) then
      !IsArrayIndex(body[j].key) || DecimalValue(body[i].key) <= DecimalValue(body[j].key)
    else !IsArrayIndex(body[j].key) && i <= j
  }

  /** The listing order is total, and two members each listed no later than the other share a key. */
  lemma ListedOrderTotal(body: Body, i: nat, j: nat)
    requires i < |body| && j < |body|
    ensures ListedNoLater(body, i, j) || ListedNoLater(body, j, i)
    ensures ListedNoLater(body, i, j) && ListedNoLater(body, j, i) ==> body[i].key == body[j].key
  {
    if ListedNoLater(body, i, j) && ListedNoLater(body, j, i) && IsArrayIndex(body[i].key) {
      NatToStringOfDecimal(body[i].key);
      NatToStringOfDecimal(body[j].key);
    }
  }

  function Keys(body: Body): set<string> {
    set i | 0 <= i < |body| :: body[i].key
  }

  /** The position of the first member named `key`. */
  function IndexOf(body: Body, key: string): (k: Option<nat>)
    ensures k.None? ==> forall i :: 0 <= i < |body| ==> body[i].key != key
    ensures k.Some? ==> && k.value < |body| && body[k.value].key == key
                        && forall i :: 0 <= i < k.value ==> body[i].key != key
    decreases |body|
  {
    if |body| == 0 then None
    else if body[0].key == key then Some(0)
    else match IndexOf(body[1..], key)
      case None => None
      case Some(i) => Some(i + 1)
  }

  /** `body[key]`: the value of the first member named `key`, absent when there is none. */
  function Lookup(body: Body, key: string): Option<Json> {
    match IndexOf(body, key)
    case Some(i) => Some(body[i].value)
    case None => None
  }

  lemma LookupKeys(body: Body, key: string)
    ensures Lookup(body, key).Some? <==> key in Keys(body)
  {
    if key in Keys(body) {
      var i :| 0 <= i < |body| && body[i].key == key;
    }
  }
}
