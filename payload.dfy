/**
 * Decoded JSON documents, as `JSON.parse` produces them, and the two ways the
 * message handler looks into one: reading a property (`json.ts`) and copying
 * its own properties into a new object (`{ ...json }`).
 */
module Payload {
  import opened Wrappers

  /**
   * A decoded JSON value. Numbers are mathematical reals (no rounding, and
   * JSON text cannot denote NaN); an object is a map from key to value, so
   * the order of its keys is not represented.
   */
  datatype Json =
    | JNull
    | JBool(b: bool)
    | JNum(n: real)
    | JStr(s: string)
    | JArr(items: seq<Json>)
    | JObj(fields: map<string, Json>)

  /**
   * `j.k` on a decoded value: the own property of an object, `undefined`
   * (None) for every other kind of value. Reading a property of `null`
   * throws, which is why `null` is excluded. Only an object's own keys are
   * modelled: the own `length` and index properties of strings and arrays,
   * and inherited members such as `toString` and `constructor`, read as
   * undefined here. The handler reads none of those keys.
   */
  function Member(j: Json, k: string): (r: Option<Json>)
    requires !j.JNull?
    ensures r.Some? <==> j.JObj? && k in j.fields
    ensures r.Some? ==> r.value == j.fields[k]
  {
    if j.JObj? && k in j.fields then Some(j.fields[k]) else None
  }

  /** True when `j.k` is present and `typeof j.k === "number"`. */
  predicate IsNumberAt(j: Json, k: string)
    requires !j.JNull?
  {
    Member(j, k).Some? && Member(j, k).value.JNum?
  }

  /**
   * The own enumerable properties that `{ ...j }` copies: an object's
   * fields, the elements of an array and the characters of a string under
   * their decimal index keys, and nothing for `null`, booleans and numbers.
   */
  function Spread(j: Json): (r: map<string, Json>)
    ensures j.JObj? ==> r == j.fields
    ensures j.JNull? || j.JBool? || j.JNum? ==> r == map[]
    ensures j.JArr? ==> r.Keys == IndexKeys(|j.items|)
    ensures j.JArr? ==> forall i :: 0 <= i < |j.items| ==> r[DecimalString(i)] == j.items[i]
    ensures j.JStr? ==> r.Keys == IndexKeys(|j.s|)
    ensures j.JStr? ==> forall i :: 0 <= i < |j.s| ==> r[DecimalString(i)] == JStr([j.s[i]])
  {
    match j
    case JObj(f) => f
    case JArr(xs) => Indexed(xs)
    case JStr(s) => Indexed(seq(|s|, i requires 0 <= i < |s| => JStr([s[i]])))
    case _ => map[]
  }

  /** The keys "0", "1", ..., up to `n - 1`. */
  ghost function IndexKeys(n: nat): set<string>
  {
    set i | 0 <= i < n :: DecimalString(i)
  }

  /** One more index adds exactly one more key. */
  lemma IndexKeysStep(n: nat)
    ensures IndexKeys(n + 1) == IndexKeys(n) + {DecimalString(n)}
  {
    forall k | k in IndexKeys(n + 1)
      ensures k in IndexKeys(n) + {DecimalString(n)}
    {
      var i :| 0 <= i < n + 1 && k == DecimalString(i);
      if i < n {
        assert k in IndexKeys(n);
      }
    }
  }

  /** Adding the last element under its index key extends the object for the prefix. */
  lemma IndexedStep(xs: seq<Json>, prefix: map<string, Json>)
    requires |xs| >= 1
    requires prefix.Keys == IndexKeys(|xs| - 1)
    requires forall i :: 0 <= i < |xs| - 1 ==> prefix[DecimalString(i)] == xs[i]
    ensures var r := prefix[DecimalString(|xs| - 1) := xs[|xs| - 1]];
            r.Keys == IndexKeys(|xs|) && forall i :: 0 <= i < |xs| ==> r[DecimalString(i)] == xs[i]
  {
    var n := |xs| - 1;
    IndexKeysStep(n);
    DecimalStringInjective(n);
  }

  /** The object `{"0": xs[0], "1": xs[1], ...}`. */
  function Indexed(xs: seq<Json>): (r: map<string, Json>)
    ensures r.Keys == IndexKeys(|xs|)
    ensures forall i :: 0 <= i < |xs| ==> r[DecimalString(i)] == xs[i]
    decreases |xs|
  {
    if xs == [] then map[]
    else
      var n := |xs| - 1;
      var prefix := Indexed(xs[..n]);
      IndexedStep(xs, prefix);
      prefix[DecimalString(n) := xs[n]]
  }

  /** The canonical decimal spelling of a natural number, as used for index keys. */
  function DecimalString(n: nat): (r: string)
    ensures |r| >= 1
    decreases n
  {
    if n < 10 then [Digit(n)] else DecimalString(n / 10) + [Digit(n % 10)]
  }

  function Digit(d: nat): (c: char)
    requires d < 10
    ensures DigitValue(c) == d
  {
    ('0' as int + d) as char
  }

  function DigitValue(c: char): int
  {
    c as int - '0' as int
  }

  /** Reading a string of decimal digits back as a number. */
  function DecimalValue(s: string): int
    decreases |s|
  {
    if s == "" then 0 else DecimalValue(s[..|s| - 1]) * 10 + DigitValue(s[|s| - 1])
  }

  /** Spelling a number in decimal and reading it back gives the number. */
  lemma {:induction false} DecimalRoundTrip(n: nat)
    ensures DecimalValue(DecimalString(n)) == n
    decreases n
  {
    var s := DecimalString(n);
    if n >= 10 {
      DecimalRoundTrip(n / 10);
      assert s[..|s| - 1] == DecimalString(n / 10);
    } else {
      assert s[..|s| - 1] == "";
    }
  }

  /** Distinct indexes have distinct keys: `n` collides with no smaller index. */
  lemma DecimalStringInjective(n: nat)
    ensures forall i :: 0 <= i < n ==> DecimalString(i) != DecimalString(n)
  {
    forall i | 0 <= i < n
      ensures DecimalString(i) != DecimalString(n)
    {
      DecimalRoundTrip(i);
      DecimalRoundTrip(n);
    }
  }
}
