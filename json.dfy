/**
 * JSON values as the browser's `JSON.parse` produces them, and the
 * `JSON.stringify`/`JSON.parse` pair treated as an abstract codec.
 * Numbers are finite decimals, of which every finite double is one;
 * floating-point rounding is not modelled.
 */
module Json {
  import opened Wrappers

  /** The number `mantissa / 10^exponent`. */
  datatype Decimal = Decimal(mantissa: int, exponent: nat)

  function Pow10(e: nat): (p: nat)
    ensures p >= 1
  {
    if e == 0 then 1 else 10 * Pow10(e - 1)
  }

  /** A fraction's mantissa has no trailing zero digit, so each number has one form. */
  predicate IsCanonical(d: Decimal) {
    d.exponent == 0 || d.mantissa % 10 != 0
  }

  type Number = d: Decimal | IsCanonical(d) witness Decimal(0, 0)

  /** `a` and `b` denote the same number. */
  predicate SameValue(a: Decimal, b: Decimal) {
    a.mantissa * Pow10(b.exponent) == b.mantissa * Pow10(a.exponent)
  }

  lemma {:induction false} Pow10Add(a: nat, b: nat)
    ensures Pow10(a + b) == Pow10(a) * Pow10(b)
  {
    if b > 0 {
      Pow10Add(a, b - 1);
      assert Pow10(a + b) == 10 * Pow10(a + b - 1);
    }
  }

  /** Equal numbers in canonical form are the same form, so `Num` equality is number equality. */
  lemma CanonicalIsUnique(a: Number, b: Number)
    requires SameValue(a, b)
    ensures a == b
  {
    if a.exponent < b.exponent {
      LongerExponentEndsInZero(a, b);
      assert false;
    } else if b.exponent < a.exponent {
      LongerExponentEndsInZero(b, a);
      assert false;
    } else {
      var p := Pow10(a.exponent);
      assert a.mantissa * p == b.mantissa * p;
    }
  }

  /** If `a` has the shorter exponent, `b`'s mantissa ends in a zero digit. */
  lemma LongerExponentEndsInZero(a: Decimal, b: Decimal)
    requires SameValue(a, b) && a.exponent < b.exponent
    ensures b.mantissa % 10 == 0
  {
    var d := b.exponent - a.exponent;
    Pow10Add(a.exponent, d);
    assert Pow10(d) == 10 * Pow10(d - 1);
    ScaledEndsInZero(a.mantissa, b.mantissa, Pow10(a.exponent), Pow10(d), Pow10(d - 1));
  }

  /** `x·(p·q) = y·p` with `q = 10·r` and `p ≥ 1` makes `y` a multiple of ten. */
  lemma ScaledEndsInZero(x: int, y: int, p: int, q: int, r: int)
    requires p >= 1 && q == 10 * r && x * (p * q) == y * p
    ensures y % 10 == 0
  {
    MulAssoc(x, p, q);
    Cancel(x * q, y, p);
    MulTen(x, r);
  }

  lemma MulAssoc(x: int, p: int, q: int)
    ensures x * (p * q) == (x * q) * p
  {
  }

  lemma MulTen(x: int, r: int)
    ensures (x * (10 * r)) % 10 == 0
  {
    assert x * (10 * r) == 10 * (x * r);
  }

  lemma Cancel(x: int, y: int, p: int)
    requires p >= 1 && x * p == y * p
    ensures x == y
  {
    assert (x - y) * p == 0;
  }

  /** A whole number. */
  function Whole(n: int): (d: Number)
    ensures d.mantissa == n && d.exponent == 0
  {
    Decimal(n, 0)
  }

  datatype Json =
    | Null
    | Bool(b: bool)
    | Num(n: Number)
    | Str(s: string)
    | Arr(items: seq<Json>)
    | Obj(fields: seq<(string, Json)>)

  /** JavaScript truthiness of a parsed value: `null`, `false`, `0` and `""` are falsy. */
  predicate IsFalsy(j: Json) {
    j == Null || j == Bool(false) || j == Num(Whole(0)) || j == Str("")
  }

  /** `value || []`: the parsed value, or an empty array when it is falsy. */
  function OrEmptyArray(j: Json): (r: Json)
    ensures !IsFalsy(r)
    ensures IsFalsy(j) <==> r == Arr([]) && j != Arr([])
    ensures !IsFalsy(j) ==> r == j
  {
    if IsFalsy(j) then Arr([]) else j
  }

  /** A key that JavaScript treats as an array index, which objects enumerate first. */
  predicate IsIndexKey(k: string) {
    |k| > 0 && forall i :: 0 <= i < |k| ==> '0' <= k[i] <= '9'
  }

  predicate DistinctKeys(fields: seq<(string, Json)>) {
    forall i, j :: 0 <= i < j < |fields| ==> fields[i].0 != fields[j].0
  }

  /**
   * Values whose objects survive a `JSON.stringify`/`JSON.parse` round trip
   * unchanged: keys are distinct (parse keeps only the last duplicate) and none
   * is an index key (stringify moves those to the front).
   */
  predicate WellKeyed(j: Json) {
    match j
    case Arr(items) => forall i :: 0 <= i < |items| ==> WellKeyed(items[i])
    case Obj(fields) =>
      DistinctKeys(fields) &&
      forall i :: 0 <= i < |fields| ==> !IsIndexKey(fields[i].0) && WellKeyed(fields[i].1)
    case _ => true
  }

  /**
   * `JSON.stringify` and `JSON.parse`; `parse` gives `None` where the browser
   * throws a `SyntaxError`.
   */
  datatype Codec = Codec(stringify: Json -> string, parse: string -> Option<Json>)

  /** The laws the model relies on: parse undoes stringify, and `null` prints as "null". */
  ghost predicate ValidCodec(c: Codec) {
    && (forall j {:trigger c.stringify(j)} :: WellKeyed(j) ==> c.parse(c.stringify(j)) == Some(j))
    && c.stringify(Null) == "null"
  }

  /** Property read `obj[k]` on a parsed object: the first field named `k`. */
  function Lookup(fields: seq<(string, Json)>, k: string): (r: Option<Json>)
    ensures r.Some? <==> exists i :: 0 <= i < |fields| && fields[i].0 == k
    ensures r.Some? ==> exists i :: 0 <= i < |fields| && fields[i] == (k, r.value)
  {
    if fields == [] then None
    else if fields[0].0 == k then Some(fields[0].1)
    else
      var r := Lookup(fields[1..], k);
      assert forall i :: 0 < i < |fields| ==> fields[i] == fields[1..][i - 1];
      r
  }

  lemma {:induction false} LookupAppend(a: seq<(string, Json)>, b: seq<(string, Json)>, k: string)
    ensures Lookup(a + b, k) == if Lookup(a, k).Some? then Lookup(a, k) else Lookup(b, k)
  {
    if a == [] {
      assert a + b == b;
    } else {
      assert (a + b)[1..] == a[1..] + b;
      LookupAppend(a[1..], b, k);
    }
  }

  /** Every key of `fields` is one of `keys`. */
  predicate KeysIn(fields: seq<(string, Json)>, keys: set<string>) {
    forall i :: 0 <= i < |fields| ==> fields[i].0 in keys
  }

  /** Two key-disjoint objects with distinct keys concatenate to one with distinct keys. */
  lemma DistinctKeysAppend(a: seq<(string, Json)>, b: seq<(string, Json)>, ka: set<string>, kb: set<string>)
    requires DistinctKeys(a) && DistinctKeys(b)
    requires KeysIn(a, ka) && KeysIn(b, kb) && ka !! kb
    ensures DistinctKeys(a + b) && KeysIn(a + b, ka + kb)
  {
  }
}
