/**
 * A concrete stringify/parse pair that meets `ValidCodec`: a length-prefixed
 * text encoding of JSON values.  It is not the browser's syntax; it shows
 * that the codec law is satisfiable, so lemmas that assume it are not vacuous.
 */
module LengthPrefixed {
  import opened Wrappers
  import opened Json

  /** `n` in unary: n copies of '1', then '.'. */
  function EncNat(n: nat): string {
    if n == 0 then "." else "1" + EncNat(n - 1)
  }

  function EncInt(m: int): string {
    if m >= 0 then "+" + EncNat(m) else "-" + EncNat(-m)
  }

  function EncStr(s: string): string {
    EncNat(|s|) + s
  }

  function Concat(parts: seq<string>): string {
    if parts == [] then "" else parts[0] + Concat(parts[1..])
  }

  function Enc(j: Json): string
    decreases j, 1
  {
    match j
    case Null => "null"
    case Bool(b) => if b then "t" else "f"
    case Num(d) => "d" + EncInt(d.mantissa) + EncNat(d.exponent)
    case Str(s) => "s" + EncStr(s)
    case Arr(items) => "a" + EncNat(|items|) + Concat(ItemCodes(j))
    case Obj(fields) => "o" + EncNat(|fields|) + Concat(FieldCodes(j))
  }

  function ItemCodes(j: Json): (codes: seq<string>)
    requires j.Arr?
    ensures |codes| == |j.items|
    ensures forall i :: 0 <= i < |codes| ==> codes[i] == Enc(j.items[i])
    decreases j, 0
  {
    seq(|j.items|, i requires 0 <= i < |j.items| => Enc(j.items[i]))
  }

  function FieldCodes(j: Json): (codes: seq<string>)
    requires j.Obj?
    ensures |codes| == |j.fields|
    ensures forall i :: 0 <= i < |codes| ==> codes[i] == EncStr(j.fields[i].0) + Enc(j.fields[i].1)
    decreases j, 0
  {
    seq(|j.fields|, i requires 0 <= i < |j.fields| => EncStr(j.fields[i].0) + Enc(j.fields[i].1))
  }

  function DecodeNat(s: string): (r: Option<(nat, string)>)
    ensures r.Some? ==> |r.value.1| < |s|
  {
    if s == [] then None
    else if s[0] == '.' then Some((0, s[1..]))
    else if s[0] == '1' then
      match DecodeNat(s[1..])
      case Some((n, t)) => Some((n + 1, t))
      case None => None
    else None
  }

  function DecodeInt(s: string): (r: Option<(int, string)>)
    ensures r.Some? ==> |r.value.1| < |s|
  {
    if s == [] || (s[0] != '+' && s[0] != '-') then None
    else
      match DecodeNat(s[1..])
      case Some((n, t)) => Some((if s[0] == '+' then n as int else -(n as int), t))
      case None => None
  }

  function DecodeStr(s: string): (r: Option<(string, string)>)
    ensures r.Some? ==> |r.value.1| < |s|
  {
    match DecodeNat(s)
    case Some((n, t)) => if n <= |t| then Some((t[..n], t[n..])) else None
    case None => None
  }

  /** One value from the front of `s`, and the text after it. */
  function Decode(s: string): (r: Option<(Json, string)>)
    ensures r.Some? ==> |r.value.1| < |s|
    decreases |s|, 0
  {
    if s == [] then None
    else if s[0] == 'n' then
      if |s| >= 4 && s[..4] == "null" then Some((Null, s[4..])) else None
    else if s[0] == 't' then Some((Bool(true), s[1..]))
    else if s[0] == 'f' then Some((Bool(false), s[1..]))
    else if s[0] == 'd' then
      match DecodeInt(s[1..])
      case None => None
      case Some((m, t)) =>
        match DecodeNat(t)
        case None => None
        case Some((e, u)) => if IsCanonical(Decimal(m, e)) then Some((Num(Decimal(m, e)), u)) else None
    else if s[0] == 's' then
      match DecodeStr(s[1..])
      case None => None
      case Some((x, t)) => Some((Str(x), t))
    else if s[0] == 'a' then
      match DecodeNat(s[1..])
      case None => None
      case Some((n, t)) =>
        match DecodeItems(t, n)
        case None => None
        case Some((items, u)) => Some((Arr(items), u))
    else if s[0] == 'o' then
      match DecodeNat(s[1..])
      case None => None
      case Some((n, t)) =>
        match DecodeFields(t, n)
        case None => None
        case Some((fields, u)) => Some((Obj(fields), u))
    else None
  }

  /** `n` values from the front of `s`. */
  function DecodeItems(s: string, n: nat): (r: Option<(seq<Json>, string)>)
    ensures r.Some? ==> |r.value.1| <= |s|
    decreases |s|, 1, n
  {
    if n == 0 then Some(([], s))
    else
      match Decode(s)
      case None => None
      case Some((x, t)) =>
        match DecodeItems(t, n - 1)
        case None => None
        case Some((xs, u)) => Some(([x] + xs, u))
  }

  /** `n` key/value pairs from the front of `s`. */
  function DecodeFields(s: string, n: nat): (r: Option<(seq<(string, Json)>, string)>)
    ensures r.Some? ==> |r.value.1| <= |s|
    decreases |s|, 1, n
  {
    if n == 0 then Some(([], s))
    else
      match DecodeStr(s)
      case None => None
      case Some((k, t)) =>
        match Decode(t)
        case None => None
        case Some((v, u)) =>
          match DecodeFields(u, n - 1)
          case None => None
          case Some((fs, w)) => Some(([(k, v)] + fs, w))
  }

  /** The whole text as one value; trailing text is a syntax error. */
  function Parse(s: string): Option<Json> {
    match Decode(s)
    case Some((j, rest)) => if rest == [] then Some(j) else None
    case None => None
  }

  function LengthPrefixedCodec(): Codec {
    Codec(Enc, Parse)
  }

  lemma {:induction false} DecodeEncNat(n: nat, rest: string)
    ensures DecodeNat(EncNat(n) + rest) == Some((n, rest))
  {
    if n > 0 {
      assert (EncNat(n) + rest)[1..] == EncNat(n - 1) + rest;
      DecodeEncNat(n - 1, rest);
    }
  }

  lemma DecodeEncInt(m: int, rest: string)
    ensures DecodeInt(EncInt(m) + rest) == Some((m, rest))
  {
    var s := EncInt(m) + rest;
    if m >= 0 {
      assert s == "+" + (EncNat(m) + rest);
      assert s[1..] == EncNat(m) + rest;
      DecodeEncNat(m, rest);
    } else {
      assert s == "-" + (EncNat(-m) + rest);
      assert s[1..] == EncNat(-m) + rest;
      DecodeEncNat(-m, rest);
    }
  }

  lemma DecodeEncStr(x: string, rest: string)
    ensures DecodeStr(EncStr(x) + rest) == Some((x, rest))
  {
    assert EncStr(x) + rest == EncNat(|x|) + (x + rest);
    DecodeEncNat(|x|, x + rest);
    assert (x + rest)[..|x|] == x && (x + rest)[|x|..] == rest;
  }

  lemma ConcatFrom(parts: seq<string>, k: nat)
    requires k < |parts|
    ensures Concat(parts[k..]) == parts[k] + Concat(parts[k + 1..])
  {
    assert parts[k..][1..] == parts[k + 1..];
  }

  /** Every value is decoded from the front of its code, leaving the rest. */
  lemma {:induction false} DecodeEnc(j: Json, rest: string)
    ensures Decode(Enc(j) + rest) == Some((j, rest))
    decreases j, if j.Arr? then |j.items| + 1 else if j.Obj? then |j.fields| + 1 else 0
  {
    match j
    case Null =>
      var s := Enc(j) + rest;
      assert s[..4] == "null" && s[4..] == rest;
    case Bool(b) =>
      assert (Enc(j) + rest)[1..] == rest;
    case Num(d) =>
      DecodeEncNum(d, rest);
    case Str(x) =>
      assert (Enc(j) + rest)[1..] == EncStr(x) + rest;
      DecodeEncStr(x, rest);
    case Arr(items) =>
      DecodeEncItems(j, 0, rest);
      DecodeEncArr(j, rest);
    case Obj(fields) =>
      DecodeEncFields(j, 0, rest);
      DecodeEncObj(j, rest);
  }

  lemma DecodeEncNum(d: Number, rest: string)
    ensures Decode(Enc(Num(d)) + rest) == Some((Num(d), rest))
  {
    assert (Enc(Num(d)) + rest)[1..] == EncInt(d.mantissa) + (EncNat(d.exponent) + rest);
    DecodeEncInt(d.mantissa, EncNat(d.exponent) + rest);
    DecodeEncNat(d.exponent, rest);
  }

  /** An array's code decodes to it once its items' codes do. */
  lemma DecodeEncArr(j: Json, rest: string)
    requires j.Arr?
    requires DecodeItems(Concat(ItemCodes(j)[0..]) + rest, |j.items| - 0) == Some((j.items[0..], rest))
    ensures Decode(Enc(j) + rest) == Some((j, rest))
  {
    var codes := ItemCodes(j);
    assert codes[0..] == codes && j.items[0..] == j.items;
    assert (Enc(j) + rest)[1..] == EncNat(|j.items|) + (Concat(codes) + rest);
    DecodeEncNat(|j.items|, Concat(codes) + rest);
  }

  /** An object's code decodes to it once its fields' codes do. */
  lemma DecodeEncObj(j: Json, rest: string)
    requires j.Obj?
    requires DecodeFields(Concat(FieldCodes(j)[0..]) + rest, |j.fields| - 0) == Some((j.fields[0..], rest))
    ensures Decode(Enc(j) + rest) == Some((j, rest))
  {
    var codes := FieldCodes(j);
    assert codes[0..] == codes && j.fields[0..] == j.fields;
    assert (Enc(j) + rest)[1..] == EncNat(|j.fields|) + (Concat(codes) + rest);
    DecodeEncNat(|j.fields|, Concat(codes) + rest);
  }

  lemma {:induction false} DecodeEncItems(j: Json, k: nat, rest: string)
    requires j.Arr? && k <= |j.items|
    ensures DecodeItems(Concat(ItemCodes(j)[k..]) + rest, |j.items| - k) == Some((j.items[k..], rest))
    decreases j, |j.items| - k
  {
    var codes := ItemCodes(j);
    if k < |j.items| {
      ConcatFrom(codes, k);
      var tail := Concat(codes[k + 1..]) + rest;
      assert Concat(codes[k..]) + rest == Enc(j.items[k]) + tail;
      DecodeEnc(j.items[k], tail);
      DecodeEncItems(j, k + 1, rest);
      assert [j.items[k]] + j.items[k + 1..] == j.items[k..];
    } else {
      assert Concat(codes[k..]) + rest == rest;
      assert j.items[k..] == [];
    }
  }

  lemma {:induction false} DecodeEncFields(j: Json, k: nat, rest: string)
    requires j.Obj? && k <= |j.fields|
    ensures DecodeFields(Concat(FieldCodes(j)[k..]) + rest, |j.fields| - k) == Some((j.fields[k..], rest))
    decreases j, |j.fields| - k
  {
    var codes := FieldCodes(j);
    if k < |j.fields| {
      ConcatFrom(codes, k);
      var (key, v) := j.fields[k];
      var tail := Concat(codes[k + 1..]) + rest;
      assert Concat(codes[k..]) + rest == EncStr(key) + (Enc(v) + tail);
      DecodeEncStr(key, Enc(v) + tail);
      DecodeEnc(v, tail);
      DecodeEncFields(j, k + 1, rest);
      assert [(key, v)] + j.fields[k + 1..] == j.fields[k..];
    } else {
      assert Concat(codes[k..]) + rest == rest;
      assert j.fields[k..] == [];
    }
  }

  /** The length-prefixed pair meets the codec law, for every value. */
  lemma LengthPrefixedIsValid()
    ensures ValidCodec(LengthPrefixedCodec())
  {
    forall j: Json ensures Parse(Enc(j)) == Some(j) {
      DecodeEnc(j, "");
      assert Enc(j) + "" == Enc(j);
    }
  }
}
