/** The bytes a cohort is keyed by, and the decoder that shows nothing is lost in them. */
module Cohort {
  import opened Basics

  type Byte = n: int | 0 <= n < 256

  /** The UTF-8 bytes of a string; its length fits a `u64`. */
  type Utf8 = s: seq<Byte> | |s| < 0x1_0000_0000_0000_0000

  type Uuid = s: seq<Byte> | |s| == 16 witness seq(16, _ => 0)

  const PRINCIPAL_TAG: Byte := 0
  const DECLARED_TAG: Byte := 1
  const VALUE_UUID: Byte := 0
  const VALUE_TEXT: Byte := 1
  const VALUE_BOOL: Byte := 2
  const VALUE_INT: Byte := 3

  datatype CohortValue = OfUuid(id: Uuid) | OfText(text: Utf8) | OfBool(flag: bool) | OfInt(value: BigInt)

  datatype Cohort = Cohort(dimension: Utf8, value: CohortValue)

  // ---- Little-endian integers ----

  function Pow256(n: nat): nat {
    if n == 0 then 1 else 256 * Pow256(n - 1)
  }

  function ToLe(n: nat, width: nat): (bytes: seq<Byte>)
    ensures |bytes| == width
  {
    if width == 0 then [] else [n % 256] + ToLe(n / 256, width - 1)
  }

  function FromLe(bytes: seq<Byte>): nat {
    if bytes == [] then 0 else bytes[0] + 256 * FromLe(bytes[1..])
  }

  lemma {:induction false} LeRoundTrip(n: nat, width: nat)
    requires n < Pow256(width)
    ensures FromLe(ToLe(n, width)) == n
  {
    if width > 0 {
      LeRoundTrip(n / 256, width - 1);
      assert ToLe(n, width)[1..] == ToLe(n / 256, width - 1);
    }
  }

  /** The least significant byte comes first. */
  lemma LeastByteFirst(low: Byte, high: nat, width: nat)
    requires width > 0
    ensures ToLe(low + 256 * high, width) == [low] + ToLe(high, width - 1)
  {
    assert (low + 256 * high) % 256 == low && (low + 256 * high) / 256 == high;
  }

  /** Negative numbers are in two's complement. */
  lemma {:induction false} MinusOneIsAllOnes(width: nat)
    ensures Pow256(width) >= 1 && ToLe(Pow256(width) - 1, width) == seq(width, _ => 255)
    ensures width == 8 ==> Pow256(width) - 1 == Unsigned(-1)
  {
    if width > 0 {
      MinusOneIsAllOnes(width - 1);
      assert (Pow256(width) - 1) % 256 == 255 && (Pow256(width) - 1) / 256 == Pow256(width - 1) - 1;
    }
    U64Fits();
  }

  lemma U64Fits()
    ensures Pow256(8) == 0x1_0000_0000_0000_0000
  {
    assert Pow256(4) == 0x1_0000_0000;
    assert Pow256(6) == 0x1_0000_0000_0000;
  }

  /** Two's complement in eight bytes. */
  function Unsigned(v: BigInt): nat {
    if v < 0 then v + 0x1_0000_0000_0000_0000 else v
  }

  function Signed(n: nat): int {
    if n > I64_MAX then n - 0x1_0000_0000_0000_0000 else n
  }

  function U64(n: nat): (bytes: seq<Byte>)
    ensures |bytes| == 8
  {
    ToLe(n, 8)
  }

  lemma U64RoundTrip(n: nat)
    requires n < 0x1_0000_0000_0000_0000
    ensures FromLe(U64(n)) == n
  {
    U64Fits();
    LeRoundTrip(n, 8);
  }

  // ---- Encoding ----

  function Principal(id: Uuid): seq<Byte> {
    [PRINCIPAL_TAG] + id
  }

  function Prefixed(text: Utf8): seq<Byte> {
    U64(|text|) + text
  }

  function ValueBytes(value: CohortValue): seq<Byte> {
    match value
    case OfUuid(id) => [VALUE_UUID] + id
    case OfText(text) => [VALUE_TEXT] + Prefixed(text)
    case OfBool(flag) => [VALUE_BOOL, if flag then 1 else 0]
    case OfInt(v) => [VALUE_INT] + U64(Unsigned(v))
  }

  function Key(c: Cohort): seq<Byte> {
    [DECLARED_TAG] + Prefixed(c.dimension) + ValueBytes(c.value)
  }

  // ---- Decoding ----

  /** A length-prefixed string at the front, and what follows it. */
  function TakePrefixed(bytes: seq<Byte>): Option<(Utf8, seq<Byte>)> {
    if |bytes| < 8 then None
    else
      var len := FromLe(bytes[..8]);
      if len >= 0x1_0000_0000_0000_0000 || |bytes| < 8 + len then None
      else Some((bytes[8..8 + len], bytes[8 + len..]))
  }

  function DecodeValue(bytes: seq<Byte>): Option<CohortValue> {
    if bytes == [] then None
    else
      var body := bytes[1..];
      if bytes[0] == VALUE_UUID && |body| == 16 then Some(OfUuid(body))
      else if bytes[0] == VALUE_TEXT then
        var text := TakePrefixed(body);
        if text.None? || text.value.1 != [] then None else Some(OfText(text.value.0))
      else if bytes[0] == VALUE_BOOL && |body| == 1 && body[0] <= 1 then Some(OfBool(body[0] == 1))
      else if bytes[0] == VALUE_INT && |body| == 8 then
        var v := Signed(FromLe(body));
        if I64_MIN <= v <= I64_MAX then Some(OfInt(v)) else None
      else None
  }

  function DecodeKey(bytes: seq<Byte>): Option<Cohort> {
    if bytes == [] || bytes[0] != DECLARED_TAG then None
    else
      var dimension := TakePrefixed(bytes[1..]);
      if dimension.None? then None
      else
        var value := DecodeValue(dimension.value.1);
        if value.None? then None else Some(Cohort(dimension.value.0, value.value))
  }

  // ---- Nothing is lost ----

  lemma PrefixedRoundTrip(text: Utf8, rest: seq<Byte>)
    ensures TakePrefixed(Prefixed(text) + rest) == Some((text, rest))
  {
    var bytes := Prefixed(text) + rest;
    U64RoundTrip(|text|);
    assert bytes[..8] == U64(|text|);
    assert bytes[8..8 + |text|] == text && bytes[8 + |text|..] == rest;
  }

  lemma ValueRoundTrip(value: CohortValue)
    ensures DecodeValue(ValueBytes(value)) == Some(value)
  {
    var bytes := ValueBytes(value);
    match value
    case OfUuid(id) => assert bytes[1..] == id;
    case OfText(text) =>
      PrefixedRoundTrip(text, []);
      assert bytes[1..] == Prefixed(text) + [];
    case OfBool(flag) =>
    case OfInt(v) =>
      U64RoundTrip(Unsigned(v));
      assert bytes[1..] == U64(Unsigned(v));
  }

  lemma KeyRoundTrip(c: Cohort)
    ensures DecodeKey(Key(c)) == Some(c)
  {
    PrefixedRoundTrip(c.dimension, ValueBytes(c.value));
    ValueRoundTrip(c.value);
    assert Key(c)[1..] == Prefixed(c.dimension) + ValueBytes(c.value);
  }

  /** Byte by byte: the tag 1, eight bytes of length, the dimension, the tag of the kind, and the value. */
  lemma KeyLayout(c: Cohort)
    ensures var key, d := Key(c), |c.dimension|;
            && |key| >= 10 + d && key[0] == 1 && key[1..9] == U64(d) && key[9..9 + d] == c.dimension
            && (c.value.OfUuid? ==> key[9 + d] == 0 && key[10 + d..] == c.value.id)
            && (c.value.OfText? ==> key[9 + d] == 1 && key[10 + d..] == U64(|c.value.text|) + c.value.text)
            && (c.value.OfBool? ==> key[9 + d] == 2 && key[10 + d..] == [if c.value.flag then 1 else 0])
            && (c.value.OfInt? ==> key[9 + d] == 3 && key[10 + d..] == U64(Unsigned(c.value.value)))
  {
    var key, d, value := Key(c), |c.dimension|, ValueBytes(c.value);
    assert key == [1] + (U64(d) + (c.dimension + value));
    assert key[9 + d..] == value;
    assert value[1..] == key[10 + d..];
  }

  /** Over every dimension and all four kinds of value: one key, one cohort. */
  lemma KeysAreInjective(a: Cohort, b: Cohort)
    ensures Key(a) == Key(b) <==> a == b
  {
    KeyRoundTrip(a);
    KeyRoundTrip(b);
  }

  /** Principal keys are told apart by their ids, and none is a declared key. */
  lemma PrincipalsAreInjective(a: Uuid, b: Uuid, c: Cohort)
    ensures Principal(a) == Principal(b) <==> a == b
    ensures Principal(a) != Key(c)
  {
    assert Principal(a)[1..] == a && Principal(b)[1..] == b;
    assert Principal(a)[0] != Key(c)[0];
  }
}
