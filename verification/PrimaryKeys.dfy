/** Primary keys, their canonical bytes and their order (crates/loams-collection/src/pk.rs). */
module PrimaryKeys {
  import opened Prelude

  /** A string key is its UTF-8 bytes. */
  datatype PrimaryKey = U64(n: nat) | Uuid(bytes: seq<Byte>) | Str(utf8: seq<Byte>)

  const TAG_U64: Byte := 1
  const TAG_UUID: Byte := 2
  const TAG_STR: Byte := 3
  const MAX_STR_PK_BYTES: nat := 512

  /** Whether some bytes are UTF-8. */
  type Utf8 = seq<Byte> -> bool

  /** A key the program can hold, of a length it accepts. */
  predicate Valid(utf8: Utf8, k: PrimaryKey) {
    match k
    case U64(n) => n <= U64_MAX
    case Uuid(bytes) => |bytes| == 16
    case Str(s) => utf8(s) && 0 < |s| <= MAX_STR_PK_BYTES
  }

  // ---- Big-endian numbers ----

  /** The last `width` bytes of `n`, most significant first. */
  function BigEndian(n: nat, width: nat): (b: seq<Byte>)
    ensures |b| == width
  {
    if width == 0 then [] else BigEndian(n / 256, width - 1) + [n % 256]
  }

  function FromBigEndian(b: seq<Byte>): (n: nat)
  {
    if b == [] then 0 else 256 * FromBigEndian(b[..|b| - 1]) + b[|b| - 1]
  }

  function Power256(width: nat): (p: nat)
    ensures p > 0
  {
    if width == 0 then 1 else 256 * Power256(width - 1)
  }

  lemma {:induction false} BigEndianRoundTrip(n: nat, width: nat)
    requires n < Power256(width)
    ensures FromBigEndian(BigEndian(n, width)) == n
  {
    if width > 0 {
      BigEndianRoundTrip(n / 256, width - 1);
      var b := BigEndian(n, width);
      assert b[..|b| - 1] == BigEndian(n / 256, width - 1);
    }
  }

  lemma {:induction false} FromBigEndianRoundTrip(b: seq<Byte>)
    ensures FromBigEndian(b) < Power256(|b|) && BigEndian(FromBigEndian(b), |b|) == b
  {
    if b != [] {
      var n := |b| - 1;
      FromBigEndianRoundTrip(b[..n]);
      var v := FromBigEndian(b);
      assert v / 256 == FromBigEndian(b[..n]) && v % 256 == b[n];
      assert b == b[..n] + [b[n]];
    }
  }

  lemma EightBytes()
    ensures Power256(8) == U64_MAX + 1
  {
    assert Power256(4) == 0x1_0000_0000;
    assert Power256(6) == 256 * (256 * Power256(4));
    assert Power256(8) == 256 * (256 * Power256(6));
  }

  // ---- canonical and from_canonical ----

  function Canonical(k: PrimaryKey): seq<Byte> {
    match k
    case U64(n) => [TAG_U64] + BigEndian(n, 8)
    case Uuid(bytes) => [TAG_UUID] + bytes
    case Str(s) => [TAG_STR] + s
  }

  function FromCanonical(utf8: Utf8, bytes: seq<Byte>): Option<PrimaryKey> {
    if bytes == [] then None
    else
      var body := bytes[1..];
      var key :=
        if bytes[0] == TAG_U64 then if |body| == 8 then Some(U64(FromBigEndian(body))) else None
        else if bytes[0] == TAG_UUID then if |body| == 16 then Some(Uuid(body)) else None
        else if bytes[0] == TAG_STR then if utf8(body) then Some(Str(body)) else None
        else None;
      if key.Some? && key.value.Str? && !(0 < |key.value.utf8| <= MAX_STR_PK_BYTES) then None else key
  }

  /** Canonical bytes parse back to their key, and only they do. */
  lemma CanonicalRoundTrip(utf8: Utf8, bytes: seq<Byte>, k: PrimaryKey)
    ensures FromCanonical(utf8, bytes) == Some(k) <==> Valid(utf8, k) && bytes == Canonical(k)
  {
    hide FromCanonical, Canonical, Valid;
    if Valid(utf8, k) && bytes == Canonical(k) {
      CanonicalParses(utf8, k);
    }
    if FromCanonical(utf8, bytes) == Some(k) {
      ParsedIsCanonical(utf8, bytes, k);
    }
  }

  lemma CanonicalParses(utf8: Utf8, k: PrimaryKey)
    requires Valid(utf8, k)
    ensures FromCanonical(utf8, Canonical(k)) == Some(k)
  {
    hide BigEndian, FromBigEndian, Power256;
    EightBytes();
    match k
    case U64(n) =>
      BigEndianRoundTrip(n, 8);
      assert Canonical(k)[1..] == BigEndian(n, 8);
    case Uuid(bytes) => assert Canonical(k)[1..] == bytes;
    case Str(s) => assert Canonical(k)[1..] == s;
  }

  lemma ParsedIsCanonical(utf8: Utf8, bytes: seq<Byte>, k: PrimaryKey)
    requires FromCanonical(utf8, bytes) == Some(k)
    ensures Valid(utf8, k) && bytes == Canonical(k)
  {
    hide BigEndian, FromBigEndian, Power256;
    EightBytes();
    FromBigEndianRoundTrip(bytes[1..]);
    assert bytes == [bytes[0]] + bytes[1..];
  }

  lemma TwoBytes(n: nat)
    requires n < 0x1_0000
    ensures BigEndian(n, 8) == [0, 0, 0, 0, 0, 0, n / 256, n % 256]
  {
    assert BigEndian(0, 2) == [0, 0] && BigEndian(0, 4) == BigEndian(0, 2) + [0, 0];
    assert BigEndian(0, 6) == BigEndian(0, 4) + [0, 0];
    assert n / 256 / 256 == 0 && BigEndian(n / 256, 7) == BigEndian(0, 6) + [n / 256 % 256];
  }

  /** The canonical bytes start with a tag, 1 for a number, 2 for a UUID, 3 for a string; a number
      follows in eight bytes, the most significant first. */
  lemma CanonicalSpells(n: nat, bytes: seq<Byte>)
    requires n < 0x1_0000
    ensures Canonical(U64(n)) == [1, 0, 0, 0, 0, 0, 0, n / 256, n % 256]
    ensures Canonical(Uuid(bytes)) == [2] + bytes && Canonical(Str(bytes)) == [3] + bytes
  {
    hide BigEndian;
    TwoBytes(n);
    assert [1] + [0, 0, 0, 0, 0, 0, n / 256, n % 256] == [1, 0, 0, 0, 0, 0, 0, n / 256, n % 256];
  }

  // ---- Order ----

  /** Bytewise order. */
  predicate BytesLt(a: seq<Byte>, b: seq<Byte>) {
    b != [] && (a == [] || a[0] < b[0] || (a[0] == b[0] && BytesLt(a[1..], b[1..])))
  }

  /** The derived order: variants in tag order, then the value. */
  predicate KeyLt(a: PrimaryKey, b: PrimaryKey) {
    match (a, b)
    case (U64(m), U64(n)) => m < n
    case (Uuid(x), Uuid(y)) => BytesLt(x, y)
    case (Str(x), Str(y)) => BytesLt(x, y)
    case (U64(_), _) => true
    case (Uuid(_), Str(_)) => true
    case _ => false
  }

  lemma {:induction false} LastByteLt(a: seq<Byte>, b: seq<Byte>, x: Byte, y: Byte)
    requires |a| == |b|
    ensures BytesLt(a + [x], b + [y]) <==> BytesLt(a, b) || (a == b && x < y)
  {
    if a == [] {
      assert (a + [x])[1..] == [] && (b + [y])[1..] == [];
    } else {
      LastByteLt(a[1..], b[1..], x, y);
      assert (a + [x])[1..] == a[1..] + [x] && (b + [y])[1..] == b[1..] + [y];
      assert a == [a[0]] + a[1..] && b == [b[0]] + b[1..];
    }
  }

  /** Numbers compare like their big-endian bytes. */
  lemma {:induction false} BigEndianOrder(m: nat, n: nat, width: nat)
    requires m < Power256(width) && n < Power256(width)
    ensures BytesLt(BigEndian(m, width), BigEndian(n, width)) <==> m < n
  {
    if width > 0 {
      BigEndianOrder(m / 256, n / 256, width - 1);
      LastByteLt(BigEndian(m / 256, width - 1), BigEndian(n / 256, width - 1), m % 256, n % 256);
      BigEndianRoundTrip(m / 256, width - 1);
      BigEndianRoundTrip(n / 256, width - 1);
    }
  }

  lemma TaggedLt(s: Byte, a: seq<Byte>, t: Byte, b: seq<Byte>)
    ensures BytesLt([s] + a, [t] + b) <==> s < t || (s == t && BytesLt(a, b))
  {
    assert ([s] + a)[1..] == a && ([t] + b)[1..] == b;
  }

  /** Keys compare like their canonical bytes. */
  lemma CanonicalOrder(utf8: Utf8, a: PrimaryKey, b: PrimaryKey)
    requires Valid(utf8, a) && Valid(utf8, b)
    ensures KeyLt(a, b) <==> BytesLt(Canonical(a), Canonical(b))
  {
    EightBytes();
    TaggedLt(Canonical(a)[0], Canonical(a)[1..], Canonical(b)[0], Canonical(b)[1..]);
    assert Canonical(a) == [Canonical(a)[0]] + Canonical(a)[1..];
    assert Canonical(b) == [Canonical(b)[0]] + Canonical(b)[1..];
    if a.U64? && b.U64? {
      BigEndianOrder(a.n, b.n, 8);
      assert Canonical(a)[1..] == BigEndian(a.n, 8) && Canonical(b)[1..] == BigEndian(b.n, 8);
    }
  }
}
