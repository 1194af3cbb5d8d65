/** Tag values as a type tag and little-endian bytes, and back. */
module VariantCodec {
  import opened Options
  import opened Facts
  import IrspValues

  /** 256 to the power of `w`: how many values `w` bytes can hold. */
  function Span(w: nat): (n: nat)
    ensures n >= 1
  {
    if w == 0 then 1 else 256 * Span(w - 1)
  }

  predicate FitsSigned(x: int, w: nat) {
    0 <= 2 * x + Span(w) && 2 * x < Span(w)
  }

  predicate FitsUnsigned(x: int, w: nat) {
    0 <= x < Span(w)
  }

  /** Floating-point numbers are their bit patterns. */
  datatype Variant =
    | Null
    | Bool(b: bool)
    | Signed(width: nat, i: int)    // width in bytes: 1, 2, 4 or 8
    | Unsigned(width: nat, u: int)  // likewise
    | Float(width: nat, bits: int)  // 4 or 8
    | Text(s: string)

  predicate IsWidth(w: nat) {
    w == 1 || w == 2 || w == 4 || w == 8
  }

  /** The alternatives the program's variant has, each within its range. */
  predicate IsVariant(v: Variant) {
    match v
    case Signed(w, i) => IsWidth(w) && FitsSigned(i, w)
    case Unsigned(w, u) => IsWidth(w) && FitsUnsigned(u, w)
    case Float(w, bits) => (w == 4 || w == 8) && FitsUnsigned(bits, w)
    case _ => true
  }

  // ---- Bytes ----

  function ByteOf(c: char): (b: int)
    ensures 0 <= b < 256
  {
    c as int % 256
  }

  function CharOf(b: int): char
    requires 0 <= b < 256
  {
    b as char
  }

  predicate IsBytes(s: string) {
    forall i :: 0 <= i < |s| ==> s[i] as int < 256
  }

  /** The `w` low bytes of a number, lowest first. */
  function ToLE(n: nat, w: nat): (s: string)
    ensures |s| == w
  {
    if w == 0 then [] else [CharOf(n % 256)] + ToLE(n / 256, w - 1)
  }

  function FromLE(s: string): nat {
    if s == [] then 0 else ByteOf(s[0]) + 256 * FromLE(s[1..])
  }

  lemma {:induction false} LERoundTrip(n: nat, w: nat)
    requires n < Span(w)
    ensures FromLE(ToLE(n, w)) == n
  {
    if w > 0 {
      LERoundTrip(n / 256, w - 1);
      assert ToLE(n, w)[1..] == ToLE(n / 256, w - 1);
    }
  }

  lemma {:induction false} LEInRange(s: string)
    ensures FromLE(s) < Span(|s|)
  {
    if s != [] {
      LEInRange(s[1..]);
    }
  }

  lemma {:induction false} LECanonical(s: string)
    requires IsBytes(s)
    ensures ToLE(FromLE(s), |s|) == s
  {
    if s != [] {
      LECanonical(s[1..]);
      assert FromLE(s) / 256 == FromLE(s[1..]) && FromLE(s) % 256 == ByteOf(s[0]);
    }
  }

  /** Two's complement in `w` bytes. */
  function Complement(x: int, w: nat): (n: nat)
    requires FitsSigned(x, w)
    ensures n < Span(w)
  {
    if x < 0 then x + Span(w) else x
  }

  function FromComplement(n: nat, w: nat): (x: int)
    requires n < Span(w)
    ensures FitsSigned(x, w)
  {
    if 2 * n < Span(w) then n else n - Span(w)
  }

  // ---- Type tags ----

  function SignedTag(w: nat): string {
    if w == 1 then "i8" else if w == 2 then "i16" else if w == 4 then "i32" else "i64"
  }

  function UnsignedTag(w: nat): string {
    if w == 1 then "u8" else if w == 2 then "u16" else if w == 4 then "u32" else "u64"
  }

  function EncodeVariant(v: Variant): (string, string)
    requires IsVariant(v)
  {
    match v
    case Null => ("null", "")
    case Bool(b) => ("bool", [CharOf(if b then 1 else 0)])
    case Signed(w, i) => (SignedTag(w), ToLE(Complement(i, w), w))
    case Unsigned(w, u) => (UnsignedTag(w), ToLE(u, w))
    case Float(w, bits) => (if w == 4 then "f32" else "f64", ToLE(bits, w))
    case Text(s) => ("str", s)
  }

  function ReadSigned(b: string, w: nat): (r: Option<Variant>)
    ensures r.Some? ==> (IsWidth(w) ==> IsVariant(r.value))
  {
    if |b| < w then None
    else
      LEInRange(b[..w]);
      Some(Signed(w, FromComplement(FromLE(b[..w]), w)))
  }

  function ReadUnsigned(b: string, w: nat): (r: Option<Variant>)
    ensures r.Some? ==> (IsWidth(w) ==> IsVariant(r.value))
  {
    if |b| < w then None
    else
      LEInRange(b[..w]);
      Some(Unsigned(w, FromLE(b[..w])))
  }

  function ReadFloat(b: string, w: nat): (r: Option<Variant>)
    ensures r.Some? ==> (w == 4 || w == 8 ==> IsVariant(r.value))
  {
    if |b| < w then None
    else
      LEInRange(b[..w]);
      Some(Float(w, FromLE(b[..w])))
  }

  /** A type tag with bytes as a value; None for an unknown tag or too few bytes. */
  function ToVariant(tag: string, b: string): (r: Option<Variant>)
    ensures r.Some? ==> IsVariant(r.value)
  {
    if tag == "null" then Some(Null)
    else if tag == "bool" then Some(Bool(b != [] && ByteOf(b[0]) != 0))
    else if tag == "i8" then ReadSigned(b, 1)
    else if tag == "i16" then ReadSigned(b, 2)
    else if tag == "i32" then ReadSigned(b, 4)
    else if tag == "i64" then ReadSigned(b, 8)
    else if tag == "u8" then ReadUnsigned(b, 1)
    else if tag == "u16" then ReadUnsigned(b, 2)
    else if tag == "u32" then ReadUnsigned(b, 4)
    else if tag == "u64" then ReadUnsigned(b, 8)
    else if tag == "f32" then ReadFloat(b, 4)
    else if tag == "f64" then ReadFloat(b, 8)
    else if tag == "str" then Some(Text(b))
    else None
  }

  /** Width of a tag's bytes; None where the bytes are not of one width. */
  function WidthOf(tag: string): Option<nat> {
    if tag == "i8" || tag == "u8" then Some(1)
    else if tag == "i16" || tag == "u16" then Some(2)
    else if tag == "i32" || tag == "u32" || tag == "f32" then Some(4)
    else if tag == "i64" || tag == "u64" || tag == "f64" then Some(8)
    else None
  }

  lemma TagsRead(w: nat, b: string)
    requires IsWidth(w)
    ensures ToVariant(SignedTag(w), b) == ReadSigned(b, w) && ToVariant(UnsignedTag(w), b) == ReadUnsigned(b, w)
    ensures w >= 4 ==> ToVariant(if w == 4 then "f32" else "f64", b) == ReadFloat(b, w)
  {}

  lemma SignedBack(w: nat, i: int, rest: string)
    requires IsWidth(w) && FitsSigned(i, w)
    ensures ReadSigned(ToLE(Complement(i, w), w) + rest, w) == Some(Signed(w, i))
  {
    var b := ToLE(Complement(i, w), w);
    LERoundTrip(Complement(i, w), w);
    assert (b + rest)[..w] == b;
  }

  lemma UnsignedBack(w: nat, u: int, rest: string)
    requires IsWidth(w) && FitsUnsigned(u, w)
    ensures ReadUnsigned(ToLE(u, w) + rest, w) == Some(Unsigned(w, u))
    ensures ReadFloat(ToLE(u, w) + rest, w) == Some(Float(w, u))
  {
    LERoundTrip(u, w);
    assert (ToLE(u, w) + rest)[..w] == ToLE(u, w);
  }

  /** Every value survives encoding, with anything after its bytes unless it is a text. */
  lemma VariantRoundTrip(v: Variant, rest: string)
    requires IsVariant(v) && (v.Text? ==> rest == [])
    ensures ToVariant(EncodeVariant(v).0, EncodeVariant(v).1 + rest) == Some(v)
  {
    var b := EncodeVariant(v).1;
    match v
    case Signed(w, i) =>
      SignedBack(w, i, rest);
      TagsRead(w, b + rest);
    case Unsigned(w, u) =>
      UnsignedBack(w, u, rest);
      TagsRead(w, b + rest);
    case Float(w, bits) =>
      UnsignedBack(w, bits, rest);
      TagsRead(w, b + rest);
    case Bool(_) => assert (b + rest)[0] == b[0];
    case Text(s) => assert b + rest == s;
    case Null =>
  }

  /** A fixed-width tag is read exactly when there are enough bytes, from the first of them only, and
      writing what was read gives these bytes back. */
  lemma FixedWidth(tag: string, b: string)
    requires WidthOf(tag).Some? && IsBytes(b)
    ensures var w := WidthOf(tag).value;
      && (ToVariant(tag, b).Some? <==> |b| >= w)
      && (|b| >= w ==> ToVariant(tag, b) == ToVariant(tag, b[..w])
                       && EncodeVariant(ToVariant(tag, b).value) == (tag, b[..w]))
  {
    var w := WidthOf(tag).value;
    TagsRead(w, b);
    if |b| >= w {
      TagsRead(w, b[..w]);
      FixedReads(w, b);
    }
  }

  /** Reading `w` bytes and writing them back. */
  lemma FixedReads(w: nat, b: string)
    requires IsWidth(w) && IsBytes(b) && |b| >= w
    ensures ReadSigned(b, w) == ReadSigned(b[..w], w) && ReadUnsigned(b, w) == ReadUnsigned(b[..w], w)
    ensures ReadFloat(b, w) == ReadFloat(b[..w], w)
    ensures ReadSigned(b, w).value.Signed? && ToLE(Complement(ReadSigned(b, w).value.i, w), w) == b[..w]
    ensures ToLE(ReadUnsigned(b, w).value.u, w) == b[..w] && ToLE(ReadFloat(b, w).value.bits, w) == b[..w]
  {
    assert b[..w][..w] == b[..w] && IsBytes(b[..w]);
    LECanonical(b[..w]);
    LEInRange(b[..w]);
  }

  /** Equal encodings come from equal values: no two values share tag and bytes. */
  lemma EncodingsDiffer(v: Variant, u: Variant)
    requires IsVariant(v) && IsVariant(u) && EncodeVariant(v) == EncodeVariant(u)
    ensures v == u
  {
    VariantRoundTrip(v, []);
    VariantRoundTrip(u, []);
    assert EncodeVariant(v).1 + [] == EncodeVariant(v).1 && EncodeVariant(u).1 + [] == EncodeVariant(u).1;
  }

  // ---- The bytes, one by one ----

  /** The k-th byte of a number counts 256 to the power of k. */
  lemma {:induction false} ByteAt(n: nat, w: nat, k: nat)
    requires k < w
    ensures ByteOf(ToLE(n, w)[k]) == n / Span(k) % 256
  {
    if k > 0 {
      ByteAt(n / 256, w - 1, k - 1);
      DivideTwice(n, 256, Span(k - 1));
    }
  }

  lemma {:induction false} ByteRead(s: string, k: nat)
    requires k < |s|
    ensures FromLE(s) / Span(k) % 256 == ByteOf(s[k])
  {
    if k > 0 {
      ByteRead(s[1..], k - 1);
      DivideTwice(FromLE(s), 256, Span(k - 1));
      assert FromLE(s) / 256 == FromLE(s[1..]);
    }
  }

  /** A number's two's complement is its remainder. */
  lemma ComplementIs(i: int, w: nat)
    requires FitsSigned(i, w)
    ensures Complement(i, w) == i % Span(w)
  {
    Quotient(i, Span(w), if i < 0 then -1 else 0, Complement(i, w));
  }

  lemma FromComplementIs(n: nat, w: nat)
    requires n < Span(w)
    ensures FromComplement(n, w) % Span(w) == n
  {
    ComplementIs(FromComplement(n, w), w);
  }

  /** The width of a number in bytes, and its bits as a number: negative ones in two's complement. */
  function Bits(v: Variant): (nat, int)
    requires IsVariant(v)
  {
    match v
    case Signed(w, i) => (w, i % Span(w))
    case Unsigned(w, u) => (w, u)
    case Float(w, bits) => (w, bits)
    case _ => (0, 0)
  }

  /** A number is written in as many bytes as it is wide, byte k counting 256 to the power of k. */
  lemma EncodedBytes(v: Variant, k: nat)
    requires IsVariant(v) && k < Bits(v).0
    ensures var bytes := EncodeVariant(v).1;
      |bytes| == Bits(v).0 && IsBytes(bytes) && bytes[k] as int == Bits(v).1 / Span(k) % 256
  {
    var w, n := Bits(v).0, Bits(v).1;
    EncodedAs(v);
    ByteAt(n, w, k);
    OnlyBytes(n, w);
    assert ByteOf(ToLE(n, w)[k]) == ToLE(n, w)[k] as int;
  }

  lemma EncodedAs(v: Variant)
    requires IsVariant(v) && Bits(v).0 > 0
    ensures Bits(v).1 >= 0 && EncodeVariant(v).1 == ToLE(Bits(v).1, Bits(v).0)
  {
    if v.Signed? {
      ComplementIs(v.i, v.width);
    }
  }

  lemma {:induction false} OnlyBytes(n: nat, w: nat)
    ensures IsBytes(ToLE(n, w))
  {
    if w > 0 {
      OnlyBytes(n / 256, w - 1);
    }
  }

  /** And read so, from the first bytes. */
  lemma DecodedBytes(tag: string, b: string, k: nat)
    requires WidthOf(tag).Some? && |b| >= WidthOf(tag).value > k
    ensures var r := ToVariant(tag, b);
      r.Some? && Bits(r.value).0 == WidthOf(tag).value && Bits(r.value).1 / Span(k) % 256 == ByteOf(b[k])
  {
    var w := WidthOf(tag).value;
    TagsRead(w, b);
    LEInRange(b[..w]);
    ByteRead(b[..w], k);
    FromComplementIs(FromLE(b[..w]), w);
  }

  /** A truth value is one byte, 1 or 0, and read as true exactly from a first byte other than 0; a text is
      its own bytes; nothing has none. */
  lemma OtherBytes(v: Variant, b: string)
    requires IsVariant(v) && Bits(v).0 == 0
    ensures var bytes := EncodeVariant(v).1;
      match v
      case Bool(t) => |bytes| == 1 && bytes[0] as int == (if t then 1 else 0)
      case Text(s) => bytes == s
      case _ => bytes == []
    ensures ToVariant("bool", b) == Some(Bool(b != [] && b[0] as int % 256 != 0)) && ToVariant("str", b) == Some(Text(b))
  {
  }

  /** A number's tag is the letter of its kind and its width in bits. */
  lemma TagNames(v: Variant)
    requires IsVariant(v)
    ensures var tag := EncodeVariant(v).0;
      match v
      case Signed(w, _) => tag == "i" + IrspValues.Decimal(8 * w)
      case Unsigned(w, _) => tag == "u" + IrspValues.Decimal(8 * w)
      case Float(w, _) => tag == "f" + IrspValues.Decimal(8 * w)
      case Null => tag == "null"
      case Bool(_) => tag == "bool"
      case Text(_) => tag == "str"
  {
    assert IrspValues.Decimal(16) == IrspValues.Decimal(1) + [IrspValues.Digit(6)] && IrspValues.Decimal(32) == IrspValues.Decimal(3) + [IrspValues.Digit(2)];
    assert IrspValues.Decimal(64) == IrspValues.Decimal(6) + [IrspValues.Digit(4)];
  }
}
