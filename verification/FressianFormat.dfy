/**
 The Fressian wire format as the reader sees it: bytes, values, the code table, and
 big-endian integers. Strings, doubles and floats are carried as their encoded bytes.
 */
module FressianFormat {

  type Byte = n: int | 0 <= n < 256

  /** What the reader can return, plus the placeholder it parks in the priority cache. */
  datatype Value =
    | Null
    | Bool(b: bool)
    | Int(n: int)
    | Double(bits: seq<Byte>)
    | Float(bits: seq<Byte>)
    | Bytes(bytes: seq<Byte>)
    | Str(utf8: seq<Byte>)
    | Vector(items: seq<Value>)
    | Tagged(tag: Value, fields: seq<Value>)
    | UnderConstruction

  datatype StructType = StructType(tag: Value, fields: int)

  /** A value that mentions the placeholder nowhere. */
  predicate Clean(v: Value) {
    match v
    case UnderConstruction => false
    case Vector(items) => forall i :: 0 <= i < |items| ==> Clean(items[i])
    case Tagged(tag, fields) => Clean(tag) && forall i :: 0 <= i < |fields| ==> Clean(fields[i])
    case _ => true
  }

  /** The value at the end of a path through tags, fields and items; null where there is none. */
  function At(v: Value, path: seq<nat>): Value
    decreases |path|
  {
    if path == [] then v
    else
      match v
      case Vector(items) => if path[0] < |items| then At(items[path[0]], path[1..]) else Null
      case Tagged(tag, fields) =>
        if path[0] == 0 then At(tag, path[1..])
        else if path[0] <= |fields| then At(fields[path[0] - 1], path[1..])
        else Null
      case _ => Null
  }

  /** In a clean value no path leads to the placeholder. */
  lemma {:induction false} CleanHidesNothing(v: Value, path: seq<nat>)
    requires Clean(v)
    ensures At(v, path) != UnderConstruction
    decreases |path|
  {
    if path != [] {
      match v
      case Vector(items) => if path[0] < |items| { CleanHidesNothing(items[path[0]], path[1..]); }
      case Tagged(tag, fields) =>
        if path[0] == 0 {
          CleanHidesNothing(tag, path[1..]);
        } else if path[0] <= |fields| {
          CleanHidesNothing(fields[path[0] - 1], path[1..]);
        }
      case _ =>
    }
  }

  // ---------------------------------------------------------------- codes

  const PRIORITY_CACHE_PACKED_START: Byte := 0x80
  const STRUCT_CACHE_PACKED_START: Byte := 0xA0
  const GET_PRIORITY_CACHE: Byte := 0xCC
  const PUT_PRIORITY_CACHE: Byte := 0xCD
  const FOOTER: Byte := 0xCF
  const BYTES_PACKED_LENGTH_START: Byte := 0xD0
  const BYTES_CHUNK: Byte := 0xD8
  const BYTES: Byte := 0xD9
  const STRING_PACKED_LENGTH_START: Byte := 0xDA
  const STRING_CHUNK: Byte := 0xE2
  const STRING: Byte := 0xE3
  const LIST_PACKED_LENGTH_START: Byte := 0xE4
  const LIST: Byte := 0xEC
  const BEGIN_CLOSED_LIST: Byte := 0xED
  const BEGIN_OPEN_LIST: Byte := 0xEE
  const STRUCTTYPE: Byte := 0xEF
  const STRUCT: Byte := 0xF0
  const TRUE: Byte := 0xF5
  const FALSE: Byte := 0xF6
  const NULL: Byte := 0xF7
  const INT: Byte := 0xF8
  const FLOAT: Byte := 0xF9
  const DOUBLE: Byte := 0xFA
  const DOUBLE_0: Byte := 0xFB
  const DOUBLE_1: Byte := 0xFC
  const END_COLLECTION: Byte := 0xFD
  const RESET_CACHES: Byte := 0xFE

  /** The 24 bits of FOOTER_MAGIC that follow the FOOTER code itself. */
  const FOOTER_MAGIC_TAIL := 0xCFCFCF

  /** One constructor per arm of the reader's switch. */
  datatype Kind =
    | KInt(n: int)
    | KPackedInt(high: int, width: nat)
    | KInt64
    | KNull
    | KBool(b: bool)
    | KDouble
    | KDoubleConst(bits: seq<Byte>)
    | KFloat
    | KBlob(text: bool, length: nat)
    | KCountedBlob(text: bool)
    | KChunkedBlob(text: bool)
    | KList(length: nat)
    | KCountedList
    | KDelimitedList(open: bool)
    | KPut
    | KGet
    | KGetPacked(index: nat)
    | KStructType
    | KStruct
    | KStructPacked(index: nat)
    | KPredefined(name: string, fields: nat)
    | KFooter
    | KReset
    | KUnexpected

  const ZERO_BITS: seq<Byte> := [0, 0, 0, 0, 0, 0, 0, 0]
  const ONE_BITS: seq<Byte> := [0x3F, 0xF0, 0, 0, 0, 0, 0, 0]

  function Classify(code: Byte): Kind {
    if code < 0x80 then ClassifyInt(code)
    else if code < 0xA0 then KGetPacked(code - PRIORITY_CACHE_PACKED_START)
    else if code < 0xB0 then KStructPacked(code - STRUCT_CACHE_PACKED_START)
    else if code < 0xCC then ClassifyPredefined(code)
    else if code == GET_PRIORITY_CACHE then KGet
    else if code == PUT_PRIORITY_CACHE then KPut
    else if code == 0xCE then KUnexpected
    else if code == FOOTER then KFooter
    else if code < BYTES_CHUNK then KBlob(false, code - BYTES_PACKED_LENGTH_START)
    else if code == BYTES_CHUNK then KChunkedBlob(false)
    else if code == BYTES then KCountedBlob(false)
    else if code < STRING_CHUNK then KBlob(true, code - STRING_PACKED_LENGTH_START)
    else if code == STRING_CHUNK then KChunkedBlob(true)
    else if code == STRING then KCountedBlob(true)
    else if code < LIST then KList(code - LIST_PACKED_LENGTH_START)
    else if code == LIST then KCountedList
    else if code == BEGIN_CLOSED_LIST then KDelimitedList(false)
    else if code == BEGIN_OPEN_LIST then KDelimitedList(true)
    else if code == STRUCTTYPE then KStructType
    else if code == STRUCT then KStruct
    else if code < TRUE then KUnexpected
    else ClassifyScalar(code)
  }

  /** The packed integer ranges; each ZERO code is the midpoint of its range. */
  function ClassifyInt(code: Byte): Kind
    requires code < 0x80
  {
    if code < 0x40 then KInt(code)
    else if code < 0x60 then KPackedInt(code - 0x50, 1)
    else if code < 0x70 then KPackedInt(code - 0x68, 2)
    else if code < 0x74 then KPackedInt(code - 0x72, 3)
    else if code < 0x78 then KPackedInt(code - 0x76, 4)
    else if code < 0x7C then KPackedInt(code - 0x7A, 5)
    else KPackedInt(code - 0x7E, 6)
  }

  function ClassifyScalar(code: Byte): Kind
    requires TRUE <= code
  {
    if code == TRUE then KBool(true)
    else if code == FALSE then KBool(false)
    else if code == NULL then KNull
    else if code == INT then KInt64
    else if code == FLOAT then KFloat
    else if code == DOUBLE then KDouble
    else if code == DOUBLE_0 then KDoubleConst(ZERO_BITS)
    else if code == DOUBLE_1 then KDoubleConst(ONE_BITS)
    else if code == RESET_CACHES then KReset
    else if code == 0xFF then KInt(-1)
    else KUnexpected
  }

  /** Struct types with a code of their own. */
  function ClassifyPredefined(code: Byte): Kind {
    match code
    case 0xB0 => KPredefined("long[]", 2)
    case 0xB1 => KPredefined("double[]", 2)
    case 0xB2 => KPredefined("boolean[]", 2)
    case 0xB3 => KPredefined("int[]", 2)
    case 0xB4 => KPredefined("float[]", 2)
    case 0xB5 => KPredefined("Object[]", 2)
    case 0xC0 => KPredefined("map", 1)
    case 0xC1 => KPredefined("set", 1)
    case 0xC3 => KPredefined("uuid", 2)
    case 0xC4 => KPredefined("regex", 1)
    case 0xC5 => KPredefined("uri", 1)
    case 0xC6 => KPredefined("bigint", 1)
    case 0xC7 => KPredefined("bigdec", 2)
    case 0xC8 => KPredefined("inst", 1)
    case 0xC9 => KPredefined("sym", 2)
    case 0xCA => KPredefined("key", 2)
    case _ => KUnexpected
  }

  /** The encoded bytes of an ASCII name. */
  function Ascii(name: string): (bs: seq<Byte>)
    ensures |bs| == |name|
  {
    if name == "" then [] else [name[0] as int % 256] + Ascii(name[1..])
  }

  /** One byte per character, the character's own number. */
  lemma {:induction false} AsciiIs(name: string, i: nat)
    requires i < |name| && name[i] as int < 256
    ensures Ascii(name)[i] == name[i] as int
  {
    if i > 0 {
      AsciiIs(name[1..], i - 1);
    }
  }

  // ---------------------------------------------------------------- big-endian integers

  function Pow256(w: nat): (p: nat)
    ensures p >= 1
  {
    if w == 0 then 1 else 256 * Pow256(w - 1)
  }

  function FromBigEndian(bs: seq<Byte>): (n: nat) {
    if bs == [] then 0 else FromBigEndian(bs[..|bs| - 1]) * 256 + bs[|bs| - 1]
  }

  function ToBigEndian(n: nat, w: nat): (bs: seq<Byte>)
    ensures |bs| == w
  {
    if w == 0 then [] else ToBigEndian(n / 256, w - 1) + [n % 256]
  }

  lemma {:induction false} BigEndianRoundTrip(n: nat, w: nat)
    requires n < Pow256(w)
    ensures FromBigEndian(ToBigEndian(n, w)) == n
  {
    if w > 0 {
      BigEndianRoundTrip(n / 256, w - 1);
      var bs := ToBigEndian(n, w);
      assert bs[..|bs| - 1] == ToBigEndian(n / 256, w - 1);
    }
  }

  lemma {:induction false} BigEndianInverse(bs: seq<Byte>)
    ensures ToBigEndian(FromBigEndian(bs), |bs|) == bs && FromBigEndian(bs) < Pow256(|bs|)
  {
    if bs != [] {
      var most, last := bs[..|bs| - 1], bs[|bs| - 1];
      BigEndianInverse(most);
      assert FromBigEndian(bs) / 256 == FromBigEndian(most) && FromBigEndian(bs) % 256 == last;
      assert bs == most + [last];
    }
  }

  lemma Scale(x: nat, p: nat)
    ensures (x * p) * 256 == x * (256 * p)
  {
  }

  /** Big-endian: what comes first weighs more. */
  lemma {:induction false} BigEndianConcat(a: seq<Byte>, b: seq<Byte>)
    ensures FromBigEndian(a + b) == FromBigEndian(a) * Pow256(|b|) + FromBigEndian(b)
    ensures |b| == 1 ==> FromBigEndian(b) == b[0]
    decreases |b|
  {
    if b == [] {
      assert a + b == a;
    } else {
      var most, last := b[..|b| - 1], b[|b| - 1];
      BigEndianConcat(a, most);
      assert (a + b)[..|a + b| - 1] == a + most;
      assert FromBigEndian(a + b) == FromBigEndian(a + most) * 256 + last;
      Scale(FromBigEndian(a), Pow256(|most|));
    }
  }

  lemma Pow256Values()
    ensures Pow256(1) == 0x100
    ensures Pow256(2) == 0x1_0000
    ensures Pow256(3) == 0x100_0000
    ensures Pow256(4) == 0x1_0000_0000
    ensures Pow256(5) == 0x100_0000_0000
    ensures Pow256(6) == 0x1_0000_0000_0000
    ensures Pow256(8) == 0x1_0000_0000_0000_0000
  {
    assert Pow256(0) == 1;
    assert Pow256(1) == 0x100;
    assert Pow256(2) == 0x1_0000;
    assert Pow256(3) == 0x100_0000;
    assert Pow256(4) == 0x1_0000_0000;
    assert Pow256(5) == 0x100_0000_0000;
    assert Pow256(6) == 0x1_0000_0000_0000;
    assert Pow256(7) == 0x100_0000_0000_0000;
  }

  /** The 64-bit two's complement reading of an unsigned 64-bit number. */
  function Signed64(n: nat): int {
    if n < 0x8000_0000_0000_0000 then n else n - 0x1_0000_0000_0000_0000
  }

  predicate IsInt64(n: int) {
    -0x8000_0000_0000_0000 <= n < 0x8000_0000_0000_0000
  }

  predicate IsInt32(n: int) {
    -0x8000_0000 <= n < 0x8000_0000
  }
}
