/**
 * SIMPLE-TLV data objects (section 5.2.1 of ISO/IEC 7816-4:2005): a tag byte, a
 * length of one byte up to 254 or of three bytes up to 65535, and the value.
 */
module TlvSimple {
  import opened Prelude

  type byte = bv8

  const ONE_BYTE_LENGTH_MINIMUM_SIZE := 2
  const THREE_BYTE_LENGTH_MINIMUM_SIZE := 4
  const THREE_BYTE_LENGTH_INDICATOR_VALUE: byte := 0xFF

  datatype ParseResult = Succeeded | Failed

  class Tlv {
    const tag: seq<byte>
    const value: seq<byte>

    constructor (tag: byte, value: seq<byte>)
      ensures this.tag == [tag] && this.value == value
    {
      this.tag := [tag];
      this.value := value;
    }
  }

  /** The pointer through which the parser returns its result. */
  class Output {
    var tlv: Tlv?
  }

  // ---- the two encodings ----

  lemma Successor(b: byte)
    requires b as nat < 255
    ensures (b + 1) as nat == b as nat + 1
  {
  }

  /** The byte of a value, counted up so that no bits need to be taken apart. */
  function ByteOf(n: nat): (b: byte)
    requires n < 256
    ensures b as nat == n
  {
    if n == 0 then 0
    else
      var previous := ByteOf(n - 1);
      Successor(previous);
      previous + 1
  }

  lemma ByteIsItsValue(a: byte, b: byte)
    ensures a as nat == b as nat <==> a == b
  {
  }

  function EncodeShort(tag: byte, value: seq<byte>): seq<byte>
    requires |value| < 255
  {
    [tag, ByteOf(|value|)] + value
  }

  function EncodeLong(tag: byte, value: seq<byte>): seq<byte>
    requires |value| < 65536
  {
    [tag, THREE_BYTE_LENGTH_INDICATOR_VALUE, ByteOf(|value| / 256), ByteOf(|value| % 256)] + value
  }

  predicate IsEncodingOf(data: seq<byte>, tag: byte, value: seq<byte>) {
    || (|value| < 255 && data == EncodeShort(tag, value))
    || (|value| < 65536 && data == EncodeLong(tag, value))
  }

  ghost predicate IsEncoding(data: seq<byte>) {
    exists tag, value :: IsEncodingOf(data, tag, value)
  }

  // ---- what the parser finds ----

  /** The number of bytes before the value, from the length field. */
  function HeaderSize(data: seq<byte>): nat
    requires |data| >= 2
  {
    if data[1] == THREE_BYTE_LENGTH_INDICATOR_VALUE then THREE_BYTE_LENGTH_MINIMUM_SIZE
    else ONE_BYTE_LENGTH_MINIMUM_SIZE
  }

  function ValueSize(data: seq<byte>): nat
    requires |data| >= 2 && |data| >= HeaderSize(data)
  {
    if data[1] == THREE_BYTE_LENGTH_INDICATOR_VALUE then 256 * data[2] as nat + data[3] as nat
    else data[1] as nat
  }

  predicate IsWellSized(data: seq<byte>) {
    && |data| >= 2 && |data| >= HeaderSize(data)
    && |data| == HeaderSize(data) + ValueSize(data)
  }

  /** In 16 bits, a length byte shifted left by eight and or-ed with a second
      one is their big-endian number, and both bytes can be read back. */
  lemma ShiftAndOr(hi: bv16, lo: bv16)
    requires hi < 256 && lo < 256
    ensures (hi << 8) | lo == 256 * hi + lo
    ensures ((hi << 8) | lo) >> 8 == hi && ((hi << 8) | lo) & 0xFF == lo
  {
  }

  /** The integral promotion of a byte to 16 bits. */
  method Widen(b: byte) returns (w: bv16)
    ensures w as int == b as int && w < 256
  {
    w := b as bv16;
  }

  lemma NoOverflow(hi: bv16, lo: bv16)
    requires hi < 256 && lo < 256
    ensures (256 * hi + lo) as int == 256 * (hi as int) + lo as int
  {
  }

  /** The length that the parser computes in 16 bits is the big-endian number. */
  lemma TwoByteLength(hi: bv16, lo: bv16)
    requires hi < 256 && lo < 256
    ensures ((hi << 8) | lo) as int == 256 * (hi as int) + lo as int
  {
    ShiftAndOr(hi, lo);
    NoOverflow(hi, lo);
  }

  lemma IndicatorIs255(b: byte, w: bv16)
    ensures b == THREE_BYTE_LENGTH_INDICATOR_VALUE <==> b as int == 255
    ensures w == 0xFF <==> w as int == 255
  {
  }

  /** The parser's shift of the first length byte and or with the second. */
  method Combine(hi: bv16, lo: bv16) returns (length: bv16)
    requires hi < 256 && lo < 256
    ensures length as int == 256 * (hi as int) + lo as int
  {
    length := (hi << 8) | lo;
    TwoByteLength(hi, lo);
  }

  /** The length of the value, if the data has the size that its length field
      says; the computation is in 16 bits. */
  method ReadLength(data: seq<byte>) returns (result: Option<nat>)
    ensures result.Some? <==> IsWellSized(data)
    ensures result.Some? ==> result.value == ValueSize(data)
  {
    if |data| < ONE_BYTE_LENGTH_MINIMUM_SIZE {
      return None;
    }
    var length := Widen(data[1]);
    IndicatorIs255(data[1], length);
    if length == 0xFF {
      if |data| < THREE_BYTE_LENGTH_MINIMUM_SIZE {
        return None;
      }
      length := Widen(data[2]);
      var low := Widen(data[3]);
      length := Combine(length, low);
      if |data| != THREE_BYTE_LENGTH_MINIMUM_SIZE + length as int {
        return None;
      }
    } else if |data| != ONE_BYTE_LENGTH_MINIMUM_SIZE + length as int {
      return None;
    }
    return Some(length as nat);
  }

  lemma EncodingIsWellSized(data: seq<byte>, tag: byte, value: seq<byte>)
    requires IsEncodingOf(data, tag, value)
    ensures IsWellSized(data) && data[0] == tag && data[HeaderSize(data)..] == value
  {
    if |value| < 255 && data == EncodeShort(tag, value) {
      assert data[2..] == value;
    } else {
      assert data[4..] == value && 256 * (|value| / 256) + |value| % 256 == |value|;
    }
  }

  lemma DivideBack(hi: nat, lo: nat)
    requires hi < 256 && lo < 256
    ensures (256 * hi + lo) / 256 == hi && (256 * hi + lo) % 256 == lo && 256 * hi + lo < 65536
  {
  }

  lemma ByteRange(b: byte)
    ensures b as nat < 256
  {
  }

  lemma ByteIs(b: byte, n: nat)
    requires b as nat == n
    ensures n < 256 && b == ByteOf(n)
  {
    ByteRange(b);
    ByteIsItsValue(b, ByteOf(n));
  }

  lemma DigitValues(hi: byte, lo: byte, n: nat)
    requires n == 256 * (hi as nat) + lo as nat
    ensures n < 65536 && n / 256 == hi as nat && n % 256 == lo as nat
  {
    ByteRange(hi);
    ByteRange(lo);
    DivideBack(hi as nat, lo as nat);
  }

  /** Two bytes are the digits to base 256 of the number they make. */
  lemma DigitsOf(hi: byte, lo: byte, n: nat)
    requires n == 256 * (hi as nat) + lo as nat
    ensures n < 65536 && hi == ByteOf(n / 256) && lo == ByteOf(n % 256)
  {
    DigitValues(hi, lo, n);
    ByteIs(hi, n / 256);
    ByteIs(lo, n % 256);
  }

  lemma ShortIsEncoding(data: seq<byte>, value: seq<byte>)
    requires |data| >= 2 && value == data[2..] && data[1] as nat == |value|
    requires data[1] != THREE_BYTE_LENGTH_INDICATOR_VALUE
    ensures |value| < 255 && data == EncodeShort(data[0], value)
  {
    ByteIs(data[1], |value|);
    IndicatorIs255(data[1], 0);
    assert data == [data[0], data[1]] + value;
  }

  lemma LongIsEncoding(data: seq<byte>, value: seq<byte>)
    requires |data| >= 4 && value == data[4..] && 256 * (data[2] as nat) + data[3] as nat == |value|
    requires data[1] == THREE_BYTE_LENGTH_INDICATOR_VALUE
    ensures |value| < 65536 && data == EncodeLong(data[0], value)
  {
    DigitsOf(data[2], data[3], |value|);
    assert data == [data[0], data[1], data[2], data[3]] + value;
  }

  lemma WellSizedIsEncoding(data: seq<byte>)
    requires IsWellSized(data)
    ensures IsEncodingOf(data, data[0], data[HeaderSize(data)..])
  {
    var value := data[HeaderSize(data)..];
    if data[1] == THREE_BYTE_LENGTH_INDICATOR_VALUE {
      LongIsEncoding(data, value);
    } else {
      ShortIsEncoding(data, value);
    }
  }

  /** The parser's test accepts exactly the encodings. */
  lemma ParsesIff(data: seq<byte>)
    ensures IsEncoding(data) <==> IsWellSized(data)
    ensures IsWellSized(data) ==> IsEncodingOf(data, data[0], data[HeaderSize(data)..])
  {
    if IsWellSized(data) {
      WellSizedIsEncoding(data);
    }
    if IsEncoding(data) {
      var tag, value :| IsEncodingOf(data, tag, value);
      EncodingIsWellSized(data, tag, value);
    }
  }

  /** Parsing succeeds exactly on the encodings, and returns the encoded tag and
      value through the pointer; otherwise the pointer is cleared. */
  method Parse(tlvOutput: Output?, data: seq<byte>) returns (parseResult: ParseResult)
    modifies if tlvOutput == null then {} else {tlvOutput}
    ensures tlvOutput == null ==> parseResult == Failed
    ensures tlvOutput != null ==> (parseResult == Succeeded <==> IsEncoding(data))
    ensures parseResult == Succeeded ==>
              && tlvOutput != null && tlvOutput.tlv != null && fresh(tlvOutput.tlv)
              && |tlvOutput.tlv.tag| == 1
              && IsEncodingOf(data, tlvOutput.tlv.tag[0], tlvOutput.tlv.value)
    ensures parseResult == Failed && tlvOutput != null ==> tlvOutput.tlv == null
  {
    parseResult := Failed;
    if tlvOutput == null {
      return;
    }
    tlvOutput.tlv := null;
    ParsesIff(data);
    var length := ReadLength(data);
    if length.None? {
      return;
    }
    var value := data[|data| - length.value..];
    parseResult := Succeeded;
    tlvOutput.tlv := new Tlv(data[0], value);
  }

  /** Round trip: an encoding, short or long, determines the tag and the value,
      and is well sized, so `Parse` returns them. */
  lemma EncodingIsUnique(data: seq<byte>, tag: byte, value: seq<byte>, tag': byte, value': seq<byte>)
    requires IsEncodingOf(data, tag, value) && IsEncodingOf(data, tag', value')
    ensures tag == tag' && value == value'
  {
    EncodingIsWellSized(data, tag, value);
    EncodingIsWellSized(data, tag', value');
  }

  lemma SizeIsInTheHeader(a: seq<byte>, b: seq<byte>)
    requires IsWellSized(a) && IsWellSized(b) && a <= b
    ensures |a| == |b|
  {
    assert a[1] == b[1];
    if a[1] == THREE_BYTE_LENGTH_INDICATOR_VALUE {
      assert a[2] == b[2] && a[3] == b[3];
    }
  }

  /** No encoding is a proper prefix of another one. */
  lemma PrefixFree(a: seq<byte>, b: seq<byte>)
    requires IsEncoding(a) && IsEncoding(b) && a <= b
    ensures a == b
  {
    assert |a| == |b| by {
      ParsesIff(a);
      ParsesIff(b);
      SizeIsInTheHeader(a, b);
    }
    assert a == b[..|a|];
  }

  function Concat(blobs: seq<seq<byte>>): seq<byte> {
    if blobs == [] then [] else blobs[0] + Concat(blobs[1..])
  }

  lemma EmptyConcat(a: seq<seq<byte>>)
    requires forall x :: x in a ==> IsEncoding(x)
    ensures Concat(a) == [] <==> a == []
  {
    if a != [] {
      ParsesIff(a[0]);
      assert |a[0]| >= 2;
    }
  }

  /** A concatenation of encodings splits back into encodings in one way only. */
  lemma {:induction false} ConcatIsInjective(a: seq<seq<byte>>, b: seq<seq<byte>>)
    requires forall x :: x in a ==> IsEncoding(x)
    requires forall x :: x in b ==> IsEncoding(x)
    requires Concat(a) == Concat(b)
    ensures a == b
  {
    if a == [] || b == [] {
      EmptyConcat(a);
      EmptyConcat(b);
    } else {
      var all := Concat(a);
      assert a[0] == all[..|a[0]|] && b[0] == all[..|b[0]|];
      if |a[0]| <= |b[0]| {
        PrefixFree(a[0], b[0]);
      } else {
        PrefixFree(b[0], a[0]);
      }
      assert Concat(a[1..]) == all[|a[0]|..] == Concat(b[1..]);
      ConcatIsInjective(a[1..], b[1..]);
      assert a == [a[0]] + a[1..] && b == [b[0]] + b[1..];
    }
  }
}
