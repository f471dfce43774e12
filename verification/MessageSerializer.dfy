/**
 The aggregated wire format: little-endian, length-prefixed messages behind a
 16-byte header, and the decoder the integration test client runs.
 */
module Serializing {
  import opened Common

  datatype WireMessage = WireMessage(topic: seq<Byte>, timestamp: U64, data: seq<Byte>)

  const FRAME_MAGIC := 0x42524A50
  const HEADER_SIZE := 16

  // ----------------------------------------------------------- little-endian

  /** The low `width` bytes of a value, least significant first. */
  function LittleEndian(value: nat, width: nat): (bytes: seq<Byte>)
    ensures |bytes| == width
  {
    if width == 0 then [] else [value % 256] + LittleEndian(value / 256, width - 1)
  }

  function FromLittleEndian(bytes: seq<Byte>): nat {
    if bytes == [] then 0 else bytes[0] + 256 * FromLittleEndian(bytes[1..])
  }

  function Power256(width: nat): (p: nat)
    ensures p > 0
  {
    if width == 0 then 1 else 256 * Power256(width - 1)
  }

  lemma Widths()
    ensures Power256(2) == TWO16 && Power256(4) == TWO32 && Power256(8) == TWO64
  {
    assert Power256(1) == 256 && Power256(3) == 0x100_0000;
    assert Power256(5) == 0x100_0000_0000 && Power256(6) == 0x1_0000_0000_0000 && Power256(7) == 0x100_0000_0000_0000;
  }

  /** Reading back keeps the value modulo what fits in the field. */
  lemma {:induction false} LittleEndianReads(value: nat, width: nat)
    requires value < Power256(width)
    ensures FromLittleEndian(LittleEndian(value, width)) == value
  {
    if width > 0 {
      LittleEndianReads(value / 256, width - 1);
      var bytes := LittleEndian(value, width);
      assert bytes[1..] == LittleEndian(value / 256, width - 1);
    }
  }

  lemma {:induction false} FromLittleEndianBound(bytes: seq<Byte>)
    ensures FromLittleEndian(bytes) < Power256(|bytes|)
  {
    if bytes != [] {
      FromLittleEndianBound(bytes[1..]);
    }
  }

  // ---------------------------------------------------------------- encoding

  /** The casts to the 16-bit and 32-bit length fields truncate.  An oversized
      name is still written in full; oversized data is cut to the cast length. */
  function Encode(m: WireMessage): seq<Byte> {
    LittleEndian(|m.topic| % TWO16, 2) + m.topic
    + LittleEndian(m.timestamp, 8)
    + LittleEndian(|m.data| % TWO32, 4) + m.data[..|m.data| % TWO32]
  }

  function EncodeAll(ms: seq<WireMessage>): seq<Byte> {
    if ms == [] then [] else EncodeAll(ms[..|ms| - 1]) + Encode(ms[|ms| - 1])
  }

  class AggregatedMessageSerializer {
    var serializedData: seq<Byte>
    var messageCount: nat

    constructor ()
      ensures serializedData == [] && messageCount == 0
    {
      serializedData, messageCount := [], 0;
    }

    static method WriteLittleEndian(buffer: seq<Byte>, value: nat, width: nat) returns (out: seq<Byte>)
      ensures out == buffer + LittleEndian(value, width)
    {
      out := buffer;
      var rest := value;
      for i := 0 to width
        invariant out + LittleEndian(rest, width - i) == buffer + LittleEndian(value, width)
      {
        assert out + LittleEndian(rest, width - i) == out + [rest % 256] + LittleEndian(rest / 256, width - i - 1);
        out := out + [rest % 256];
        rest := rest / 256;
      }
      assert out + [] == out;
    }

    method SerializeMessage(topic: seq<Byte>, timestamp: U64, data: seq<Byte>)
      modifies this
      ensures serializedData == old(serializedData) + Encode(WireMessage(topic, timestamp, data))
      ensures messageCount == old(messageCount) + 1
    {
      messageCount := messageCount + 1;
      var size := |data| % TWO32;
      serializedData := WriteLittleEndian(serializedData, |topic| % TWO16, 2);
      serializedData := serializedData + topic;
      serializedData := WriteLittleEndian(serializedData, timestamp, 8);
      serializedData := WriteLittleEndian(serializedData, size, 4);
      serializedData := serializedData + data[..size];
      Regroup(old(serializedData), LittleEndian(|topic| % TWO16, 2), topic, LittleEndian(timestamp, 8),
              LittleEndian(size, 4), data[..size]);
    }

    method Clear()
      modifies this
      ensures serializedData == [] && messageCount == 0
    {
      serializedData, messageCount := [], 0;
    }

    /** The uncompressed 16 bytes that precede the payload. */
    method Header(flags: nat) returns (header: seq<Byte>)
      requires flags < TWO32
      ensures header == HeaderBytes(messageCount, |serializedData|, flags)
    {
      header := WriteLittleEndian([], FRAME_MAGIC, 4);
      header := WriteLittleEndian(header, messageCount % TWO32, 4);
      header := WriteLittleEndian(header, |serializedData| % TWO32, 4);
      header := WriteLittleEndian(header, flags, 4);
    }
  }

  lemma Regroup(s: seq<Byte>, a: seq<Byte>, b: seq<Byte>, c: seq<Byte>, d: seq<Byte>, e: seq<Byte>)
    ensures s + a + b + c + d + e == s + (a + b + c + d + e)
  {
  }

  function HeaderBytes(count: nat, size: nat, flags: nat): seq<Byte> {
    LittleEndian(FRAME_MAGIC, 4) + LittleEndian(count % TWO32, 4)
    + LittleEndian(size % TWO32, 4) + LittleEndian(flags, 4)
  }

  // ------------------------------------------------------------------ layout

  /** The bytes of a field, least significant first. */
  predicate LowBytes(bytes: seq<Byte>, from: nat, value: nat, width: nat) {
    && from + width <= |bytes|
    && forall i | 0 <= i < width :: bytes[from + i] == value / Power256(i) % 256
  }

  lemma {:induction false} LittleEndianBytes(value: nat, width: nat, i: nat)
    requires i < width
    ensures LittleEndian(value, width)[i] == value / Power256(i) % 256
    decreases width
  {
    if i > 0 {
      LittleEndianBytes(value / 256, width - 1, i - 1);
      DivideTwice(value, Power256(i - 1));
    }
  }

  lemma DivideTwice(value: nat, p: nat)
    requires p > 0
    ensures value / 256 / p == value / (256 * p)
  {
    var q, r := value / 256 / p, value / 256 % p;
    assert value / 256 == q * p + r;
    var low := value % 256;
    assert value == 256 * (q * p + r) + low;
    assert 256 * (q * p) == q * (256 * p);
    QuotientIs(value, 256 * p, q, 256 * r + low);
  }

  lemma QuotientIs(value: nat, d: nat, q: nat, r: nat)
    requires d > 0 && value == q * d + r && r < d
    ensures value / d == q
  {
    var q' := value / d;
    assert value == q' * d + value % d;
    if q' < q {
      ScaleUp(q' + 1, q, d);
    } else if q' > q {
      ScaleUp(q + 1, q', d);
    }
  }

  lemma ScaleUp(a: nat, b: nat, d: nat)
    requires a <= b
    ensures a * d <= b * d
  {
  }

  /** An encoded message: the length of the name modulo 2^16 in two bytes, the
      whole name, the timestamp in eight, the length of the payload modulo 2^32
      in four, and that much of the payload. */
  lemma EncodeLayout(m: WireMessage)
    ensures var n, size := |m.topic|, |m.data| % TWO32;
            && |Encode(m)| == n + 14 + size
            && LowBytes(Encode(m), 0, n % TWO16, 2)
            && Encode(m)[2..2 + n] == m.topic
            && LowBytes(Encode(m), 2 + n, m.timestamp, 8)
            && LowBytes(Encode(m), 10 + n, size, 4)
            && Encode(m)[14 + n..] == m.data[..size]
  {
    var n, size := |m.topic|, |m.data| % TWO32;
    var length, stamp, width := LittleEndian(n % TWO16, 2), LittleEndian(m.timestamp, 8), LittleEndian(size, 4);
    FieldSlices([], length, m.topic, stamp, width, m.data[..size], []);
    assert [] + Encode(m) + [] == Encode(m);
    FieldBytes(Encode(m), 0, n % TWO16, 2);
    FieldBytes(Encode(m), 2 + n, m.timestamp, 8);
    FieldBytes(Encode(m), 10 + n, size, 4);
  }

  lemma FieldBytes(bytes: seq<Byte>, from: nat, value: nat, width: nat)
    requires from + width <= |bytes| && bytes[from..from + width] == LittleEndian(value, width)
    ensures LowBytes(bytes, from, value, width)
  {
    forall i | 0 <= i < width
      ensures bytes[from + i] == value / Power256(i) % 256
    {
      LittleEndianBytes(value, width, i);
      assert bytes[from + i] == bytes[from..from + width][i];
    }
  }

  /** The header: the bytes of "PJRB", then count, size and flags in four bytes
      each. */
  lemma HeaderLayout(count: nat, size: nat, flags: nat)
    requires flags < TWO32
    ensures var h := HeaderBytes(count, size, flags);
            && |h| == 16
            && h[..4] == ['P' as int, 'J' as int, 'R' as int, 'B' as int]
            && LowBytes(h, 4, count % TWO32, 4) && LowBytes(h, 8, size % TWO32, 4) && LowBytes(h, 12, flags, 4)
  {
    var h := HeaderBytes(count, size, flags);
    FieldBytes(h, 4, count % TWO32, 4);
    FieldBytes(h, 8, size % TWO32, 4);
    FieldBytes(h, 12, flags, 4);
    assert h[..4] == LittleEndian(FRAME_MAGIC, 4);
    MagicBytes();
  }

  lemma MagicBytes()
    ensures LittleEndian(FRAME_MAGIC, 4) == [80, 74, 82, 66]
  {
    assert LittleEndian(0x42, 1) == [0x42] + LittleEndian(0, 0);
    assert LittleEndian(0x4252, 2) == [0x52] + LittleEndian(0x42, 1);
    assert LittleEndian(0x42524A, 3) == [0x4A] + LittleEndian(0x4252, 2);
  }

  // ---------------------------------------------------------------- decoding

  /** A short read in the middle of a field raises an error in the client. */
  datatype Decoded = Messages(list: seq<WireMessage>, consumed: nat) | ShortRead

  /** Python slicing: indices past the end are clamped. */
  function Slice(data: seq<Byte>, from: nat, to: nat): seq<Byte>
    requires from <= to
  {
    data[(if from < |data| then from else |data|)..(if to < |data| then to else |data|)]
  }

  /** One turn of the decoder's loop: the message read at `offset` and the
      offset after it, or None when a fixed-width field is cut short. */
  function DecodeOne(data: seq<Byte>, offset: nat): Option<(WireMessage, nat)>
    requires offset + 2 <= |data|
  {
    var nameLength := FromLittleEndian(data[offset..offset + 2]);
    var nameEnd := offset + 2 + nameLength;
    var stamp := Slice(data, nameEnd, nameEnd + 8);
    var size := Slice(data, nameEnd + 8, nameEnd + 12);
    if |stamp| != 8 || |size| != 4 then None
    else
      var dataEnd := nameEnd + 12 + FromLittleEndian(size);
      Stamp(stamp);
      Some((WireMessage(Slice(data, offset + 2, nameEnd), FromLittleEndian(stamp), Slice(data, nameEnd + 12, dataEnd)),
            dataEnd))
  }

  lemma Stamp(bytes: seq<Byte>)
    requires |bytes| == 8
    ensures FromLittleEndian(bytes) < TWO64
  {
    FromLittleEndianBound(bytes);
    Widths();
  }

  /** The decoder from `offset` on.  A single trailing byte ends the loop, and a
      last payload that is cut short is accepted as it is. */
  function DecodeFrom(data: seq<Byte>, offset: nat): Decoded
    decreases |data| - offset
  {
    if offset >= |data| || offset + 2 > |data| then Messages([], offset)
    else
      match DecodeOne(data, offset)
      case None => ShortRead
      case Some((m, next)) =>
        match DecodeFrom(data, next)
        case ShortRead => ShortRead
        case Messages(list, consumed) => Messages([m] + list, consumed)
  }

  method DeserializeAggregatedMessages(data: seq<Byte>) returns (result: Decoded)
    ensures result == DecodeFrom(data, 0)
  {
    var messages: seq<WireMessage> := [];
    var offset: nat := 0;
    while offset < |data|
      invariant DecodeFrom(data, 0) == Prepend(messages, DecodeFrom(data, offset))
      decreases |data| - offset
    {
      if offset + 2 > |data| {
        break;
      }
      match DecodeOne(data, offset)
      case None =>
        return ShortRead;
      case Some(read) =>
        PrependMore(messages, read.0, DecodeFrom(data, read.1));
        messages := messages + [read.0];
        offset := read.1;
    }
    assert messages + [] == messages;
    result := Messages(messages, offset);
  }

  function Prepend(ms: seq<WireMessage>, d: Decoded): Decoded {
    match d
    case ShortRead => ShortRead
    case Messages(list, consumed) => Messages(ms + list, consumed)
  }

  lemma PrependMore(ms: seq<WireMessage>, m: WireMessage, d: Decoded)
    ensures Prepend(ms, Prepend([m], d)) == Prepend(ms + [m], d)
  {
    if d.Messages? {
      assert ms + ([m] + d.list) == ms + [m] + d.list;
    }
  }

  // --------------------------------------------------------------- round trip

  /** Names and payloads that fit their length fields. */
  predicate Fits(m: WireMessage) {
    |m.topic| < TWO16 && |m.data| < TWO32
  }

  /** A message written at `|before|` is read back there, whatever follows. */
  lemma DecodeOneEncoded(before: seq<Byte>, m: WireMessage, after: seq<Byte>)
    requires Fits(m)
    ensures |before| + 2 <= |before + Encode(m) + after|
    ensures DecodeOne(before + Encode(m) + after, |before|) == Some((m, |before + Encode(m)|))
  {
    var length, stamp, size := LittleEndian(|m.topic|, 2), LittleEndian(m.timestamp, 8), LittleEndian(|m.data|, 4);
    EncodeFields(m);
    FieldSlices(before, length, m.topic, stamp, size, m.data, after);
    LengthsRead(m);
    DecodeFields(before + Encode(m) + after, |before|, m, length, stamp, size);
  }

  lemma EncodeFields(m: WireMessage)
    requires Fits(m)
    ensures Encode(m) ==
            LittleEndian(|m.topic|, 2) + m.topic + LittleEndian(m.timestamp, 8) + LittleEndian(|m.data|, 4) + m.data
  {
    assert m.data[..|m.data|] == m.data;
  }

  lemma LengthsRead(m: WireMessage)
    requires Fits(m)
    ensures FromLittleEndian(LittleEndian(|m.topic|, 2)) == |m.topic|
    ensures FromLittleEndian(LittleEndian(m.timestamp, 8)) == m.timestamp
    ensures FromLittleEndian(LittleEndian(|m.data|, 4)) == |m.data|
  {
    Widths();
    LittleEndianReads(|m.topic|, 2);
    LittleEndianReads(m.timestamp, 8);
    LittleEndianReads(|m.data|, 4);
  }

  lemma DecodeFields(all: seq<Byte>, o: nat, m: WireMessage, length: seq<Byte>, stamp: seq<Byte>, size: seq<Byte>)
    requires |all| >= o + 14 + |m.topic| + |m.data|
    requires all[o..o + 2] == length && FromLittleEndian(length) == |m.topic|
    requires all[o + 2..o + 2 + |m.topic|] == m.topic
    requires all[o + 2 + |m.topic|..o + 10 + |m.topic|] == stamp && FromLittleEndian(stamp) == m.timestamp
    requires all[o + 10 + |m.topic|..o + 14 + |m.topic|] == size && FromLittleEndian(size) == |m.data|
    requires all[o + 14 + |m.topic|..o + 14 + |m.topic| + |m.data|] == m.data
    ensures DecodeOne(all, o) == Some((m, o + 14 + |m.topic| + |m.data|))
  {
  }

  /** Where the five fields of a message lie. */
  lemma FieldSlices(before: seq<Byte>, length: seq<Byte>, name: seq<Byte>, stamp: seq<Byte>, size: seq<Byte>,
                    data: seq<Byte>, after: seq<Byte>)
    requires |length| == 2 && |stamp| == 8 && |size| == 4
    ensures var all := before + (length + name + stamp + size + data) + after;
            var o := |before|;
            var n := |name|;
            && |all| >= o + 14 + n + |data|
            && all[o..o + 2] == length
            && all[o + 2..o + 2 + n] == name
            && all[o + 2 + n..o + 10 + n] == stamp
            && all[o + 10 + n..o + 14 + n] == size
            && all[o + 14 + n..o + 14 + n + |data|] == data
  {
  }

  lemma {:induction false} DecodeEncoded(before: seq<Byte>, ms: seq<WireMessage>)
    requires forall m | m in ms :: Fits(m)
    ensures DecodeFrom(before + EncodeForward(ms), |before|) == Messages(ms, |before + EncodeForward(ms)|)
    decreases |ms|
  {
    if ms == [] {
      assert before + EncodeForward(ms) == before;
    } else {
      var rest := EncodeForward(ms[1..]);
      DecodeOneEncoded(before, ms[0], rest);
      DecodeEncoded(before + Encode(ms[0]), ms[1..]);
      Regrouped(before, Encode(ms[0]), rest);
      DecodeThenRest(before + Encode(ms[0]) + rest, |before|);
      assert [ms[0]] + ms[1..] == ms;
    }
  }

  lemma Regrouped(a: seq<Byte>, b: seq<Byte>, c: seq<Byte>)
    ensures a + (b + c) == a + b + c
  {
  }

  /** One message, then the others. */
  lemma DecodeThenRest(data: seq<Byte>, offset: nat)
    requires offset + 2 <= |data| && DecodeOne(data, offset).Some?
    ensures var read := DecodeOne(data, offset).value;
            DecodeFrom(data, read.1).Messages? ==>
              DecodeFrom(data, offset) ==
              Messages([read.0] + DecodeFrom(data, read.1).list, DecodeFrom(data, read.1).consumed)
  {
  }

  /** The same concatenation, from the front. */
  function EncodeForward(ms: seq<WireMessage>): seq<Byte> {
    if ms == [] then [] else Encode(ms[0]) + EncodeForward(ms[1..])
  }

  lemma {:induction false} EncodeBothWays(ms: seq<WireMessage>)
    ensures EncodeAll(ms) == EncodeForward(ms)
  {
    if ms != [] {
      var front, last := ms[..|ms| - 1], ms[|ms| - 1];
      EncodeBothWays(front);
      EncodeForwardAppend(front, last);
      assert front + [last] == ms;
    }
  }

  lemma {:induction false} EncodeForwardAppend(ms: seq<WireMessage>, m: WireMessage)
    ensures EncodeForward(ms + [m]) == EncodeForward(ms) + Encode(m)
  {
    if ms != [] {
      EncodeForwardAppend(ms[1..], m);
      assert (ms + [m])[1..] == ms[1..] + [m];
    } else {
      assert ([] + [m])[1..] == [];
    }
  }

  /** Every message the decoder yields fits its length fields. */
  lemma {:induction false} DecodedFits(data: seq<Byte>, offset: nat)
    ensures DecodeFrom(data, offset).Messages? ==> forall m | m in DecodeFrom(data, offset).list :: Fits(m)
    decreases |data| - offset
  {
    if offset + 2 <= |data| {
      match DecodeOne(data, offset)
      case None =>
      case Some((m, next)) =>
        DecodeOneFits(data, offset);
        DecodedFits(data, next);
    }
  }

  lemma DecodeOneFits(data: seq<Byte>, offset: nat)
    requires offset + 2 <= |data| && DecodeOne(data, offset).Some?
    ensures Fits(DecodeOne(data, offset).value.0)
  {
    Widths();
    FromLittleEndianBound(data[offset..offset + 2]);
    var nameEnd := offset + 2 + FromLittleEndian(data[offset..offset + 2]);
    FromLittleEndianBound(Slice(data, nameEnd + 8, nameEnd + 12));
  }

  /** Decoding the concatenated encodings gives the list back and consumes every
      byte exactly when every message fits its length fields. */
  lemma RoundTrip(ms: seq<WireMessage>)
    ensures DecodeFrom(EncodeAll(ms), 0) == Messages(ms, |EncodeAll(ms)|) <==> forall m | m in ms :: Fits(m)
  {
    EncodeBothWays(ms);
    if forall m | m in ms :: Fits(m) {
      DecodeEncoded([], ms);
      assert [] + EncodeForward(ms) == EncodeForward(ms);
    }
    DecodedFits(EncodeAll(ms), 0);
  }

  // ----------------------------------------------------------- cut payloads

  /** Whatever follows complete messages does not affect them. */
  lemma {:induction false} DecodeWithTail(before: seq<Byte>, ms: seq<WireMessage>, tail: seq<Byte>)
    requires forall m | m in ms :: Fits(m)
    ensures var all := before + EncodeForward(ms) + tail;
            DecodeFrom(all, |before|) == Prepend(ms, DecodeFrom(all, |before + EncodeForward(ms)|))
    decreases |ms|
  {
    var all := before + EncodeForward(ms) + tail;
    var end := |before + EncodeForward(ms)|;
    if ms == [] {
      PrependNone(DecodeFrom(all, |before|));
    } else {
      var rest := EncodeForward(ms[1..]);
      Regroup4(before, Encode(ms[0]), rest, tail);
      DecodeWithTail(before + Encode(ms[0]), ms[1..], tail);
      DecodeFirst(before, ms[0], rest + tail);
      PrependBoth(ms, DecodeFrom(all, end));
    }
  }

  lemma DecodeFirst(before: seq<Byte>, m: WireMessage, after: seq<Byte>)
    requires Fits(m)
    ensures var all := before + Encode(m) + after;
            DecodeFrom(all, |before|) == Prepend([m], DecodeFrom(all, |before + Encode(m)|))
  {
    DecodeOneEncoded(before, m, after);
    PrependFirst(before + Encode(m) + after, |before|);
  }

  lemma PrependNone(d: Decoded)
    ensures Prepend([], d) == d
  {
    if d.Messages? {
      assert [] + d.list == d.list;
    }
  }

  lemma PrependBoth(ms: seq<WireMessage>, d: Decoded)
    requires ms != []
    ensures Prepend([ms[0]], Prepend(ms[1..], d)) == Prepend(ms, d)
  {
    if d.Messages? {
      assert [ms[0]] + (ms[1..] + d.list) == ms + d.list;
    }
  }

  lemma PrependFirst(data: seq<Byte>, offset: nat)
    requires offset + 2 <= |data| && DecodeOne(data, offset).Some?
    ensures var read := DecodeOne(data, offset).value;
            DecodeFrom(data, offset) == Prepend([read.0], DecodeFrom(data, read.1))
  {
  }

  lemma Regroup4(a: seq<Byte>, b: seq<Byte>, c: seq<Byte>, d: seq<Byte>)
    ensures a + (b + c) + d == a + b + (c + d) == a + b + c + d
  {
  }

  /** A single byte after complete messages is ignored. */
  lemma TrailingByteIgnored(ms: seq<WireMessage>, b: Byte)
    requires forall m | m in ms :: Fits(m)
    ensures DecodeFrom(EncodeAll(ms) + [b], 0) == Messages(ms, |EncodeAll(ms)|)
  {
    EncodeBothWays(ms);
    DecodeWithTail([], ms, [b]);
    var all := EncodeAll(ms) + [b];
    assert [] + EncodeForward(ms) == EncodeForward(ms);
    assert DecodeFrom(all, |EncodeAll(ms)|) == Messages([], |EncodeAll(ms)|);
    assert ms + [] == ms;
  }

  /** A last message that is cut makes the decoder fail if the cut is in its
      fields, and loses the missing part of its payload otherwise. */
  lemma CutMessage(ms: seq<WireMessage>, m: WireMessage, k: nat)
    requires Fits(m) && forall x | x in ms :: Fits(x)
    requires 2 <= k <= |Encode(m)|
    ensures var n := |m.topic|;
            DecodeFrom(EncodeAll(ms) + Encode(m)[..k], 0) ==
            if k < 14 + n then ShortRead
            else Messages(ms + [m.(data := m.data[..k - 14 - n])], |EncodeAll(ms)| + |Encode(m)|)
  {
    EncodeBothWays(ms);
    var tail := Encode(m)[..k];
    DecodeWithTail([], ms, tail);
    assert [] + EncodeForward(ms) == EncodeForward(ms);
    DecodeCut(EncodeAll(ms), m, k);
    var all, o := EncodeAll(ms) + tail, |EncodeAll(ms)|;
    if k >= 14 + |m.topic| {
      PrependFirst(all, o);
      EncodeLayout(m);
      assert DecodeFrom(all, o + |Encode(m)|) == Messages([], o + |Encode(m)|);
      assert ms + ([DecodeOne(all, o).value.0] + []) == ms + [DecodeOne(all, o).value.0];
    }
  }

  lemma DecodeCut(before: seq<Byte>, m: WireMessage, k: nat)
    requires Fits(m) && 2 <= k <= |Encode(m)|
    ensures |before + Encode(m)[..k]| >= |before| + 2
    ensures DecodeOne(before + Encode(m)[..k], |before|) ==
            if k < 14 + |m.topic| then None
            else Some((m.(data := m.data[..k - 14 - |m.topic|]), |before| + |Encode(m)|))
  {
    var n, o := |m.topic|, |before|;
    EncodedSlices(m);
    CutSlices(before, Encode(m), k, n);
    if k < 14 + n {
      ShortFields(before + Encode(m)[..k], o, n);
    } else {
      assert Encode(m)[14 + n..k] == m.data[..k - 14 - n];
      CutFields(before + Encode(m)[..k], o, m.(data := m.data[..k - 14 - n]), |m.data|);
    }
  }

  /** What the fields of an encoded message are read as. */
  lemma EncodedSlices(m: WireMessage)
    requires Fits(m)
    ensures var bytes, n := Encode(m), |m.topic|;
            && |bytes| == n + 14 + |m.data|
            && FromLittleEndian(bytes[..2]) == n
            && bytes[2..2 + n] == m.topic
            && FromLittleEndian(bytes[2 + n..10 + n]) == m.timestamp
            && FromLittleEndian(bytes[10 + n..14 + n]) == |m.data|
            && bytes[14 + n..] == m.data
  {
    var length, stamp, size := LittleEndian(|m.topic|, 2), LittleEndian(m.timestamp, 8), LittleEndian(|m.data|, 4);
    EncodeFields(m);
    LengthsRead(m);
    FieldSlices([], length, m.topic, stamp, size, m.data, []);
    assert [] + (length + m.topic + stamp + size + m.data) + [] == Encode(m);
  }

  lemma ShortFields(all: seq<Byte>, o: nat, n: nat)
    requires o + 2 <= |all| && FromLittleEndian(all[o..o + 2]) == n
    requires |Slice(all, o + 2 + n, o + 10 + n)| < 8 || |Slice(all, o + 10 + n, o + 14 + n)| < 4
    ensures DecodeOne(all, o) == None
  {
  }

  /** All fields but the payload are there. */
  lemma CutFields(all: seq<Byte>, o: nat, m: WireMessage, d: nat)
    requires o + 14 + |m.topic| <= |all| <= o + 14 + |m.topic| + d
    requires FromLittleEndian(all[o..o + 2]) == |m.topic|
    requires all[o + 2..o + 2 + |m.topic|] == m.topic
    requires FromLittleEndian(all[o + 2 + |m.topic|..o + 10 + |m.topic|]) == m.timestamp
    requires FromLittleEndian(all[o + 10 + |m.topic|..o + 14 + |m.topic|]) == d
    requires all[o + 14 + |m.topic|..] == m.data
    ensures DecodeOne(all, o) == Some((m, o + 14 + |m.topic| + d))
  {
    var end := o + 2 + |m.topic|;
    assert Slice(all, end + 12, end + 12 + d) == all[end + 12..|all|] == m.data;
  }

  /** What slicing sees of a cut message. */
  lemma CutSlices(before: seq<Byte>, bytes: seq<Byte>, k: nat, n: nat)
    requires 2 <= k <= |bytes| && |bytes| >= n + 14
    ensures var all := before + bytes[..k];
            var o := |before|;
            && |all| == o + k
            && all[o..o + 2] == bytes[..2]
            && (k < 10 + n ==> |Slice(all, o + 2 + n, o + 10 + n)| < 8)
            && (10 + n <= k < 14 + n ==> |Slice(all, o + 10 + n, o + 14 + n)| < 4)
            && (k >= 14 + n ==>
                  && all[o + 2..o + 2 + n] == bytes[2..2 + n]
                  && all[o + 2 + n..o + 10 + n] == bytes[2 + n..10 + n]
                  && all[o + 10 + n..o + 14 + n] == bytes[10 + n..14 + n]
                  && all[o + 14 + n..] == bytes[14 + n..k])
  {
  }

  /** A name of 65536 bytes does not survive: its length field says 0. */
  lemma OversizedNameIsLost(timestamp: U64, data: seq<Byte>) returns (m: WireMessage)
    ensures |m.topic| == TWO16 && m.timestamp == timestamp && m.data == data
    ensures DecodeFrom(EncodeAll([m]), 0) != Messages([m], |EncodeAll([m])|)
    ensures DecodeFrom(EncodeAll([m]), 0).Messages? && DecodeFrom(EncodeAll([m]), 0).list != [] ==>
              DecodeFrom(EncodeAll([m]), 0).list[0].topic == []
  {
    m := WireMessage(seq(TWO16, _ => 0), timestamp, data);
    RoundTrip([m]);
    assert m in [m] && !Fits(m);
    StartsWithLength(m);
    NamelessFirst(EncodeAll([m]));
  }

  lemma StartsWithLength(m: WireMessage)
    requires |m.topic| == TWO16
    ensures var bytes := EncodeAll([m]); |bytes| >= 2 && FromLittleEndian(bytes[0..2]) == 0
  {
    var length := LittleEndian(0, 2);
    assert [m][..0] == [];
    assert EncodeAll([m]) == [] + Encode(m);
    assert EncodeAll([m])[0..2] == Encode(m)[0..2] == length;
    LittleEndianReads(0, 2);
  }

  lemma NamelessFirst(bytes: seq<Byte>)
    requires |bytes| >= 2 && FromLittleEndian(bytes[0..2]) == 0
    ensures DecodeFrom(bytes, 0).Messages? && DecodeFrom(bytes, 0).list != [] ==>
              DecodeFrom(bytes, 0).list[0].topic == []
  {
    if DecodeOne(bytes, 0).Some? {
      var read := DecodeOne(bytes, 0).value;
      assert read.0.topic == Slice(bytes, 2, 2) == [];
      DecodeThenRest(bytes, 0);
    }
  }

  // ------------------------------------------------------------------ header

  datatype Header = Header(magic: nat, count: nat, size: nat, flags: nat)

  function ParseHeader(bytes: seq<Byte>): Header
    requires |bytes| >= HEADER_SIZE
  {
    Header(FromLittleEndian(bytes[..4]), FromLittleEndian(bytes[4..8]),
           FromLittleEndian(bytes[8..12]), FromLittleEndian(bytes[12..16]))
  }

  /** The header always carries the magic and the flags; its count and size are
      the true ones exactly when these fit in 32 bits. */
  lemma HeaderRoundTrip(count: nat, size: nat, flags: nat, payload: seq<Byte>)
    requires flags < TWO32
    ensures |HeaderBytes(count, size, flags)| == HEADER_SIZE
    ensures var h := ParseHeader(HeaderBytes(count, size, flags) + payload);
            && h.magic == FRAME_MAGIC
            && h.flags == flags
            && (h.count == count <==> count < TWO32)
            && (h.size == size <==> size < TWO32)
  {
    var bytes := HeaderBytes(count, size, flags) + payload;
    Widths();
    LittleEndianReads(FRAME_MAGIC, 4);
    LittleEndianReads(count % TWO32, 4);
    LittleEndianReads(size % TWO32, 4);
    LittleEndianReads(flags, 4);
    assert bytes[..4] == LittleEndian(FRAME_MAGIC, 4);
    assert bytes[4..8] == LittleEndian(count % TWO32, 4);
    assert bytes[8..12] == LittleEndian(size % TWO32, 4);
    assert bytes[12..16] == LittleEndian(flags, 4);
  }

  /** A whole frame before compression: its header describes the list its payload
      decodes to exactly if count and size fit in 32 bits. */
  lemma FrameRoundTrip(ms: seq<WireMessage>, flags: nat)
    requires flags < TWO32 && forall m | m in ms :: Fits(m)
    ensures var frame := HeaderBytes(|ms|, |EncodeAll(ms)|, flags) + EncodeAll(ms);
            && |frame| >= HEADER_SIZE
            && DecodeFrom(frame[HEADER_SIZE..], 0) == Messages(ms, |frame| - HEADER_SIZE)
            && ParseHeader(frame).magic == FRAME_MAGIC
            && (ParseHeader(frame).count == |ms| && ParseHeader(frame).size == |frame| - HEADER_SIZE <==>
                  |ms| < TWO32 && |EncodeAll(ms)| < TWO32)
  {
    var header := HeaderBytes(|ms|, |EncodeAll(ms)|, flags);
    HeaderRoundTrip(|ms|, |EncodeAll(ms)|, flags, EncodeAll(ms));
    RoundTrip(ms);
    assert (header + EncodeAll(ms))[HEADER_SIZE..] == EncodeAll(ms);
  }
}
