/** The Plantower PMS7003 frame decoder and the particulate reading store.

    A frame is 32 bytes: the start characters 0x42 0x4D, a big-endian frame
    length that must be 28, twelve big-endian uint16 readings, a reserved
    uint16, and a big-endian checksum equal to the sum of bytes 0..29.
    The firmware logs a checksum mismatch but stores the reading anyway;
    the decoder therefore reports the checksum verdict as a flag next to an
    accepted reading instead of rejecting the frame. */
module PmsFrame {
  import opened Types

  const FrameSize: nat := 32
  const StartChar1: u8 := 0x42
  const StartChar2: u8 := 0x4D
  const ExpectedFrameLength: u16 := 28
  const FieldCount: nat := 12
  /** Bytes 0..ChecksumStart-1 are summed into the checksum. */
  const ChecksumStart: nat := 30

  /** PMS7003_DATA: twelve uint16 fields in the order the decoder fills them.
      SP = standard particle, AE = atmospheric environment (µg/m³);
      np* = number of particles beyond the size in 0.1 L of air. */
  datatype Reading = Reading(
    pm1_0Sp: u16, pm2_5Sp: u16, pm10Sp: u16,
    pm1_0Ae: u16, pm2_5Ae: u16, pm10Ae: u16,
    np0_3: u16, np0_5: u16, np1_0: u16, np2_5: u16, np5_0: u16, np10: u16)

  /** The zero-initialised global store before any frame arrives. */
  const EmptyReading: Reading := Reading(0, 0, 0, 0, 0, 0, 0, 0, 0, 0, 0, 0)

  /** The twelve fields of a reading, in struct order. */
  function Fields(r: Reading): (s: seq<u16>)
    ensures |s| == FieldCount
  {
    [r.pm1_0Sp, r.pm2_5Sp, r.pm10Sp, r.pm1_0Ae, r.pm2_5Ae, r.pm10Ae,
     r.np0_3, r.np0_5, r.np1_0, r.np2_5, r.np5_0, r.np10]
  }

  /** Field k of a reading, in struct order. */
  function Field(r: Reading, k: nat): u16
    requires k < FieldCount
  {
    Fields(r)[k]
  }

  lemma FieldsInjective(a: Reading, b: Reading)
    requires Fields(a) == Fields(b)
    ensures a == b
  {
    assert Fields(a)[0] == Fields(b)[0] && Fields(a)[1] == Fields(b)[1] && Fields(a)[2] == Fields(b)[2];
    assert Fields(a)[3] == Fields(b)[3] && Fields(a)[4] == Fields(b)[4] && Fields(a)[5] == Fields(b)[5];
    assert Fields(a)[6] == Fields(b)[6] && Fields(a)[7] == Fields(b)[7] && Fields(a)[8] == Fields(b)[8];
    assert Fields(a)[9] == Fields(b)[9] && Fields(a)[10] == Fields(b)[10] && Fields(a)[11] == Fields(b)[11];
  }

  /** (hi << 8) | lo for two bytes. */
  function BigEndian(hi: u8, lo: u8): (v: u16)
    ensures v / 256 == hi && v % 256 == lo
  {
    hi * 256 + lo
  }

  function HighByte(v: u16): u8 { v / 256 }
  function LowByte(v: u16): u8 { v % 256 }

  /** Splitting a value into bytes and joining them again gives it back. */
  lemma SplitJoin(v: u16)
    ensures BigEndian(HighByte(v), LowByte(v)) == v
  {
  }

  /** The plain (unbounded) sum of bytes 0..n-1. */
  function SumTo(data: seq<u8>, n: nat): nat
    requires n <= |data|
  {
    if n == 0 then 0 else SumTo(data, n - 1) + data[n - 1]
  }

  lemma {:induction false} SumBound(data: seq<u8>, n: nat)
    requires n <= |data|
    ensures SumTo(data, n) <= 255 * n
  {
    if n > 0 {
      SumBound(data, n - 1);
    }
  }

  /** The sum only looks at the bytes it adds up. */
  lemma {:induction false} SumSamePrefix(a: seq<u8>, b: seq<u8>, n: nat)
    requires n <= |a| && n <= |b| && a[..n] == b[..n]
    ensures SumTo(a, n) == SumTo(b, n)
  {
    if n > 0 {
      assert a[n - 1] == a[..n][n - 1] == b[..n][n - 1] == b[n - 1];
      assert a[..n - 1] == a[..n][..n - 1];
      assert b[..n - 1] == b[..n][..n - 1];
      SumSamePrefix(a, b, n - 1);
    }
  }

  /** The checksum loop of the decoder: a uint16 accumulator that wraps at
      every addition. It equals the plain sum of bytes 0..29, which never
      wraps because 30 * 255 < 65536. */
  method ComputeChecksum(data: seq<u8>) returns (sum: u16)
    requires |data| >= ChecksumStart
    ensures sum == SumTo(data, ChecksumStart)
  {
    sum := 0;
    var i := 0;
    while i < ChecksumStart
      invariant 0 <= i <= ChecksumStart
      invariant sum == SumTo(data, i) % U16Modulus
    {
      sum := ToU16(sum + data[i]);
      i := i + 1;
    }
    SumBound(data, ChecksumStart);
  }

  datatype Rejection = WrongLength | BadStartChar1 | BadStartChar2 | BadFrameLength

  datatype Decoded =
    | Rejected(reason: Rejection)
    | Accepted(reading: Reading, checksumOk: bool)

  /** The header checks the decoder applies before it reads any field. */
  predicate WellFramed(data: seq<u8>)
  {
    && |data| == FrameSize
    && data[0] == StartChar1
    && data[1] == StartChar2
    && (data[2] as int) * 256 + data[3] == ExpectedFrameLength
  }

  /** Big-endian field k of a frame (k = 0..11), at bytes 4+2k and 5+2k. */
  function FrameField(data: seq<u8>, k: nat): u16
    requires |data| == FrameSize && k < FieldCount
  {
    BigEndian(data[4 + 2 * k], data[5 + 2 * k])
  }

  /** The twelve fields of a frame, read in struct order. */
  function ReadingOf(data: seq<u8>): (r: Reading)
    requires |data| == FrameSize
    ensures forall k :: 0 <= k < FieldCount ==> Field(r, k) == FrameField(data, k)
  {
    Reading(
      FrameField(data, 0), FrameField(data, 1), FrameField(data, 2),
      FrameField(data, 3), FrameField(data, 4), FrameField(data, 5),
      FrameField(data, 6), FrameField(data, 7), FrameField(data, 8),
      FrameField(data, 9), FrameField(data, 10), FrameField(data, 11))
  }

  /** pms7003Data without its side effect: either the reason it returns early,
      or the reading it would store together with the checksum verdict. */
  function Decode(data: seq<u8>): (r: Decoded)
    ensures r.Accepted? <==> WellFramed(data)
    ensures |data| != FrameSize ==> r == Rejected(WrongLength)
    ensures |data| == FrameSize && data[0] != StartChar1 ==> r == Rejected(BadStartChar1)
    ensures |data| == FrameSize && data[0] == StartChar1 && data[1] != StartChar2 ==> r == Rejected(BadStartChar2)
    ensures |data| == FrameSize && data[0] == StartChar1 && data[1] == StartChar2 && !WellFramed(data) ==>
              r == Rejected(BadFrameLength)
    ensures r.Accepted? ==>
              forall k :: 0 <= k < FieldCount ==> Field(r.reading, k) == (data[4 + 2 * k] as int) * 256 + data[5 + 2 * k]
    ensures r.Accepted? ==> (r.checksumOk <==> SumTo(data, ChecksumStart) == (data[30] as int) * 256 + data[31])
  {
    if |data| != FrameSize then Rejected(WrongLength)
    else if data[0] != StartChar1 then Rejected(BadStartChar1)
    else if data[1] != StartChar2 then Rejected(BadStartChar2)
    else if BigEndian(data[2], data[3]) != ExpectedFrameLength then Rejected(BadFrameLength)
    else
      var checksum := BigEndian(data[30], data[31]);
      var calculated := SumTo(data, ChecksumStart) % U16Modulus;
      SumBound(data, ChecksumStart);
      Accepted(ReadingOf(data), calculated == checksum)
  }

  /** The store update of pms7003Data: an accepted frame replaces all twelve
      fields at once, whatever its checksum verdict; a rejected one leaves the
      store as it was. */
  function Apply(store: Reading, d: Decoded): Reading
  {
    match d
    case Rejected(_) => store
    case Accepted(reading, _) => reading
  }

  /** Decoding a buffer and applying it to the store. */
  function Ingest(store: Reading, data: seq<u8>): (r: Reading)
    ensures !WellFramed(data) ==> r == store
    ensures WellFramed(data) ==> forall k :: 0 <= k < FieldCount ==> Field(r, k) == FrameField(data, k)
  {
    Apply(store, Decode(data))
  }

  /** Each value as two big-endian bytes. */
  function BytesOf(values: seq<u16>): (b: seq<u8>)
    ensures |b| == 2 * |values|
  {
    if |values| == 0 then []
    else [HighByte(values[0]), LowByte(values[0])] + BytesOf(values[1..])
  }

  /** Consecutive byte pairs read back as big-endian words. */
  function WordsOf(bytes: seq<u8>): (w: seq<u16>)
    requires |bytes| % 2 == 0
    ensures |w| == |bytes| / 2
  {
    if |bytes| == 0 then []
    else [BigEndian(bytes[0], bytes[1])] + WordsOf(bytes[2..])
  }

  lemma {:induction false} WordsOfIndex(bytes: seq<u8>, k: nat)
    requires |bytes| % 2 == 0 && k < |bytes| / 2
    ensures WordsOf(bytes)[k] == BigEndian(bytes[2 * k], bytes[2 * k + 1])
  {
    if k > 0 {
      WordsOfIndex(bytes[2..], k - 1);
    }
  }

  lemma {:induction false} WordsOfBytesOf(values: seq<u16>)
    ensures WordsOf(BytesOf(values)) == values
  {
    if |values| > 0 {
      var b := BytesOf(values);
      assert b[2..] == BytesOf(values[1..]);
      WordsOfBytesOf(values[1..]);
      SplitJoin(values[0]);
      assert values == [values[0]] + values[1..];
    }
  }

  lemma {:induction false} BytesOfWordsOf(bytes: seq<u8>)
    requires |bytes| % 2 == 0
    ensures BytesOf(WordsOf(bytes)) == bytes
  {
    if |bytes| > 0 {
      var w := WordsOf(bytes);
      assert w[1..] == WordsOf(bytes[2..]);
      BytesOfWordsOf(bytes[2..]);
      assert bytes == [bytes[0], bytes[1]] + bytes[2..];
    }
  }

  /** The fourteen big-endian words after the start characters: the frame
      length, the twelve fields and the reserved word. */
  function Words(r: Reading, reserved: u16): (w: seq<u16>)
  {
    [ExpectedFrameLength] + Fields(r) + [reserved]
  }

  /** The words determine the reading they carry. */
  lemma WordsInjective(a: Reading, ra: u16, b: Reading, rb: u16)
    requires Words(a, ra) == Words(b, rb)
    ensures a == b
  {
    assert Fields(a) == Words(a, ra)[1..FieldCount + 1];
    assert Fields(b) == Words(b, rb)[1..FieldCount + 1];
    FieldsInjective(a, b);
  }

  /** The 30 bytes a sensor sends before the checksum. */
  function Payload(r: Reading, reserved: u16): (p: seq<u8>)
    ensures |p| == ChecksumStart
  {
    [StartChar1, StartChar2] + BytesOf(Words(r, reserved))
  }

  /** A well-formed frame carrying a reading, as the sensor would send it. */
  function Encode(r: Reading, reserved: u16): (frame: seq<u8>)
    ensures |frame| == FrameSize
    ensures frame[..ChecksumStart] == Payload(r, reserved)
    ensures SumTo(frame, ChecksumStart) == BigEndian(frame[30], frame[31])
  {
    var p := Payload(r, reserved);
    SumBound(p, ChecksumStart);
    var checksum: u16 := SumTo(p, ChecksumStart);
    SplitJoin(checksum);
    var frame := p + [HighByte(checksum), LowByte(checksum)];
    assert frame[..ChecksumStart] == p == p[..ChecksumStart];
    SumSamePrefix(frame, p, ChecksumStart);
    frame
  }

  /** The words of a well-formed frame are those of the reading it carries. */
  lemma WordsOfFrame(data: seq<u8>)
    requires WellFramed(data)
    ensures WordsOf(data[2..ChecksumStart]) == Words(ReadingOf(data), BigEndian(data[28], data[29]))
  {
    var d := data[2..ChecksumStart];
    var w := WordsOf(d);
    var v := Words(ReadingOf(data), BigEndian(data[28], data[29]));
    forall k | 0 <= k < FieldCount + 2
      ensures w[k] == v[k]
    {
      WordsOfIndex(d, k);
      assert d[2 * k] == data[2 + 2 * k] && d[2 * k + 1] == data[3 + 2 * k];
      if 1 <= k <= FieldCount {
        assert v[k] == Fields(ReadingOf(data))[k - 1] == FrameField(data, k - 1);
      }
    }
  }

  /** The first four payload bytes: the start characters and the frame length. */
  lemma PayloadHeader(r: Reading, reserved: u16)
    ensures var p := Payload(r, reserved);
            p[0] == StartChar1 && p[1] == StartChar2 && BigEndian(p[2], p[3]) == ExpectedFrameLength
  {
    var w := Words(r, reserved);
    var p := Payload(r, reserved);
    assert BytesOf(w)[..2] == [HighByte(w[0]), LowByte(w[0])];
    assert p[2] == BytesOf(w)[0] && p[3] == BytesOf(w)[1];
    SplitJoin(ExpectedFrameLength);
  }

  /** Any 32 bytes that start with the payload of a reading pass the header
      checks, whatever their checksum bytes. */
  lemma PayloadFramed(frame: seq<u8>, r: Reading, reserved: u16)
    requires |frame| == FrameSize && frame[..ChecksumStart] == Payload(r, reserved)
    ensures WellFramed(frame)
  {
    PayloadHeader(r, reserved);
    var p := frame[..ChecksumStart];
    assert frame[0] == p[0] && frame[1] == p[1] && frame[2] == p[2] && frame[3] == p[3];
  }

  /** The words after the start characters of such bytes. */
  lemma PayloadWords(frame: seq<u8>, r: Reading, reserved: u16)
    requires |frame| == FrameSize && frame[..ChecksumStart] == Payload(r, reserved)
    ensures WordsOf(frame[2..ChecksumStart]) == Words(r, reserved)
  {
    assert frame[2..ChecksumStart] == frame[..ChecksumStart][2..];
    WordsOfBytesOf(Words(r, reserved));
  }

  /** ... and they carry that reading. */
  lemma PayloadCarries(frame: seq<u8>, r: Reading, reserved: u16)
    requires |frame| == FrameSize && frame[..ChecksumStart] == Payload(r, reserved)
    ensures WellFramed(frame)
    ensures ReadingOf(frame) == r
  {
    PayloadFramed(frame, r, reserved);
    PayloadWords(frame, r, reserved);
    WordsOfFrame(frame);
    WordsInjective(ReadingOf(frame), BigEndian(frame[28], frame[29]), r, reserved);
  }

  /** An encoded frame passes the header checks and carries its reading. */
  lemma EncodeCarries(r: Reading, reserved: u16)
    ensures WellFramed(Encode(r, reserved))
    ensures ReadingOf(Encode(r, reserved)) == r
  {
    PayloadCarries(Encode(r, reserved), r, reserved);
  }

  /** A well-formed frame with a matching checksum is accepted as is. */
  lemma DecodeMatching(data: seq<u8>)
    requires WellFramed(data) && SumTo(data, ChecksumStart) == BigEndian(data[30], data[31])
    ensures Decode(data) == Accepted(ReadingOf(data), true)
  {
    SumBound(data, ChecksumStart);
  }

  /** Round trip: a frame encoded from a reading decodes to that reading with
      a matching checksum. */
  lemma DecodeEncode(r: Reading, reserved: u16)
    ensures Decode(Encode(r, reserved)) == Accepted(r, true)
  {
    EncodeCarries(r, reserved);
    DecodeMatching(Encode(r, reserved));
  }

  /** The first 30 bytes of a well-formed frame are the payload of the
      reading and reserved word it carries. */
  lemma PayloadOfFrame(data: seq<u8>)
    requires WellFramed(data)
    ensures Payload(ReadingOf(data), BigEndian(data[28], data[29])) == data[..ChecksumStart]
  {
    assert data[..ChecksumStart] == [data[0], data[1]] + data[2..ChecksumStart];
    WordsOfFrame(data);
    BytesOfWordsOf(data[2..ChecksumStart]);
  }

  /** The other direction: every frame the decoder accepts with a matching
      checksum is exactly the encoding of what it decoded, so no byte of
      such a frame is ignored except through the reserved field. */
  lemma EncodeDecode(data: seq<u8>)
    requires WellFramed(data) && SumTo(data, ChecksumStart) == BigEndian(data[30], data[31])
    ensures Encode(ReadingOf(data), BigEndian(data[28], data[29])) == data
  {
    var frame := Encode(ReadingOf(data), BigEndian(data[28], data[29]));
    PayloadOfFrame(data);
    assert frame[..ChecksumStart] == data[..ChecksumStart];
    SumSamePrefix(frame, data, ChecksumStart);
    assert frame[30] == data[30] && frame[31] == data[31];
    assert frame == frame[..ChecksumStart] + [frame[30], frame[31]];
    assert data == data[..ChecksumStart] + [data[30], data[31]];
  }

  /** Changing the last checksum byte of a well-formed frame keeps it
      well-formed and keeps its reading, but breaks a matching checksum. */
  lemma ReplaceChecksumByte(data: seq<u8>, c: u8)
    requires WellFramed(data) && c != data[31]
    ensures var bad := data[31 := c];
            && WellFramed(bad)
            && ReadingOf(bad) == ReadingOf(data)
            && SumTo(bad, ChecksumStart) == SumTo(data, ChecksumStart)
            && BigEndian(bad[30], bad[31]) != BigEndian(data[30], data[31])
  {
    var bad := data[31 := c];
    assert bad[..ChecksumStart] == data[..ChecksumStart];
    SumSamePrefix(bad, data, ChecksumStart);
    forall k | 0 <= k < FieldCount
      ensures FrameField(bad, k) == FrameField(data, k)
    {
    }
  }

  /** A frame whose checksum does not match is still stored: the mismatch is
      only logged. Corrupting the last checksum byte of a valid frame shows it:
      the decoder flags the mismatch, and the store takes the reading anyway. */
  lemma ChecksumMismatchStillStored(store: Reading, data: seq<u8>, c: u8)
    requires WellFramed(data) && Decode(data).checksumOk && c != data[31]
    ensures Decode(data[31 := c]) == Accepted(ReadingOf(data), false)
    ensures Ingest(store, data[31 := c]) == ReadingOf(data)
  {
    ReplaceChecksumByte(data, c);
  }
}
