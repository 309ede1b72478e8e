// The telemetry sample and its length-prefixed wire frame
// (go-telemetry/internal/point/point.go).
module Point {

  type Byte = b: int | 0 <= b < 256
  type Bytes = seq<Byte>

  const TWO16: int := 0x1_0000
  const TWO63: int := 0x8000_0000_0000_0000
  const TWO64: int := 0x1_0000_0000_0000_0000

  // The 64 raw bits of the sample value (math.Float64bits).
  type Bits64 = n: int | 0 <= n < TWO64
  // Nanoseconds since the epoch, as Go's int64.
  type Int64 = n: int | -TWO63 <= n < TWO63

  datatype DataPoint = DataPoint(device: Bytes, sensor: Bytes, metric: Bytes,
                                 value: Bits64, unit: Bytes, timestamp: Int64)

  datatype WireError = RequiredFieldMissing | BufferTooShort | BadMagic | UnsupportedVersion
                     | TruncatedDevice | TruncatedLength | TruncatedField | TruncatedNumbers

  datatype Result<+T> = Ok(value: T) | Err(error: WireError)

  const WIRE_MAGIC: nat := 0x5450_5444
  const WIRE_VERSION: Byte := 1

  // ---- Fixed-width big-endian numbers --------------------------------------

  function Pow256(width: nat): (p: nat)
    ensures p > 0
  {
    if width == 0 then 1 else 256 * Pow256(width - 1)
  }

  // The low `width` bytes of `n`, most significant first; higher bytes are cut.
  function PutBE(n: nat, width: nat): (b: Bytes)
    ensures |b| == width
    decreases width
  {
    if width == 0 then [] else PutBE(n / 256, width - 1) + [n % 256]
  }

  function GetBE(b: Bytes): (n: nat)
    ensures n < Pow256(|b|)
  {
    if b == [] then 0 else 256 * GetBE(b[..|b| - 1]) + b[|b| - 1]
  }

  lemma {:induction false} GetPut(n: nat, width: nat)
    requires n < Pow256(width)
    ensures GetBE(PutBE(n, width)) == n
    decreases width
  {
    if width > 0 {
      GetPut(n / 256, width - 1);
      assert PutBE(n, width)[..width - 1] == PutBE(n / 256, width - 1);
    }
  }

  lemma {:induction false} PutGet(b: Bytes)
    ensures PutBE(GetBE(b), |b|) == b
  {
    if b != [] {
      PutGet(b[..|b| - 1]);
      assert GetBE(b) / 256 == GetBE(b[..|b| - 1]) && GetBE(b) % 256 == b[|b| - 1];
    }
  }

  lemma Widths()
    ensures Pow256(2) == TWO16 && Pow256(4) == 0x1_0000_0000 && Pow256(8) == TWO64
  {
    assert Pow256(3) == 0x100_0000;
    assert Pow256(5) == 0x100_0000_0000;
    assert Pow256(6) == 0x1_0000_0000_0000;
    assert Pow256(7) == 0x100_0000_0000_0000;
  }

  // uint64(t) and int64(n) of a 64-bit timestamp.
  function ToUnsigned(t: Int64): Bits64 { if t < 0 then t + TWO64 else t }

  function ToSigned(n: Bits64): Int64 { if n < TWO63 then n else n - TWO64 }

  // ---- The frame -----------------------------------------------------------

  // A field and its 16-bit length; `PutBE` cuts the length as uint16() does.
  function Field(s: Bytes): Bytes { PutBE(|s|, 2) + s }

  function Header(): Bytes { PutBE(WIRE_MAGIC, 4) + [WIRE_VERSION] }

  function Numbers(p: DataPoint): Bytes {
    PutBE(p.value, 8) + PutBE(ToUnsigned(p.timestamp), 8)
  }

  function Frame(p: DataPoint): Bytes {
    Header() + (Field(p.device) + (Field(p.sensor) + (Field(p.metric) + (Field(p.unit) + Numbers(p)))))
  }

  predicate Named(p: DataPoint) { p.device != [] && p.sensor != [] && p.metric != [] }

  // Every length survives the cut to sixteen bits.
  predicate Fits(p: DataPoint) {
    |p.device| < TWO16 && |p.sensor| < TWO16 && |p.metric| < TWO16 && |p.unit| < TWO16
  }

  method PutLenPrefixed(b: Bytes, s: Bytes) returns (r: Bytes)
    ensures r == b + Field(s)
  {
    r := b + PutBE(|s|, 2);
    r := r + s;
    assert r == b + Field(s);
  }

  // DataPoint.MarshalBinary.
  method MarshalBinary(p: DataPoint) returns (r: Result<Bytes>)
    ensures r == if Named(p) then Ok(Frame(p)) else Err(RequiredFieldMissing)
    ensures r.Err? <==> p.device == [] || p.sensor == [] || p.metric == []
  {
    if p.device == [] || p.sensor == [] || p.metric == [] {
      return Err(RequiredFieldMissing);
    }
    var buf: Bytes := Header();
    buf := PutLenPrefixed(buf, p.device);
    buf := PutLenPrefixed(buf, p.sensor);
    buf := PutLenPrefixed(buf, p.metric);
    buf := PutLenPrefixed(buf, p.unit);
    Reassociate(Header(), Field(p.device), Field(p.sensor), Field(p.metric), Field(p.unit), Numbers(p));
    buf := buf + Numbers(p);
    r := Ok(buf);
  }

  lemma Reassociate(a: Bytes, b: Bytes, c: Bytes, d: Bytes, e: Bytes, f: Bytes)
    ensures a + b + c + d + e + f == a + (b + (c + (d + (e + f))))
  {
  }

  // ---- Reading a frame back ------------------------------------------------

  // The field at `off` and the offset after it.
  function ReadField(data: Bytes, off: nat): (r: Result<(Bytes, nat)>)
    ensures r.Ok? ==> off + 2 <= r.value.1 <= |data|
  {
    if off + 2 > |data| then Err(TruncatedLength)
    else
      var end := off + 2 + GetBE(data[off..off + 2]);
      if end > |data| then Err(TruncatedField) else Ok((data[off + 2..end], end))
  }

  function Decode(data: Bytes): Result<DataPoint> {
    if |data| < 7 then Err(BufferTooShort)
    else if GetBE(data[..4]) != WIRE_MAGIC then Err(BadMagic)
    else if data[4] != WIRE_VERSION then Err(UnsupportedVersion)
    else
      var device := ReadField(data, 5);
      if device.Err? then Err(TruncatedDevice) else
      var sensor := ReadField(data, device.value.1);
      if sensor.Err? then Err(sensor.error) else
      var metric := ReadField(data, sensor.value.1);
      if metric.Err? then Err(metric.error) else
      var unit := ReadField(data, metric.value.1);
      if unit.Err? then Err(unit.error) else
      var off := unit.value.1;
      if off + 16 > |data| then Err(TruncatedNumbers)
      else Ok(DataPoint(device.value.0, sensor.value.0, metric.value.0, Word(data, off), unit.value.0,
                        ToSigned(Word(data, off + 8))))
  }

  function Word(data: Bytes, off: nat): Bits64
    requires off + 8 <= |data|
  {
    Widths();
    GetBE(data[off..off + 8])
  }

  // UnmarshalBinary, with its cursor.
  method UnmarshalBinary(data: Bytes) returns (r: Result<DataPoint>)
    ensures r == Decode(data)
  {
    if |data| < 7 {
      return Err(BufferTooShort);
    }
    if GetBE(data[..4]) != WIRE_MAGIC {
      return Err(BadMagic);
    }
    if data[4] != WIRE_VERSION {
      return Err(UnsupportedVersion);
    }
    var off := 5;
    var devLen := GetBE(data[off..off + 2]);
    off := off + 2;
    if off + devLen > |data| {
      return Err(TruncatedDevice);
    }
    var device := data[off..off + devLen];
    off := off + devLen;
    var sensor := ReadField(data, off);
    if sensor.Err? {
      return Err(sensor.error);
    }
    off := sensor.value.1;
    var metric := ReadField(data, off);
    if metric.Err? {
      return Err(metric.error);
    }
    off := metric.value.1;
    var unit := ReadField(data, off);
    if unit.Err? {
      return Err(unit.error);
    }
    off := unit.value.1;
    if off + 16 > |data| {
      return Err(TruncatedNumbers);
    }
    r := Ok(DataPoint(device, sensor.value.0, metric.value.0, Word(data, off), unit.value.0,
                      ToSigned(Word(data, off + 8))));
  }

  // ---- What decoding means -------------------------------------------------

  // The bytes `b` stand in `data` at `off`.
  predicate At(data: Bytes, off: nat, b: Bytes) {
    off + |b| <= |data| && data[off..off + |b|] == b
  }

  lemma AtConcat(data: Bytes, off: nat, a: Bytes, b: Bytes)
    ensures At(data, off, a + b) <==> At(data, off, a) && At(data, off + |a|, b)
  {
    if off + |a + b| <= |data| {
      var (x, y) := (data[off..off + |a|], data[off + |a|..off + |a| + |b|]);
      assert data[off..off + |a + b|] == x + y;
      assert x + y == a + b ==> x == (a + b)[..|a|] && y == (a + b)[|a|..];
    }
  }

  lemma NumberAt(data: Bytes, off: nat, width: nat, n: nat)
    requires off + width <= |data| && n < Pow256(width)
    ensures GetBE(data[off..off + width]) == n <==> At(data, off, PutBE(n, width))
  {
    GetPut(n, width);
    PutGet(data[off..off + width]);
  }

  lemma ReadFieldIff(data: Bytes, off: nat, f: Bytes, end: nat)
    ensures ReadField(data, off) == Ok((f, end))
       <==> |f| < TWO16 && At(data, off, Field(f)) && end == off + 2 + |f|
  {
    AtConcat(data, off, PutBE(|f|, 2), f);
    Widths();
    if off + 2 <= |data| && |f| < TWO16 {
      NumberAt(data, off, 2, |f|);
    }
  }

  lemma ChainAt(data: Bytes, a: Bytes, b: Bytes, c: Bytes, d: Bytes, e: Bytes, f: Bytes,
                o1: nat, o2: nat, o3: nat, o4: nat, o5: nat)
    requires o1 == |a| && o2 == o1 + |b| && o3 == o2 + |c| && o4 == o3 + |d| && o5 == o4 + |e|
    ensures At(data, 0, a + (b + (c + (d + (e + f))))) <==>
              At(data, 0, a) && At(data, o1, b) && At(data, o2, c)
              && At(data, o3, d) && At(data, o4, e) && At(data, o5, f)
  {
    AtConcat(data, 0, a, b + (c + (d + (e + f))));
    AtConcat(data, o1, b, c + (d + (e + f)));
    AtConcat(data, o2, c, d + (e + f));
    AtConcat(data, o3, d, e + f);
    AtConcat(data, o4, e, f);
  }

  lemma ReadFieldEnd(data: Bytes, off: nat)
    requires ReadField(data, off).Ok?
    ensures ReadField(data, off).value.1 == off + 2 + |ReadField(data, off).value.0|
  {
  }

  // The offset of each field of `p`, the last one that of the numbers.
  function Offsets(p: DataPoint): (nat, nat, nat, nat) {
    var o1 := 7 + |p.device|;
    var o2 := o1 + 2 + |p.sensor|;
    var o3 := o2 + 2 + |p.metric|;
    (o1, o2, o3, o3 + 2 + |p.unit|)
  }

  lemma HeaderAt(data: Bytes)
    ensures At(data, 0, Header())
       <==> |data| >= 5 && GetBE(data[..4]) == WIRE_MAGIC && data[4] == WIRE_VERSION
  {
    AtConcat(data, 0, PutBE(WIRE_MAGIC, 4), [WIRE_VERSION]);
    if |data| >= 5 {
      Widths();
      NumberAt(data, 0, 4, WIRE_MAGIC);
      assert data[0..4] == data[..4] && data[4..5] == [data[4]];
    }
  }

  lemma NumbersAt(data: Bytes, off: nat, p: DataPoint)
    ensures At(data, off, Numbers(p))
       <==> off + 16 <= |data| && Word(data, off) == p.value && ToSigned(Word(data, off + 8)) == p.timestamp
  {
    AtConcat(data, off, PutBE(p.value, 8), PutBE(ToUnsigned(p.timestamp), 8));
    if off + 16 <= |data| {
      Widths();
      NumberAt(data, off, 8, p.value);
      NumberAt(data, off + 8, 8, ToUnsigned(p.timestamp));
    }
  }

  // The parts of the frame of `p` stand in `data`, each at its offset.
  predicate LaidOut(data: Bytes, p: DataPoint) {
    var (o1, o2, o3, o4) := Offsets(p);
    && At(data, 0, Header())
    && At(data, 5, Field(p.device)) && At(data, o1, Field(p.sensor))
    && At(data, o2, Field(p.metric)) && At(data, o3, Field(p.unit))
    && At(data, o4, Numbers(p))
  }

  lemma FrameAt(data: Bytes, p: DataPoint)
    ensures At(data, 0, Frame(p)) <==> LaidOut(data, p)
  {
    var (o1, o2, o3, o4) := Offsets(p);
    ChainAt(data, Header(), Field(p.device), Field(p.sensor), Field(p.metric), Field(p.unit), Numbers(p),
            5, o1, o2, o3, o4);
  }

  // The decoder reads `p` field by field, each where the one before it ended.
  predicate ReadsAs(data: Bytes, p: DataPoint) {
    var (o1, o2, o3, o4) := Offsets(p);
    && |data| >= 7 && GetBE(data[..4]) == WIRE_MAGIC && data[4] == WIRE_VERSION
    && ReadField(data, 5) == Ok((p.device, o1))
    && ReadField(data, o1) == Ok((p.sensor, o2))
    && ReadField(data, o2) == Ok((p.metric, o3))
    && ReadField(data, o3) == Ok((p.unit, o4))
    && o4 + 16 <= |data| && Word(data, o4) == p.value
    && ToSigned(Word(data, o4 + 8)) == p.timestamp
  }

  lemma DecodeReads(data: Bytes, p: DataPoint)
    ensures Decode(data) == Ok(p) <==> ReadsAs(data, p)
  {
    hide ReadField, GetBE, Word, ToSigned;
    if Decode(data) == Ok(p) {
      var (o1, o2, o3, o4) := Offsets(p);
      ReadFieldEnd(data, 5);
      ReadFieldEnd(data, o1);
      ReadFieldEnd(data, o2);
      ReadFieldEnd(data, o3);
    }
  }

  lemma ReadsWhatIsLaidOut(data: Bytes, p: DataPoint)
    ensures ReadsAs(data, p) <==> Fits(p) && LaidOut(data, p)
  {
    hide At, ReadField, Field, Header, GetBE, PutBE, Word, Numbers, ToSigned;
    var (o1, o2, o3, o4) := Offsets(p);
    HeaderAt(data);
    ReadTwo(data, 5, p.device, o1, p.sensor, o2);
    ReadTwo(data, o2, p.metric, o3, p.unit, o4);
    NumbersAt(data, o4, p);
  }

  lemma ReadTwo(data: Bytes, o: nat, f: Bytes, o1: nat, g: Bytes, o2: nat)
    requires o1 == o + 2 + |f| && o2 == o1 + 2 + |g|
    ensures ReadField(data, o) == Ok((f, o1)) && ReadField(data, o1) == Ok((g, o2))
       <==> |f| < TWO16 && |g| < TWO16 && At(data, o, Field(f)) && At(data, o1, Field(g))
  {
    ReadFieldIff(data, o, f, o1);
    ReadFieldIff(data, o1, g, o2);
  }

  // The decoder returns `p` exactly when the input begins with the frame of `p`
  // and no length of `p` was cut.
  lemma DecodeIff(data: Bytes, p: DataPoint)
    ensures Decode(data) == Ok(p) <==> Fits(p) && At(data, 0, Frame(p))
  {
    DecodeReads(data, p);
    ReadsWhatIsLaidOut(data, p);
    FrameAt(data, p);
  }

  // ---- Round trips ---------------------------------------------------------

  // A sample survives the wire, whatever bytes follow it, iff no field reaches
  // 65536 bytes.
  lemma RoundTripIffFits(p: DataPoint, tail: Bytes)
    ensures Decode(Frame(p) + tail) == Ok(p) <==> Fits(p)
  {
    hide Decode, Fits, Frame;
    DecodeIff(Frame(p) + tail, p);
  }

  // The accepted inputs are exactly the extensions of frames.
  lemma AcceptsExactlyFrames(data: Bytes)
    ensures Decode(data).Ok? <==> exists p :: Fits(p) && Frame(p) <= data
  {
    hide Decode, Fits, Frame;
    if Decode(data).Ok? {
      DecodeIff(data, Decode(data).value);
    }
    if p :| Fits(p) && Frame(p) <= data {
      DecodeIff(data, p);
    }
  }

  // A stream determines the frame it begins with.
  lemma PrefixFree(p: DataPoint, q: DataPoint, tailP: Bytes, tailQ: Bytes)
    requires Fits(p) && Fits(q)
    requires Frame(p) + tailP == Frame(q) + tailQ
    ensures p == q && tailP == tailQ
  {
    hide Decode, Fits, Frame;
    DecodeIff(Frame(p) + tailP, p);
    DecodeIff(Frame(q) + tailQ, q);
    assert tailP == (Frame(p) + tailP)[|Frame(p)|..];
  }

  // No strict prefix of a frame is accepted.
  lemma TruncationRejected(p: DataPoint, n: nat)
    requires Fits(p) && n < |Frame(p)|
    ensures Decode(Frame(p)[..n]).Err?
  {
    hide Decode, Fits, Frame;
    var cut := Frame(p)[..n];
    if Decode(cut).Ok? {
      var q := Decode(cut).value;
      DecodeIff(cut, q);
      var rest := Frame(p)[|Frame(q)|..];
      assert Frame(p) + [] == Frame(q) + rest;
      PrefixFree(p, q, [], rest);
    }
  }

  // ---- Bytes on the wire ---------------------------------------------------

  // `n` without its lowest `k` bytes.
  function Shifted(n: nat, k: nat): nat { if k == 0 then n else Shifted(n / 256, k - 1) }

  lemma {:induction false} ByteOf(n: nat, width: nat, i: nat)
    requires i < width
    ensures PutBE(n, width)[i] == Shifted(n, width - 1 - i) % 256
    decreases width
  {
    if i < width - 1 { ByteOf(n / 256, width - 1, i); }
  }

  // A length as it stands on the wire: high byte, low byte.
  function Length(n: nat): Bytes { [n / 256 % 256, n % 256] }

  lemma LengthPut(n: nat)
    ensures PutBE(n, 2) == Length(n)
  {
    ByteOf(n, 2, 0);
    ByteOf(n, 2, 1);
    assert Shifted(n, 1) == n / 256;
  }

  lemma HeaderBytes()
    ensures Header() == [0x54, 0x50, 0x54, 0x44, 1]
  {
    ByteOf(WIRE_MAGIC, 4, 0);
    ByteOf(WIRE_MAGIC, 4, 1);
    ByteOf(WIRE_MAGIC, 4, 2);
    ByteOf(WIRE_MAGIC, 4, 3);
    assert Shifted(WIRE_MAGIC, 1) == 0x54_5054 && Shifted(WIRE_MAGIC, 2) == 0x5450 && Shifted(WIRE_MAGIC, 3) == 0x54;
  }

  // The frame begins with "TPTD" and version 1; then come device, sensor, metric and
  // unit, each behind its length; then the value's bits and the time stamp in two's
  // complement, most significant byte first.
  lemma FrameBytes(p: DataPoint, i: nat)
    requires i < 8
    ensures var (f, (o1, o2, o3, o4)) := (Frame(p), Offsets(p));
            && |f| == o4 + 16
            && At(f, 0, [0x54, 0x50, 0x54, 0x44, 1])
            && At(f, 5, Length(|p.device|) + p.device) && At(f, o1, Length(|p.sensor|) + p.sensor)
            && At(f, o2, Length(|p.metric|) + p.metric) && At(f, o3, Length(|p.unit|) + p.unit)
            && f[o4 + i] == Shifted(p.value, 7 - i) % 256
            && f[o4 + 8 + i] == Shifted(if p.timestamp < 0 then p.timestamp + TWO64 else p.timestamp, 7 - i) % 256
  {
    var f := Frame(p);
    var o4 := Offsets(p).3;
    FrameParts(p);
    FrameSize(p);
    NumberBytes(p, i);
    hide Frame, PutBE, Shifted, Numbers;
    assert f[o4..o4 + 16][i] == Numbers(p)[i] && f[o4..o4 + 16][8 + i] == Numbers(p)[8 + i];
  }

  lemma NumberBytes(p: DataPoint, i: nat)
    requires i < 8
    ensures |Numbers(p)| == 16 && Numbers(p)[i] == Shifted(p.value, 7 - i) % 256
    ensures Numbers(p)[8 + i] == Shifted(if p.timestamp < 0 then p.timestamp + TWO64 else p.timestamp, 7 - i) % 256
  {
    ByteOf(p.value, 8, i);
    ByteOf(ToUnsigned(p.timestamp), 8, i);
    hide PutBE, Shifted;
  }

  lemma FrameParts(p: DataPoint)
    ensures var (f, (o1, o2, o3, o4)) := (Frame(p), Offsets(p));
            && At(f, 0, [0x54, 0x50, 0x54, 0x44, 1])
            && At(f, 5, Length(|p.device|) + p.device) && At(f, o1, Length(|p.sensor|) + p.sensor)
            && At(f, o2, Length(|p.metric|) + p.metric) && At(f, o3, Length(|p.unit|) + p.unit)
            && At(f, o4, Numbers(p))
  {
    var f := Frame(p);
    assert f[0..0 + |f|] == f;
    FrameAt(f, p);
    HeaderBytes();
    LengthPut(|p.device|);
    LengthPut(|p.sensor|);
    LengthPut(|p.metric|);
    LengthPut(|p.unit|);
    hide Frame, PutBE, Header, Length, Numbers;
  }

  lemma FrameSize(p: DataPoint)
    ensures |Frame(p)| == Offsets(p).3 + 16
  {
  }

  // ---- What a rejection says -----------------------------------------------

  // Too short for a header; a header that does not begin with the magic; another version.
  lemma HeaderErrors(data: Bytes)
    ensures Decode(data) == Err(BufferTooShort) <==> |data| < 7
    ensures Decode(data) == Err(BadMagic) <==> |data| >= 7 && data[..4] != [0x54, 0x50, 0x54, 0x44]
    ensures Decode(data) == Err(UnsupportedVersion)
       <==> |data| >= 7 && data[..4] == [0x54, 0x50, 0x54, 0x44] && data[4] != 1
  {
    if |data| >= 7 { MagicIff(data[..4]); }
    hide GetBE, Word, ToSigned;
  }

  lemma MagicIff(b: Bytes)
    requires |b| == 4
    ensures GetBE(b) == WIRE_MAGIC <==> b == [0x54, 0x50, 0x54, 0x44]
  {
    HeaderBytes();
    Widths();
    assert Header()[..4] == PutBE(WIRE_MAGIC, 4);
    assert PutBE(WIRE_MAGIC, 4) == [0x54, 0x50, 0x54, 0x44];
    GetPut(WIRE_MAGIC, 4);
    PutGet(b);
  }

  // How far a cut frame got, and so what the decoder misses.
  function Missing(p: DataPoint, n: nat): WireError {
    var (o1, o2, o3, o4) := Offsets(p);
    if n < 7 then BufferTooShort
    else if n < o1 then TruncatedDevice
    else if n < o1 + 2 then TruncatedLength
    else if n < o2 then TruncatedField
    else if n < o2 + 2 then TruncatedLength
    else if n < o3 then TruncatedField
    else if n < o3 + 2 then TruncatedLength
    else if n < o4 then TruncatedField
    else TruncatedNumbers
  }

  lemma SliceOfCut(f: Bytes, n: nat, a: nat, b: nat)
    requires a <= b <= n <= |f|
    ensures f[..n][a..b] == f[a..b]
  {
  }

  // A field of a cut frame reads back, or the reader says whether its length or its
  // text was cut.
  lemma CutField(f: Bytes, n: nat, off: nat, s: Bytes)
    requires At(f, off, Field(s)) && off <= n <= |f| && |s| < TWO16
    ensures ReadField(f[..n], off)
         == CutAt(n, off, s)
  {
    AtConcat(f, off, PutBE(|s|, 2), s);
    Widths();
    if n >= off + 2 {
      NumberAt(f, off, 2, |s|);
      SliceOfCut(f, n, off, off + 2);
      if n >= off + 2 + |s| { SliceOfCut(f, n, off + 2, off + 2 + |s|); }
    }
  }

  function CutAt(n: nat, off: nat, s: Bytes): Result<(Bytes, nat)> {
    if n < off + 2 then Err(TruncatedLength)
    else if n < off + 2 + |s| then Err(TruncatedField) else Ok((s, off + 2 + |s|))
  }

  // `cut` is read as the first bytes of the frame of `p`.
  ghost predicate ReadsCut(cut: Bytes, p: DataPoint) {
    var (n, (o1, o2, o3, o4)) := (|cut|, Offsets(p));
    && 7 <= n < o4 + 16 && GetBE(cut[..4]) == WIRE_MAGIC && cut[4] == WIRE_VERSION
    && ReadField(cut, 5) == CutAt(n, 5, p.device)
    && (n >= o1 ==> ReadField(cut, o1) == CutAt(n, o1, p.sensor))
    && (n >= o2 ==> ReadField(cut, o2) == CutAt(n, o2, p.metric))
    && (n >= o3 ==> ReadField(cut, o3) == CutAt(n, o3, p.unit))
  }

  lemma CutReads(f: Bytes, p: DataPoint, n: nat)
    requires Fits(p) && LaidOut(f, p) && 7 <= n < |f| && |f| == Offsets(p).3 + 16
    ensures ReadsCut(f[..n], p)
  {
    var cut := f[..n];
    var (o1, o2, o3, o4) := Offsets(p);
    HeaderAt(f);
    assert cut[..4] == f[..4] && cut[4] == f[4];
    hide Field, Header, GetBE, At, ReadField;
    CutField(f, n, 5, p.device);
    if n >= o1 { CutField(f, n, o1, p.sensor); }
    if n >= o2 { CutField(f, n, o2, p.metric); }
    if n >= o3 { CutField(f, n, o3, p.unit); }
  }

  lemma CutDecodes(cut: Bytes, p: DataPoint)
    requires ReadsCut(cut, p)
    ensures Decode(cut) == Err(Missing(p, |cut|))
  {
    hide GetBE, Word, ToSigned, ReadField;
  }

  // The decoder's error tells where a frame was cut.
  lemma TruncationTells(p: DataPoint, n: nat)
    requires Fits(p) && n < |Frame(p)|
    ensures Decode(Frame(p)[..n]) == Err(Missing(p, n))
  {
    var f := Frame(p);
    assert f[0..0 + |f|] == f;
    FrameAt(f, p);
    FrameSize(p);
    hide Frame, LaidOut, ReadsCut, Missing;
    if n >= 7 {
      CutReads(f, p, n);
      hide Decode;
      CutDecodes(f[..n], p);
    } else {
      TooShort(f[..n], p);
    }
  }

  lemma TooShort(cut: Bytes, p: DataPoint)
    requires |cut| < 7
    ensures Decode(cut) == Err(Missing(p, |cut|))
  {
  }
}
