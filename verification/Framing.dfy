/** Unsigned-varint-length-delimited frames on the worker pipe: Core's encoder, whole-frame decoder and
    stream reader, and the JVM worker's own reader and writer. A frame's payload is the message's bytes. */
module Framing {
  import opened Prelude

  type Byte = b: nat | b < 256

  const MAX_PREFIX: nat := 10
  const INT_MAX: nat := 0x7FFF_FFFF

  /** Why a frame is not delivered. `CapacityOverflow` is a panic: no allocation is longer than 2 to the 63 less one. */
  datatype FrameError = InvalidLength | LengthMismatch | UnexpectedEof | ExceedsArrayLimit | CapacityOverflow

  predicate Continues(b: Byte) {
    b >= 128
  }

  // Varints.

  function Pow2(n: nat): (r: nat)
    ensures r > 0
  {
    if n == 0 then 1 else 2 * Pow2(n - 1)
  }

  lemma Pow2Seven(n: nat)
    ensures Pow2(n + 7) == 128 * Pow2(n)
  {
    assert Pow2(n + 7) == 2 * Pow2(n + 6) == 4 * Pow2(n + 5) == 8 * Pow2(n + 4);
    assert Pow2(n + 4) == 2 * Pow2(n + 3) == 4 * Pow2(n + 2) == 8 * Pow2(n + 1);
  }

  lemma Pow2Limits()
    ensures Pow2(63) == 0x8000_0000_0000_0000 && Pow2(64) == U64_LIMIT
  {
    Pow2Seven(0); Pow2Seven(7); Pow2Seven(14); Pow2Seven(21); Pow2Seven(28);
    Pow2Seven(35); Pow2Seven(42); Pow2Seven(49); Pow2Seven(56);
  }

  lemma {:induction false} Pow2Monotone(m: nat, n: nat)
    requires m <= n
    ensures Pow2(m) <= Pow2(n)
    decreases n
  {
    if m < n {
      Pow2Monotone(m, n - 1);
    }
  }

  /** The number written little-endian in the low seven bits of each byte. */
  function Value(prefix: seq<Byte>): nat {
    if prefix == [] then 0 else prefix[0] % 128 + 128 * Value(prefix[1..])
  }

  lemma {:induction false} ValueSnoc(prefix: seq<Byte>, b: Byte)
    ensures Value(prefix + [b]) == Value(prefix) + (b % 128) * Pow2(7 * |prefix|)
  {
    if prefix == [] {
      assert prefix + [b] == [b];
      assert Value([b]) == b % 128 + 128 * Value([]);
    } else {
      var rest := prefix[1..];
      assert (prefix + [b])[1..] == rest + [b] && (prefix + [b])[0] == prefix[0];
      ValueSnoc(rest, b);
      Pow2Seven(7 * |rest|);
      assert 7 * |prefix| == 7 * |rest| + 7;
      SevenMore(b % 128, Pow2(7 * |rest|), Pow2(7 * |prefix|));
    }
  }

  lemma SevenMore(bits: nat, power: nat, next: nat)
    requires next == 128 * power
    ensures 128 * (bits * power) == bits * next
  {
    assert bits * next == bits * (128 * power);
  }

  lemma {:induction false} ValueBound(prefix: seq<Byte>)
    ensures Value(prefix) < Pow2(7 * |prefix|)
  {
    if prefix != [] {
      ValueBound(prefix[1..]);
      Pow2Seven(7 * |prefix[1..]|);
      assert 7 * |prefix| == 7 * |prefix[1..]| + 7;
    }
  }

  lemma ValueOfOne(b: Byte)
    ensures Value([b]) % U64_LIMIT == b % 128
  {
    assert Value([b]) == b % 128 + 128 * Value([]);
  }

  function Varint(n: nat): (r: seq<Byte>)
    ensures r != []
  {
    if n < 128 then [n] else [n % 128 + 128] + Varint(n / 128)
  }

  /** How many bytes a varint takes. */
  function VarintLength(n: nat): nat {
    if n < 128 then 1 else 1 + VarintLength(n / 128)
  }

  lemma {:induction false} VarintSize(n: nat)
    ensures |Varint(n)| == VarintLength(n)
  {
    if n >= 128 {
      VarintSize(n / 128);
    }
  }

  lemma {:induction false} VarintLengthBound(n: nat, k: nat)
    requires k > 0 && n < Pow2(7 * k)
    ensures VarintLength(n) <= k
    decreases k
  {
    if n >= 128 {
      if k == 1 {
        Pow2Seven(0);
      } else {
        Pow2Seven(7 * (k - 1));
        assert 7 * k == 7 * (k - 1) + 7;
        VarintLengthBound(n / 128, k - 1);
      }
    }
  }

  /** The leading bytes that announce another. */
  function Leading(data: seq<Byte>): (k: nat)
    ensures k <= |data|
    ensures forall i :: 0 <= i < k ==> Continues(data[i])
    ensures k < |data| ==> !Continues(data[k])
  {
    if data != [] && Continues(data[0]) then 1 + Leading(data[1..]) else 0
  }

  lemma {:induction false} VarintParses(n: nat, rest: seq<Byte>)
    ensures Leading(Varint(n) + rest) == |Varint(n)| - 1
    ensures Value(Varint(n)) == n
  {
    var data := Varint(n) + rest;
    if n < 128 {
      assert Varint(n)[1..] == [];
    } else {
      assert data[1..] == Varint(n / 128) + rest;
      assert Varint(n)[1..] == Varint(n / 128);
      VarintParses(n / 128, rest);
    }
  }

  lemma LengthsFit(n: nat)
    requires n < U64_LIMIT
    ensures |Varint(n)| <= MAX_PREFIX
  {
    Pow2Limits();
    Pow2Monotone(64, 70);
    VarintSize(n);
    VarintLengthBound(n, 10);
  }

  // Core's encoder.

  function Frame(payload: seq<Byte>): seq<Byte> {
    Varint(|payload|) + payload
  }

  method Encode(payload: seq<Byte>) returns (frame: seq<Byte>)
    ensures frame == Frame(payload)
  {
    frame := [];
    var length: nat := |payload|;
    while length >= 128
      invariant frame + Varint(length) == Varint(|payload|)
    {
      frame := frame + [length % 128 + 128];
      length := length / 128;
    }
    frame := frame + [length];
    frame := frame + payload;
  }

  // 64-bit accumulation.

  /** `length |= (byte & 0x7f) << shift` in 64 bits: the bits do not overlap, so the or is a sum. */
  function Accumulate(length: nat, b: Byte, shift: nat): nat {
    length + ((b % 128) * Pow2(shift)) % U64_LIMIT
  }

  lemma AccumulateSnoc(prefix: seq<Byte>, b: Byte)
    requires |prefix| < MAX_PREFIX
    ensures Accumulate(Value(prefix) % U64_LIMIT, b, 7 * |prefix|) == Value(prefix + [b]) % U64_LIMIT
  {
    hide Value, Pow2;
    ValueSnoc(prefix, b);
    ValueBound(prefix);
    ShiftPower(|prefix|);
    ShiftSum(b % 128, Pow2(7 * |prefix|), Value(prefix));
  }

  lemma ShiftPower(k: nat)
    requires k <= 9
    ensures k < 9 ==> 128 * Pow2(7 * k) <= 0x8000_0000_0000_0000
    ensures k == 9 ==> Pow2(7 * k) == 0x8000_0000_0000_0000
  {
    Pow2Limits();
    if k < 9 {
      Pow2Monotone(7 * k, 56);
      Pow2Seven(56);
    }
  }

  /** A shift of at most 56 places keeps all the bits; at the tenth byte only the lowest bit survives it. */
  lemma ShiftSum(bits: nat, power: nat, low: nat)
    requires bits < 128 && low < power
    requires 128 * power <= 0x8000_0000_0000_0000 || power == 0x8000_0000_0000_0000
    ensures low % U64_LIMIT + (bits * power) % U64_LIMIT == (low + bits * power) % U64_LIMIT
  {
    var half := 0x8000_0000_0000_0000;
    var q, r := if power == half then bits / 2 else 0, if power == half then (bits % 2) * half else bits * power;
    if power == half {
      assert bits * half == q * U64_LIMIT + r;
    } else {
      assert bits * power <= 127 * power;
    }
    RemainderOf(q, low + r);
    RemainderOf(q, r);
    RemainderOf(0, low);
  }

  lemma RemainderOf(q: nat, r: nat)
    requires r < U64_LIMIT
    ensures (q * U64_LIMIT + r) % U64_LIMIT == r
  {
  }

  // Whole-frame decoding.

  function Decoded(frame: seq<Byte>): Result<seq<Byte>, FrameError> {
    var k := Leading(frame);
    if k >= MAX_PREFIX then Err(InvalidLength)
    else
      var offset := if k < |frame| then k + 1 else k;
      if Value(frame[..offset]) % U64_LIMIT == |frame| - offset then Ok(frame[offset..]) else Err(LengthMismatch)
  }

  method Decode(frame: seq<Byte>) returns (r: Result<seq<Byte>, FrameError>)
    ensures r == Decoded(frame)
  {
    var length: nat := 0;
    var shift: nat := 0;
    var offset := 0;
    var open := true;
    while open && offset < |frame|
      invariant 0 <= offset <= |frame|
      invariant offset < MAX_PREFIX || !open
      invariant offset <= MAX_PREFIX
      invariant length == Value(frame[..offset]) % U64_LIMIT
      invariant open ==> shift == 7 * offset
      invariant open ==> forall i :: 0 <= i < offset ==> Continues(frame[i])
      invariant !open ==> offset > 0 && !Continues(frame[offset - 1])
      invariant !open ==> forall i :: 0 <= i < offset - 1 ==> Continues(frame[i])
      decreases |frame| - offset, open
    {
      var b := frame[offset];
      AccumulateSnoc(frame[..offset], b);
      assert frame[..offset + 1] == frame[..offset] + [b];
      length := Accumulate(length, b, shift);
      offset := offset + 1;
      if !Continues(b) {
        open := false;
      } else {
        shift := shift + 7;
        if shift >= 64 {
          LeadingAtLeast(frame, offset);
          return Err(InvalidLength);
        }
      }
    }
    LeadingIs(frame, offset, open);
    var payload := frame[offset..];
    return if length != |payload| then Err(LengthMismatch) else Ok(payload);
  }

  lemma {:induction false} LeadingAtLeast(data: seq<Byte>, k: nat)
    requires k <= |data| && forall i :: 0 <= i < k ==> Continues(data[i])
    ensures Leading(data) >= k
  {
  }

  lemma LeadingIs(data: seq<Byte>, offset: nat, open: bool)
    requires offset <= |data|
    requires if open then offset == |data| && forall i :: 0 <= i < offset ==> Continues(data[i])
             else offset > 0 && !Continues(data[offset - 1]) && forall i :: 0 <= i < offset - 1 ==> Continues(data[i])
    ensures Leading(data) == if open then offset else offset - 1
  {
  }

  // Stream reading.

  /** What a reader finds at the head of a stream, and how much of the stream a delivered frame takes. */
  function ReadAt(data: seq<Byte>): Result<Option<(seq<Byte>, nat)>, FrameError> {
    if data == [] then Ok(None)
    else
      var k := Leading(data);
      if k >= MAX_PREFIX then Err(InvalidLength)
      else if k == |data| then Err(UnexpectedEof)
      else
        var length := Value(data[..k + 1]) % U64_LIMIT;
        if length > I64_MAX then Err(CapacityOverflow)
        else if k + 1 + length > |data| then Err(UnexpectedEof)
        else Ok(Some((data[k + 1..k + 1 + length], k + 1 + length)))
  }

  /** The payload size the JVM reader takes from 64 length bits: a value above the array limit is refused unless the
      sign bit is set, and then its low 32 bits count, refused in turn when they read as negative. */
  function JvmLength(bits: nat): Result<nat, FrameError>
    requires bits < U64_LIMIT
  {
    if INT_MAX < bits < 0x8000_0000_0000_0000 then Err(ExceedsArrayLimit)
    else if bits % U32_LIMIT > INT_MAX then Err(InvalidLength)
    else Ok(bits % U32_LIMIT)
  }

  /** What the JVM reader finds at the head of a stream. */
  function JvmReadAt(data: seq<Byte>): Result<Option<(seq<Byte>, nat)>, FrameError> {
    if data == [] then Ok(None)
    else
      var k := Leading(data);
      if k >= MAX_PREFIX then Err(InvalidLength)
      else if k == |data| then Err(UnexpectedEof)
      else
        match JvmLength(Value(data[..k + 1]) % U64_LIMIT)
        case Err(e) => Err(e)
        case Ok(length) =>
          if k + 1 + length > |data| then Err(UnexpectedEof)
          else Ok(Some((data[k + 1..k + 1 + length], k + 1 + length)))
  }

  lemma SliceOfTail(data: seq<Byte>, start: nat, from: nat, n: nat)
    requires start + from + n <= |data|
    ensures data[start + from..start + from + n] == data[start..][from..from + n]
  {
  }

  /** A byte stream being consumed. */
  class ByteStream {
    const data: seq<Byte>
    var position: nat

    ghost predicate Valid()
      reads this
    {
      position <= |data|
    }

    constructor (bytes: seq<Byte>)
      ensures Valid() && data == bytes && position == 0
    {
      data := bytes;
      position := 0;
    }

    method ReadByte() returns (b: Option<Byte>)
      requires Valid()
      modifies this
      ensures Valid()
      ensures old(position) < |data| ==> b == Some(data[old(position)]) && position == old(position) + 1
      ensures old(position) == |data| ==> b == None && position == old(position)
    {
      if position == |data| {
        return None;
      }
      b := Some(data[position]);
      position := position + 1;
    }

    method ReadExact(n: nat) returns (bytes: Option<seq<Byte>>)
      requires Valid()
      modifies this
      ensures Valid()
      ensures old(position) + n <= |data| ==>
        bytes == Some(data[old(position)..old(position) + n]) && position == old(position) + n
      ensures old(position) + n > |data| ==> bytes == None && position == |data|
    {
      if position + n > |data| {
        position := |data|;
        return None;
      }
      bytes := Some(data[position..position + n]);
      position := position + n;
    }

    /** Core's `read_frame`. */
    method ReadFrame() returns (r: Result<Option<seq<Byte>>, FrameError>)
      requires Valid()
      modifies this
      ensures Valid()
      ensures var found := ReadAt(data[old(position)..]);
        match found
        case Ok(None) => r == Ok(None) && position == old(position)
        case Ok(Some((payload, size))) => r == Ok(Some(payload)) && position == old(position) + size
        case Err(e) => r == Err(e)
    {
      hide Value, Pow2, Leading, Accumulate;
      ghost var start := position;
      var first := ReadByte();
      if first.None? {
        return Ok(None);
      }
      ghost var rest := data[start..];
      var prefix := [first.value];
      while Continues(prefix[|prefix| - 1])
        invariant Valid() && position == start + |prefix|
        invariant 1 <= |prefix| <= MAX_PREFIX && |prefix| <= |rest| && prefix == rest[..|prefix|]
        invariant forall i :: 0 <= i < |prefix| - 1 ==> Continues(prefix[i])
        decreases MAX_PREFIX - |prefix|
      {
        LeadingAtLeast(rest, |prefix|);
        if |prefix| == MAX_PREFIX {
          return Err(InvalidLength);
        }
        var next := ReadByte();
        if next.None? {
          return Err(UnexpectedEof);
        }
        prefix := prefix + [next.value];
      }
      LeadingIs(rest, |prefix|, false);
      var length := Assemble(prefix);
      if length > I64_MAX {
        return Err(CapacityOverflow);
      }
      var payload := ReadExact(length);
      if payload.None? {
        return Err(UnexpectedEof);
      }
      SliceOfTail(data, start, |prefix|, length);
      return Ok(Some(payload.value));
    }

    /** The JVM worker's reader. Lengths are signed 64-bit there, and the payload size is cut to 32 bits. */
    method ReadJvm() returns (r: Result<Option<seq<Byte>>, FrameError>)
      requires Valid()
      modifies this
      ensures Valid()
      ensures var found := JvmReadAt(data[old(position)..]);
        match found
        case Ok(None) => r == Ok(None) && position == old(position)
        case Ok(Some((payload, size))) => r == Ok(Some(payload)) && position == old(position) + size
        case Err(e) => r == Err(e)
    {
      hide Value, Pow2, Leading, Accumulate;
      ghost var start := position;
      var first := ReadByte();
      if first.None? {
        return Ok(None);
      }
      ghost var rest := data[start..];
      var current := first.value;
      var length: nat := current % 128;
      var shift := 7;
      ghost var prefix: seq<Byte> := [current];
      ValueOfOne(current);
      while Continues(current)
        invariant Valid() && position == start + |prefix|
        invariant 1 <= |prefix| <= MAX_PREFIX && |prefix| <= |rest| && prefix == rest[..|prefix|]
        invariant current == prefix[|prefix| - 1] && shift == 7 * |prefix|
        invariant length == Value(prefix) % U64_LIMIT
        invariant forall i :: 0 <= i < |prefix| - 1 ==> Continues(prefix[i])
        decreases MAX_PREFIX - |prefix|
      {
        LeadingAtLeast(rest, |prefix|);
        if shift >= 64 {
          return Err(InvalidLength);
        }
        var next := ReadByte();
        if next.None? {
          return Err(UnexpectedEof);
        }
        current := next.value;
        AccumulateSnoc(prefix, current);
        length := Accumulate(length, current, shift);
        prefix := prefix + [current];
        shift := shift + 7;
      }
      LeadingIs(rest, |prefix|, false);
      var size := JvmLength(length);
      if size.Err? {
        return Err(size.error);
      }
      var payload := ReadExact(size.value);
      if payload.None? {
        return Err(UnexpectedEof);
      }
      SliceOfTail(data, start, |prefix|, size.value);
      return Ok(Some(payload.value));
    }
  }

  /** Folds a complete prefix into a 64-bit length. */
  method Assemble(prefix: seq<Byte>) returns (length: nat)
    requires |prefix| <= MAX_PREFIX
    ensures length == Value(prefix) % U64_LIMIT
  {
    length := 0;
    for i := 0 to |prefix|
      invariant length == Value(prefix[..i]) % U64_LIMIT
    {
      AccumulateSnoc(prefix[..i], prefix[i]);
      assert prefix[..i + 1] == prefix[..i] + [prefix[i]];
      length := Accumulate(length, prefix[i], i * 7);
    }
    assert prefix[..|prefix|] == prefix;
  }

  // Round trips.

  function Frames(payloads: seq<seq<Byte>>): seq<Byte> {
    if payloads == [] then [] else Frame(payloads[0]) + Frames(payloads[1..])
  }

  /** An encoded frame at the head of a stream is read back, and nothing after it is touched, unless its payload is
      longer than any allocation. */
  lemma FrameReads(payload: seq<Byte>, rest: seq<Byte>)
    requires |payload| < U64_LIMIT
    ensures ReadAt(Frame(payload) + rest) ==
      if |payload| <= I64_MAX then Ok(Some((payload, |Frame(payload)|))) else Err(CapacityOverflow)
  {
    hide Varint, Value, Leading;
    var n := |payload|;
    var data := Frame(payload) + rest;
    assert data == Varint(n) + (payload + rest);
    VarintParses(n, payload + rest);
    LengthsFit(n);
    var k := |Varint(n)| - 1;
    assert data[..k + 1] == Varint(n);
    assert data[k + 1..k + 1 + n] == payload;
    SmallRemainder(n);
  }

  lemma SmallRemainder(n: nat)
    requires n < U64_LIMIT
    ensures n % U64_LIMIT == n
  {
  }

  /** What reading frame after frame delivers, and the error that ends it, if one does. */
  function Delivered(data: seq<Byte>): (seq<seq<Byte>>, Option<FrameError>)
    decreases |data|
  {
    match ReadAt(data)
    case Ok(None) => ([], None)
    case Err(e) => ([], Some(e))
    case Ok(Some((payload, size))) => var later := Delivered(data[size..]); ([payload] + later.0, later.1)
  }

  method ReadAll(data: seq<Byte>) returns (payloads: seq<seq<Byte>>, error: Option<FrameError>)
    ensures (payloads, error) == Delivered(data)
  {
    hide ReadAt;
    payloads := [];
    assert data[0..] == data;
    var stream := new ByteStream(data);
    while true
      invariant stream.Valid() && stream.data == data
      invariant payloads + Delivered(data[stream.position..]).0 == Delivered(data).0
      invariant Delivered(data[stream.position..]).1 == Delivered(data).1
      decreases |data| - stream.position
    {
      ghost var rest := data[stream.position..];
      assert payloads + [] == payloads;
      var r := stream.ReadFrame();
      if r.Err? {
        return payloads, Some(r.error);
      }
      if r.value.None? {
        return payloads, None;
      }
      ghost var size := ReadAt(rest).value.value.1;
      assert data[stream.position..] == rest[size..];
      ghost var later := Delivered(rest[size..]).0;
      assert payloads + ([r.value.value] + later) == payloads + [r.value.value] + later;
      payloads := payloads + [r.value.value];
    }
  }

  /** Any list of encoded frames read back to back is that list, and then a clean end, exactly when every payload is one
      that can be allocated. */
  lemma {:induction false} FramesRoundTrip(sent: seq<seq<Byte>>)
    requires forall p :: p in sent ==> |p| < U64_LIMIT
    ensures Delivered(Frames(sent)) == (sent, None) <==> forall p :: p in sent ==> |p| <= I64_MAX
  {
    if sent != [] {
      hide Frame, ReadAt, Delivered;
      DeliveredFirst(sent[0], Frames(sent[1..]));
      FramesRoundTrip(sent[1..]);
      assert sent == [sent[0]] + sent[1..];
      var later := Delivered(Frames(sent[1..]));
      assert ([sent[0]] + later.0)[1..] == later.0;
    }
  }

  lemma DeliveredFirst(payload: seq<Byte>, later: seq<Byte>)
    requires |payload| < U64_LIMIT
    ensures Delivered(Frame(payload) + later) ==
      if |payload| <= I64_MAX then ([payload] + Delivered(later).0, Delivered(later).1)
      else ([], Some(CapacityOverflow))
  {
    hide Frame, ReadAt;
    FrameReads(payload, later);
    assert (Frame(payload) + later)[|Frame(payload)|..] == later;
  }

  lemma FrameDecodes(payload: seq<Byte>)
    requires |payload| < U64_LIMIT
    ensures Decoded(Frame(payload)) == Ok(payload)
  {
    var n := |payload|;
    VarintParses(n, payload);
    LengthsFit(n);
    var k := |Varint(n)| - 1;
    assert Frame(payload)[..k + 1] == Varint(n);
    assert Frame(payload)[k + 1..] == payload;
  }

  // The two decoders.

  predicate Terminates(frame: seq<Byte>) {
    Leading(frame) < |frame|
  }

  predicate OnlyOpenZeroes(frame: seq<Byte>) {
    |frame| < MAX_PREFIX && forall i :: 0 <= i < |frame| ==> frame[i] == 128
  }

  lemma {:induction false} OpenValueZero(frame: seq<Byte>)
    requires forall i :: 0 <= i < |frame| ==> Continues(frame[i])
    ensures Value(frame) == 0 <==> forall i :: 0 <= i < |frame| ==> frame[i] == 128
  {
    if frame != [] {
      assert forall i :: 0 <= i < |frame| - 1 ==> frame[1..][i] == frame[i + 1];
      OpenValueZero(frame[1..]);
      if Value(frame) == 0 {
        forall i | 0 <= i < |frame| ensures frame[i] == 128 {
          if i > 0 { assert frame[i] == frame[1..][i - 1]; }
        }
      }
    }
  }

  /** The payload length a stream announces, when its prefix is complete. */
  function Announced(data: seq<Byte>): Option<nat> {
    var k := Leading(data);
    if k >= MAX_PREFIX || k >= |data| then None else Some(Value(data[..k + 1]) % U64_LIMIT)
  }

  /** A frame as it should be, but for a payload longer than any allocation. */
  predicate Oversized(frame: seq<Byte>, payload: seq<Byte>) {
    && Announced(frame) == Some(|payload|) && |payload| > I64_MAX
    && frame[Leading(frame) + 1..] == payload
  }

  /** The whole-frame decoder accepts exactly what the stream reader delivers as the whole stream, and besides it the
      empty input and a run of fewer than ten bare continuation bytes, which it takes for an empty payload. It allocates
      nothing, so it would accept a frame too long for any memory as well. */
  lemma DecodersDiffer(frame: seq<Byte>, payload: seq<Byte>)
    ensures Decoded(frame) == Ok(payload) <==>
      || ReadAt(frame) == Ok(Some((payload, |frame|)))
      || (OnlyOpenZeroes(frame) && payload == [])
      || Oversized(frame, payload)
  {
    var k := Leading(frame);
    if k == |frame| {
      assert frame[..k] == frame;
      OpenValueZero(frame);
      if k < MAX_PREFIX {
        ValueBound(frame);
        Pow2Limits();
        Pow2Monotone(7 * k, 63);
      }
    } else if k < MAX_PREFIX {
      var length := Value(frame[..k + 1]) % U64_LIMIT;
      if k + 1 + length == |frame| {
        assert frame[k + 1..k + 1 + length] == frame[k + 1..];
      }
    }
  }

  /** On a terminated prefix the two agree on errors too: both refuse an overlong prefix, and otherwise both accept
      exactly a frame whose length is right, if it can be allocated. */
  lemma DecodersAgree(frame: seq<Byte>)
    requires Terminates(frame)
    ensures Decoded(frame) == Err(InvalidLength) <==> ReadAt(frame) == Err(InvalidLength)
    ensures forall payload :: Decoded(frame) == Ok(payload) <==>
      ReadAt(frame) == Ok(Some((payload, |frame|))) || Oversized(frame, payload)
  {
    forall payload
      ensures Decoded(frame) == Ok(payload) <==>
        ReadAt(frame) == Ok(Some((payload, |frame|))) || Oversized(frame, payload)
    {
      DecodersDiffer(frame, payload);
      assert !Continues(frame[Leading(frame)]);
    }
  }

  // The JVM peer.

  method WriteJvm(payload: seq<Byte>) returns (frame: seq<Byte>)
    requires |payload| <= INT_MAX
    ensures frame == Frame(payload)
  {
    frame := [];
    var length: nat := |payload|;
    while length >= 128
      invariant frame + Varint(length) == Varint(|payload|)
    {
      frame := frame + [length % 128 + 128];
      length := length / 128;
    }
    frame := frame + [length] + payload;
    assert frame == Varint(|payload|) + payload;
  }

  /** The peers take the same payload size from a prefix exactly when it announces less than 2 to the 31. */
  lemma PeersAgreeExactly(data: seq<Byte>)
    requires Announced(data).Some?
    ensures JvmLength(Announced(data).value) == Ok(Announced(data).value) <==> Announced(data).value <= INT_MAX
  {
  }

  /** A stream whose next announced length, if there is one, is below 2 to the 31 reads alike on both sides. */
  lemma PeersReadAlike(data: seq<Byte>)
    requires Announced(data).Some? ==> Announced(data).value <= INT_MAX
    ensures JvmReadAt(data) == ReadAt(data)
  {
  }

  /** What the two readers find at the head of a stream is the same exactly when there is no complete prefix or it
      announces less than 2 to the 31. */
  lemma PeersReadAlikeExactly(data: seq<Byte>)
    ensures JvmReadAt(data) == ReadAt(data) <==> Announced(data).None? || Announced(data).value <= INT_MAX
  {
    hide Value, Leading, JvmLength;
    if Announced(data).Some? {
      PeersAgreeExactly(data);
      OtherErrors(Announced(data).value);
    }
  }

  lemma OtherErrors(bits: nat)
    requires bits < U64_LIMIT
    ensures JvmLength(bits).Err? ==> JvmLength(bits).error != UnexpectedEof && JvmLength(bits).error != CapacityOverflow
    ensures INT_MAX < bits <= I64_MAX ==> JvmLength(bits) == Err(ExceedsArrayLimit)
  {
  }

  /** Ten bytes, and no payload, that announce 2 to the 63 and five more. */
  const HugeAnnouncement: seq<Byte> := [0x85, 0x80, 0x80, 0x80, 0x80, 0x80, 0x80, 0x80, 0x80, 0x01]

  /** On them Core panics, when it allocates that many bytes, and the JVM worker waits for five. */
  lemma HugeAnnouncementPanics()
    ensures Announced(HugeAnnouncement) == Some(I64_MAX + 6)
    ensures ReadAt(HugeAnnouncement) == Err(CapacityOverflow)
    ensures JvmReadAt(HugeAnnouncement) == Err(UnexpectedEof)
  {
    hide Varint, Value, Leading, JvmLength;
    HugeVarint();
    var n := I64_MAX + 6;
    assert HugeAnnouncement == Varint(n) + [];
    VarintParses(n, []);
    LengthsFit(n);
    SmallRemainder(n);
    assert HugeAnnouncement[..10] == Varint(n);
    HugeIsFive();
  }

  lemma HugeIsFive()
    ensures JvmLength(I64_MAX + 6) == Ok(5)
  {
  }

  lemma HugeVarint()
    ensures Varint(I64_MAX + 6) == HugeAnnouncement
  {
    assert Varint(1) == [1];
    assert Varint(0x80) == [0x80] + Varint(1);
    assert Varint(0x4000) == [0x80] + Varint(0x80);
    assert Varint(0x20_0000) == [0x80] + Varint(0x4000);
    assert Varint(0x1000_0000) == [0x80] + Varint(0x20_0000);
    assert Varint(0x8_0000_0000) == [0x80] + Varint(0x1000_0000);
    assert Varint(0x400_0000_0000) == [0x80] + Varint(0x8_0000_0000);
    assert Varint(0x2_0000_0000_0000) == [0x80] + Varint(0x400_0000_0000);
    assert Varint(0x100_0000_0000_0000) == [0x80] + Varint(0x2_0000_0000_0000);
    assert Varint(I64_MAX + 6) == [0x85] + Varint(0x100_0000_0000_0000);
  }

  /** What either side writes, the JVM reader reads back, and nothing after it is touched. */
  lemma JvmFrameReads(payload: seq<Byte>, rest: seq<Byte>)
    requires |payload| <= INT_MAX
    ensures JvmReadAt(Frame(payload) + rest) == Ok(Some((payload, |Frame(payload)|)))
  {
    var n := |payload|;
    var data := Frame(payload) + rest;
    assert data == Varint(n) + (payload + rest);
    VarintParses(n, payload + rest);
    LengthsFit(n);
    var k := |Varint(n)| - 1;
    assert data[..k + 1] == Varint(n);
    FrameReads(payload, rest);
    PeersReadAlike(data);
  }
}
