/** Exactly what each reader makes of bytes, told over the bytes themselves: which frames it delivers, and which error
    it reports otherwise. */
module FramingOutcome {
  import opened Prelude
  import opened Framing

  /** The prefix ends at place `k`: it is the first byte whose high bit is clear. */
  predicate EndsAt(data: seq<Byte>, k: nat) {
    k < |data| && data[k] < 128 && forall i :: 0 <= i < k ==> data[i] >= 128
  }

  /** Ten bytes, all of which say that the prefix goes on. */
  predicate TooLong(data: seq<Byte>) {
    |data| >= 10 && forall i :: 0 <= i < 10 ==> data[i] >= 128
  }

  /** The stream ends inside its prefix. */
  predicate CutShort(data: seq<Byte>) {
    0 < |data| < 10 && forall i :: 0 <= i < |data| ==> data[i] >= 128
  }

  /** The length that a prefix ending at place `k` announces. */
  function LengthAt(data: seq<Byte>, k: nat): nat
    requires k < |data|
  {
    Value(data[..k + 1]) % 0x1_0000_0000_0000_0000
  }

  lemma LeadingExactly(data: seq<Byte>, k: nat)
    ensures EndsAt(data, k) <==> k == Leading(data) < |data|
    ensures TooLong(data) <==> Leading(data) >= 10
    ensures CutShort(data) <==> data != [] && Leading(data) == |data| < 10
  {
    if EndsAt(data, k) {
      LeadingIs(data, k + 1, false);
    }
    if TooLong(data) {
      LeadingAtLeast(data, 10);
    }
    if CutShort(data) {
      LeadingIs(data, |data|, true);
    }
  }

  /** Core's stream reader tells a clean end exactly at the end of the stream. It delivers a frame exactly when a prefix
      of at most ten bytes ends, the length fits a signed 64-bit number, and that many bytes follow. */
  lemma ReadExactly(data: seq<Byte>, k: nat)
    ensures ReadAt(data) == Ok(None) <==> data == []
    ensures ReadAt(data) == Err(InvalidLength) <==> TooLong(data)
    ensures CutShort(data) ==> ReadAt(data) == Err(UnexpectedEof)
    ensures k < 10 && EndsAt(data, k) ==>
      ReadAt(data) ==
        if LengthAt(data, k) > 0x7FFF_FFFF_FFFF_FFFF then Err(CapacityOverflow)
        else if k + 1 + LengthAt(data, k) > |data| then Err(UnexpectedEof)
        else Ok(Some((data[k + 1..k + 1 + LengthAt(data, k)], k + 1 + LengthAt(data, k))))
    ensures data == [] || TooLong(data) || CutShort(data) || exists i: nat :: i < 10 && EndsAt(data, i)
  {
    hide Value, Leading, EndsAt, TooLong, CutShort;
    LeadingExactly(data, k);
    LeadingExactly(data, Leading(data));
  }

  /** The JVM reader differs only in the lengths it takes: above 2 to the 31 it refuses a positive length, and takes the
      low 32 bits of one that reads as negative. */
  lemma JvmReadExactly(data: seq<Byte>, k: nat)
    ensures JvmReadAt(data) == Ok(None) <==> data == []
    ensures TooLong(data) ==> JvmReadAt(data) == Err(InvalidLength)
    ensures CutShort(data) ==> JvmReadAt(data) == Err(UnexpectedEof)
    ensures k < 10 && EndsAt(data, k) ==>
      var length := LengthAt(data, k);
      var low := length % 0x1_0000_0000;
      JvmReadAt(data) ==
        if 0x7FFF_FFFF < length < 0x8000_0000_0000_0000 then Err(ExceedsArrayLimit)
        else if low > 0x7FFF_FFFF then Err(InvalidLength)
        else if k + 1 + low > |data| then Err(UnexpectedEof)
        else Ok(Some((data[k + 1..k + 1 + low], k + 1 + low)))
  {
    hide Value, Leading, EndsAt, TooLong, CutShort;
    LeadingExactly(data, k);
  }

  /** The whole-frame decoder takes the end of the input for the end of an open prefix, and otherwise demands that the
      payload has exactly the announced length. */
  lemma DecodeExactly(frame: seq<Byte>, k: nat)
    ensures Decoded(frame) == Err(InvalidLength) <==> TooLong(frame)
    ensures frame == [] || CutShort(frame) ==>
      Decoded(frame) == if Value(frame) % 0x1_0000_0000_0000_0000 == 0 then Ok([]) else Err(LengthMismatch)
    ensures k < 10 && EndsAt(frame, k) ==>
      Decoded(frame) ==
        if LengthAt(frame, k) == |frame| - (k + 1) then Ok(frame[k + 1..]) else Err(LengthMismatch)
  {
    hide Value, EndsAt, TooLong, CutShort;
    LeadingExactly(frame, k);
    if frame == [] || CutShort(frame) {
      assert frame[..|frame|] == frame && frame[|frame|..] == [];
    }
  }
}
