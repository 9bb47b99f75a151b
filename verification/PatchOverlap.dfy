/** A byte entry beside a signal in one payload byte. Configuration accepts the pair, as no bit is claimed
    twice, but the byte setter does not keep to the bits of its entry. */
module PatchOverlap {
  import opened Words
  import opened Bits
  import opened Binary
  import opened PatchRules
  import opened SignalGeometry
  import opened SignalExtract
  import opened RulePatches
  import opened PatchBoot

  /** Zero written to a byte zeroes every switched-on signal inside it. */
  lemma ZeroTakesOver(p: PatchData, index: nat, f: Field, raw: nat)
    requires Shows(p, f, Some(raw)) && forall s :: 0 <= s < Visits(f) ==> VisitAt(f, s).byteIndex == index
    ensures Shows(ByteSet(p, index, 0), f, Some(0))
  {
    var q := ByteSet(p, index, 0);
    hide ByteSet, BitAt, Visits, Bit;
    forall s | 0 <= s < Visits(f)
      ensures CellAt(q, Position(VisitAt(f, s))) == Stamp(RawBit(0, VisitAt(f, s).k)) {
      var v := VisitAt(f, s);
      PositionParts(v.byteIndex, v.bit);
      ByteSetAt(p, index, 0, Position(v));
      BitOfZero(v.bit);
      NoRawBit(v.k);
      hide RawBit;
      assert CellAt(p, Position(v)) == Stamp(RawBit(raw, v.k));
    }
  }

  lemma {:induction false} NoRawBit(k: nat)
    ensures !RawBit(0, k)
  {
    if k > 0 { NoRawBit(k - 1); }
  }

  const Upper := Field(4, 4, false)

  /** A byte entry for the lower half of byte 0 and a signal in its upper half. */
  const Halves := PatchRule([BytePatch(0, 0, 0x0F)], [SignalPatch(Upper, None)])

  lemma UpperHalf()
    ensures Visits(Upper) == 4 && Fits(Upper)
    ensures forall s :: 0 <= s < 4 ==> VisitAt(Upper, s).byteIndex == 0 && 4 <= VisitAt(Upper, s).bit
  {
  }

  lemma HalvesAccepted()
    ensures ConfigOk(Halves)
  {
    UpperHalf();
    forall pos: nat | ByteClaims(Halves.bytes[0], pos) ensures !Covers(Upper, pos) {
      assert pos / 8 == 0 && pos % 8 < 4 by { LowerHalf(pos % 8); }
      hide VisitAt, Visits;
      assert forall s :: 0 <= s < Visits(Upper) ==> Position(VisitAt(Upper, s)) >= 4;
    }
    hide ByteClaims, Covers;
  }

  lemma LowerHalf(j: nat)
    requires j < 8 && Bit(0x0F, j)
    ensures j < 4
  {
  }

  /** The signal is set to five and the byte to zero, and both are committed: the signal reads zero. */
  lemma SignalLost(boot: PatchData, frame: CanFrame)
    requires ConfigOk(Halves) && !frame.rtr && Limit(frame.dlc) > 0
    requires boot.andMask == Packed(Halves, 1, 1).andMask && boot.orValue == Packed(Halves, 1, 1).orValue
    ensures var ops, declared := [SetSignal(0, 5, true), SetByte(0, 0), Commit], Packed(Halves, 1, 1).declared;
      && OpsKnown(Halves, ops) && Fits(Upper)
      && ValueOf(Upper, ApplyPatch(BanksAfter(Banks(boot, boot), Halves, declared, ops).published, frame).data, frame.dlc) == 0
  {
    var declared := Packed(Halves, 1, 1).declared;
    var ops := [SetSignal(0, 5, true), SetByte(0, 0), Commit];
    UpperHalf();
    BootRefines(Halves, boot);
    HalvesRun(boot, declared);
    hide Packed, BanksAfter, Visits, VisitAt, Fits;
    PublishedReadsZero(BanksAfter(Banks(boot, boot), Halves, declared, ops).published, declared, frame);
  }

  lemma HalvesRun(boot: PatchData, declared: Payload)
    requires RuleOk(Halves, declared) && Fenced(boot, declared)
    ensures var ops := [SetSignal(0, 5, true), SetByte(0, 0), Commit];
      OpsKnown(Halves, ops) &&
      var p := BanksAfter(Banks(boot, boot), Halves, declared, ops).published;
      Shows(p, Upper, Some(0)) && Fenced(p, declared)
  {
    var first, second := SetSignal(0, 5, true), SetByte(0, 0);
    var start := Banks(boot, boot);
    UpperHalf();
    assert Halves.signals[0].field == Upper;
    hide SignalSet, ByteSet, VisitAt, Visits, Fits, Shows, Fenced;
    SetThenShows(boot, declared, Upper, 5, true);
    var p1 := SignalSet(boot, declared, Upper, 5, true);
    ZeroTakesOver(p1, 0, Upper, 5);
    SignalSetFenced(boot, declared, Upper, 5, true);
    ByteSetFenced(p1, declared, 0, 0);
    hide RuleOk, BanksAfter;
    OneMore(start, declared, [], first);
    OneMore(start, declared, [first], second);
    OneMore(start, declared, [first, second], Commit);
    assert [] + [first] == [first] && [first] + [second] == [first, second];
    assert [first, second] + [Commit] == [first, second, Commit];
    assert BanksAfter(start, Halves, declared, []) == start by { Before(start, declared); }
  }

  lemma Before(b: Banks, declared: Payload)
    ensures BanksAfter(b, Halves, declared, []) == b
  {
  }

  lemma OneMore(b: Banks, declared: Payload, ops: seq<Op>, op: Op)
    requires OpsKnown(Halves, ops) && (op.SetSignal? ==> op.signal == 0)
    ensures OpsKnown(Halves, ops + [op])
    ensures BanksAfter(b, Halves, declared, ops + [op]) == Applied(BanksAfter(b, Halves, declared, ops), Halves, declared, op)
  {
    assert (ops + [op])[..|ops|] == ops;
    hide Staged;
  }

  lemma PublishedReadsZero(p: PatchData, declared: Payload, frame: CanFrame)
    requires Shows(p, Upper, Some(0)) && Fenced(p, declared) && !frame.rtr && Limit(frame.dlc) > 0
    ensures Fits(Upper) && ValueOf(Upper, ApplyPatch(p, frame).data, frame.dlc) == 0
  {
    UpperHalf();
    hide Shows, Fenced, ValueOf, ApplyPatch, VisitAt, Visits, Fits;
    FieldReadBack(p, declared, Upper, Some(0), frame);
  }
}
