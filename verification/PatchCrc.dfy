/** Runtime patches and the CRC repair together: a rule that configuration accepts keeps valid frames valid
    through every run of its setters. */
module PatchCrc {
  import opened Bits
  import opened PatchRules
  import opened SignalGeometry
  import opened RulePatches
  import opened PatchBoot

  /** What configuration demands of end-to-end protection: the CRC byte outside its range and patched by
      no entry. */
  ghost predicate E2eOk(e: E2e, r: PatchRule) {
    e.index.Some? ==>
      && e.index.value < MAX_DATA && e.first <= e.last < MAX_DATA && !(e.first <= e.index.value <= e.last)
      && forall pos :: 0 <= pos < PAYLOAD_BITS && pos / 8 == e.index.value ==> !Claimed(r, |r.bytes|, |r.signals|, pos)
  }

  /** A byte without a declared bit is out of every patch's reach. */
  lemma UndeclaredByte(p: PatchData, declared: Payload, index: nat)
    requires Fenced(p, declared) && index < MAX_DATA
    requires forall pos :: 0 <= pos < PAYLOAD_BITS && pos / 8 == index ==> !BitAt(declared, pos)
    ensures p.andMask[index] == 0xFF && p.orValue[index] == 0
  {
    forall j | 0 <= j < 8 ensures Bit(p.andMask[index], j) && !Bit(p.orValue[index], j) {
      PositionParts(index, j);
      var pos := 8 * index + j;
      assert !BitAt(declared, pos);
      assert BitAt(p.andMask, pos) && !BitAt(p.orValue, pos);
    }
    forall j | 0 <= j < 8 ensures Bit(0xFF, j) && !Bit(0, j) {
      BitOfZero(j);
    }
    hide Bit;
    SameBits(p.andMask[index], 0xFF);
    SameBits(p.orValue[index], 0);
  }

  /** After any run of setters and commits, a frame the rule's protection covers leaves with the syndrome it
      came with, for every CRC the sender may use: valid frames stay valid, corrupt ones corrupt. */
  lemma CrcSurvivesEveryRun(r: PatchRule, boot: PatchData, ops: seq<Op>, rule: Rule, f: CanFrame, p: CrcParams)
    requires ConfigOk(r) && E2eOk(rule.e2e, r) && OpsKnown(r, ops)
    requires boot.andMask == Packed(r, |r.bytes|, |r.signals|).andMask && boot.orValue == Packed(r, |r.bytes|, |r.signals|).orValue
    requires E2eApplies(rule.e2e, Limit(f.dlc)) && !f.rtr
    ensures var declared := Packed(r, |r.bytes|, |r.signals|).declared;
      var patch := BanksAfter(Banks(boot, boot), r, declared, ops).published;
      Syndrome(rule.e2e, p, RulePatched(rule, patch, f).data) == Syndrome(rule.e2e, p, f.data)
  {
    var declared := Packed(r, |r.bytes|, |r.signals|).declared;
    BootRefines(r, boot);
    hide Packed, RuleOk, Refines, Syndrome, Claimed, BitAt;
    assert Fenced(boot, declared) by { RefinesFenced(boot, r, declared); }
    FencedRun(Banks(boot, boot), r, declared, ops);
    var patch := BanksAfter(Banks(boot, boot), r, declared, ops).published;
    hide Fenced, BanksAfter;
    UndeclaredByte(patch, declared, rule.e2e.index.value);
    SyndromeSurvives(rule, patch, f, p);
  }

  lemma RefinesFenced(boot: PatchData, r: PatchRule, declared: Payload)
    requires Refines(Banks(boot, boot), Settings(BootValues(r), BootValues(r)), r, declared)
    ensures Fenced(boot, declared)
  {
  }
}
