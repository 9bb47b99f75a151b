/** The gateway's per-frame decision: first matching rule, drop or patch, and the repair of a CRC byte
    that a patch would otherwise break. */
module PatchRules {
  import opened Words
  import opened Bits

  const MAX_DATA := 8

  /** Eight payload bytes; `dlc` says how many of them a data frame carries. */
  type Payload = s: seq<bv8> | |s| == MAX_DATA witness [0, 0, 0, 0, 0, 0, 0, 0]

  datatype CanFrame = CanFrame(id: bv32, extended: bool, rtr: bool, dlc: nat, data: Payload)

  function Limit(dlc: nat): nat { Min(dlc, MAX_DATA) }

  // ----- CRC -----

  function CrcBit(crc: bv8, poly: bv8): bv8 {
    if crc & 0x80 != 0 then Xor8(crc << 1, poly) else crc << 1
  }

  function CrcBits(crc: bv8, poly: bv8, n: nat): bv8 {
    if n == 0 then crc else CrcBit(CrcBits(crc, poly, n - 1), poly)
  }

  /** MSB-first CRC-8 of `data` from the register value `init`. */
  function Crc(init: bv8, data: seq<bv8>, poly: bv8): bv8 {
    if data == [] then init
    else CrcBits(Xor8(Crc(init, data[..|data| - 1], poly), data[|data| - 1]), poly, 8)
  }

  function Xor(a: seq<bv8>, b: seq<bv8>): (c: seq<bv8>)
    requires |a| == |b|
    ensures |c| == |a|
  {
    seq(|a|, i requires 0 <= i < |a| => Xor8(a[i], b[i]))
  }

  lemma CrcBitLinear(x: bv8, y: bv8, poly: bv8)
    ensures CrcBit(Xor8(x, y), poly) == Xor8(CrcBit(x, poly), CrcBit(y, poly))
  {
    ShiftXor(x, y);
    TopXor(x, y);
    XorCancel(x << 1, y << 1, poly);
  }

  lemma {:induction false} CrcBitsLinear(x: bv8, y: bv8, poly: bv8, n: nat)
    ensures CrcBits(Xor8(x, y), poly, n) == Xor8(CrcBits(x, poly, n), CrcBits(y, poly, n))
  {
    if n > 0 {
      hide CrcBit, Xor8;
      CrcBitsLinear(x, y, poly, n - 1);
      CrcBitLinear(CrcBits(x, poly, n - 1), CrcBits(y, poly, n - 1), poly);
    }
  }

  lemma {:induction false} CrcLinear(x: bv8, a: seq<bv8>, y: bv8, b: seq<bv8>, poly: bv8)
    requires |a| == |b|
    ensures Crc(Xor8(x, y), Xor(a, b), poly) == Xor8(Crc(x, a, poly), Crc(y, b, poly))
  {
    if a != [] {
      var n := |a| - 1;
      var cx, cy := Crc(x, a[..n], poly), Crc(y, b[..n], poly);
      assert Xor(a, b)[..n] == Xor(a[..n], b[..n]);
      CrcLinear(x, a[..n], y, b[..n], poly);
      hide CrcBits, Xor8;
      assert Xor(a, b)[n] == Xor8(a[n], b[n]);
      XorSwap(cx, cy, a[n], b[n]);
      CrcBitsLinear(Xor8(cx, a[n]), Xor8(cy, b[n]), poly, 8);
    }
  }

  /** The CRC a sender really uses, with everything the gateway need not know. */
  datatype CrcParams = CrcParams(init: bv8, xorOut: bv8, dataId: seq<bv8>)

  function FullCrc(p: CrcParams, data: seq<bv8>, poly: bv8): bv8 {
    Xor8(Crc(p.init, p.dataId + data, poly), p.xorOut)
  }

  lemma {:induction false} CrcSplit(init: bv8, a: seq<bv8>, b: seq<bv8>, poly: bv8)
    ensures Crc(init, a + b, poly) == Crc(Crc(init, a, poly), b, poly)
  {
    if b == [] {
      assert a + b == a;
    } else {
      var n := |b| - 1;
      assert (a + b)[..|a + b| - 1] == a + b[..n];
      CrcSplit(init, a, b[..n], poly);
    }
  }

  /** The identity the repair rests on, for every polynomial, initial value, final xor, leading
      data-ID and length. */
  lemma CrcDelta(p: CrcParams, a: seq<bv8>, b: seq<bv8>, poly: bv8)
    requires |a| == |b|
    ensures FullCrc(p, b, poly) == Xor8(FullCrc(p, a, poly), Crc(0, Xor(a, b), poly))
  {
    hide Xor8;
    var c := Crc(p.init, p.dataId, poly);
    CrcSplit(p.init, p.dataId, a, poly);
    CrcSplit(p.init, p.dataId, b, poly);
    CrcLinear(c, a, c, b, poly);
    XorZero(c);
    XorBetween(Crc(c, a, poly), Crc(c, b, poly), p.xorOut);
  }

  method Crc8Linear(data: array<bv8>, len: nat, poly: bv8) returns (crc: bv8)
    requires len <= data.Length
    ensures crc == Crc(0, data[..len], poly)
  {
    crc := 0;
    var i := 0;
    while i < len
      invariant 0 <= i <= len
      invariant crc == Crc(0, data[..i], poly)
    {
      crc := Xor8(crc, data[i]);
      ghost var start := crc;
      var b := 0;
      while b < 8
        invariant 0 <= b <= 8
        invariant crc == CrcBits(start, poly, b)
      {
        crc := if crc & 0x80 != 0 then Xor8(crc << 1, poly) else crc << 1;
        b := b + 1;
      }
      assert data[..i + 1][..i] == data[..i];
      i := i + 1;
    }
  }

  // ----- patches and rules -----

  datatype PatchData = PatchData(newId: bv32, replaceId: bool, newExtended: bool, andMask: Payload, orValue: Payload)

  function Patched(andMask: Payload, orValue: Payload, data: Payload, limit: nat): Payload {
    seq(MAX_DATA, i requires 0 <= i < MAX_DATA => if i < limit then (data[i] & andMask[i]) | orValue[i] else data[i])
  }

  function ApplyPatch(p: PatchData, f: CanFrame): CanFrame {
    var f1 := if p.replaceId then f.(id := p.newId, extended := p.newExtended) else f;
    if f.rtr then f1 else f1.(data := Patched(p.andMask, p.orValue, f.data, Limit(f.dlc)))
  }

  /** `None` for `index` means the rule has no end-to-end protection. */
  datatype E2e = E2e(index: Option<nat>, first: nat, last: nat, poly: bv8)

  predicate E2eApplies(e: E2e, limit: nat) {
    e.index.Some? && e.last < limit && e.index.value < limit && e.first <= e.last
  }

  function FixCrc(e: E2e, before: Payload, data: Payload, limit: nat): Payload
    requires limit <= MAX_DATA
  {
    if !E2eApplies(e, limit) then data
    else
      var delta := Xor(before[e.first..e.last + 1], data[e.first..e.last + 1]);
      data[e.index.value := Xor8(data[e.index.value], Crc(0, delta, e.poly))]
  }

  datatype Rule = Rule(
    matchId: bv32, matchMask: bv32, extended: bool, checkRtr: bool, rtrValue: bool,
    drop: bool, hasPatch: bool, e2e: E2e)
  {
    predicate Matches(f: CanFrame) {
      f.extended == extended && f.id & matchMask == matchId && (checkRtr ==> f.rtr == rtrValue)
    }
  }

  /** A rule table and, beside each rule, the patch in force for this frame. */
  datatype Table = Table(rules: seq<Rule>, patches: seq<PatchData>, defaultDrop: bool)

  ghost predicate TableOk(t: Table) { |t.patches| == |t.rules| }

  function MatchRule(rules: seq<Rule>, f: CanFrame): (i: nat)
    ensures i <= |rules|
    ensures i < |rules| ==> rules[i].Matches(f)
    ensures forall k :: 0 <= k < i ==> !rules[k].Matches(f)
  {
    if rules == [] || rules[0].Matches(f) then 0 else 1 + MatchRule(rules[1..], f)
  }

  function RulePatched(r: Rule, p: PatchData, f: CanFrame): CanFrame {
    var f1 := ApplyPatch(p, f);
    if r.e2e.index.Some? && !f.rtr then f1.(data := FixCrc(r.e2e, f.data, f1.data, Limit(f.dlc))) else f1
  }

  /** `None` when the frame is filtered out, else the frame to forward. */
  function ProcessFrame(t: Table, f: CanFrame): (r: Option<CanFrame>)
    requires TableOk(t)
  {
    var i := MatchRule(t.rules, f);
    if i == |t.rules| then (if t.defaultDrop then None else Some(f))
    else if t.rules[i].drop then None
    else if t.rules[i].hasPatch then Some(RulePatched(t.rules[i], t.patches[i], f))
    else Some(f)
  }

  /** How far a frame's CRC byte is from the CRC of its covered bytes; 0 for a valid frame. */
  function Syndrome(e: E2e, p: CrcParams, data: Payload): bv8
    requires e.index.Some? && e.index.value < MAX_DATA && e.first <= e.last < MAX_DATA
  {
    Xor8(data[e.index.value], FullCrc(p, data[e.first..e.last + 1], e.poly))
  }

  /** The patch leaves the CRC byte alone; configuration refuses a rule whose patch does not. */
  ghost predicate SparesCrc(e: E2e, p: PatchData) {
    e.index.Some? && e.index.value < MAX_DATA ==> p.andMask[e.index.value] == 0xFF && p.orValue[e.index.value] == 0
  }

  /** Valid frames stay valid, corrupt frames stay corrupt by exactly as much: for every CRC the
      sender may use over the covered bytes, the syndrome survives the patch. */
  lemma SyndromeSurvives(r: Rule, patch: PatchData, f: CanFrame, p: CrcParams)
    requires E2eApplies(r.e2e, Limit(f.dlc)) && !f.rtr && SparesCrc(r.e2e, patch)
    requires !(r.e2e.first <= r.e2e.index.value <= r.e2e.last)
    ensures Syndrome(r.e2e, p, RulePatched(r, patch, f).data) == Syndrome(r.e2e, p, f.data)
    ensures forall i :: 0 <= i < MAX_DATA && i != r.e2e.index.value ==>
              RulePatched(r, patch, f).data[i] == ApplyPatch(patch, f).data[i]
  {
    Identity(f.data[r.e2e.index.value]);
    hide Xor8, Crc;
    var e, i := r.e2e, r.e2e.index.value;
    var a, mid, out := f.data, ApplyPatch(patch, f).data, RulePatched(r, patch, f).data;
    var ca, cm := a[e.first..e.last + 1], mid[e.first..e.last + 1];
    assert out[e.first..e.last + 1] == cm;
    CrcDelta(p, ca, cm, e.poly);
    var x, fa, l := a[i], FullCrc(p, ca, e.poly), Crc(0, Xor(ca, cm), e.poly);
    XorCancel(x, fa, l);
  }

  /** A frame too short for the rule's coverage keeps its CRC byte as received. */
  lemma ShortFrameKeepsCrc(r: Rule, patch: PatchData, f: CanFrame)
    requires r.e2e.index.Some? && r.e2e.index.value < MAX_DATA && SparesCrc(r.e2e, patch)
    requires !E2eApplies(r.e2e, Limit(f.dlc))
    ensures RulePatched(r, patch, f).data[r.e2e.index.value] == f.data[r.e2e.index.value]
  {
    Identity(f.data[r.e2e.index.value]);
  }

  // ----- the in-place forms the interrupt runs -----

  method ApplyPatchInPlace(p: PatchData, f: CanFrame, data: array<bv8>) returns (id: bv32, extended: bool)
    requires data.Length == MAX_DATA && data[..] == f.data
    modifies data
    ensures CanFrame(id, extended, f.rtr, f.dlc, data[..]) == ApplyPatch(p, f)
  {
    id, extended := f.id, f.extended;
    if p.replaceId {
      id, extended := p.newId, p.newExtended;
    }
    if f.rtr {
      return;
    }
    var limit := Limit(f.dlc);
    var i := 0;
    while i < limit
      invariant 0 <= i <= limit
      invariant forall k :: 0 <= k < i ==> data[k] == (f.data[k] & p.andMask[k]) | p.orValue[k]
      invariant forall k :: i <= k < MAX_DATA ==> data[k] == f.data[k]
    {
      data[i] := (data[i] & p.andMask[i]) | p.orValue[i];
      i := i + 1;
    }
    assert data[..] == Patched(p.andMask, p.orValue, f.data, limit);
  }

  method FixCrcInPlace(e: E2e, before: array<bv8>, data: array<bv8>, limit: nat)
    requires before.Length == data.Length == MAX_DATA && before != data && limit <= MAX_DATA
    modifies data
    ensures data[..] == old(FixCrc(e, before[..], data[..], limit))
  {
    hide Xor8, Crc;
    if e.index.None? || e.last >= limit || e.index.value >= limit || e.first > e.last {
      return;
    }
    var delta := new bv8[MAX_DATA];
    var n := e.last - e.first + 1;
    ghost var was, now := before[..], data[..];
    ghost var a, b := was[e.first..e.last + 1], now[e.first..e.last + 1];
    var any: bv8 := 0;
    var i := 0;
    while i < n
      invariant 0 <= i <= n
      invariant delta[..i] == Xor(a, b)[..i]
      invariant any == 0 ==> forall k :: 0 <= k < i ==> delta[k] == 0
      invariant before[..] == was && data[..] == now
    {
      assert a[i] == was[e.first + i] && b[i] == now[e.first + i];
      delta[i] := Xor8(before[e.first + i], data[e.first + i]);
      OrZero(any, delta[i]);
      any := any | delta[i];
      i := i + 1;
    }
    assert delta[..n] == Xor(a, b);
    if any == 0 {
      CrcOfZeros(delta[..n], e.poly);
      XorZero(data[e.index.value]);
      assert data[..][e.index.value := data[e.index.value]] == data[..];
      return;
    }
    var l := Crc8Linear(delta, n, e.poly);
    data[e.index.value] := Xor8(data[e.index.value], l);
  }

  lemma CrcBitsOfZero(poly: bv8, n: nat)
    ensures CrcBits(0, poly, n) == 0
  {
  }

  lemma {:induction false} CrcOfZeros(data: seq<bv8>, poly: bv8)
    requires forall k :: 0 <= k < |data| ==> data[k] == 0
    ensures Crc(0, data, poly) == 0
  {
    if data != [] {
      CrcOfZeros(data[..|data| - 1], poly);
      CrcBitsOfZero(poly, 8);
      XorZero(0);
    }
  }

  method MatchRuleLoop(rules: seq<Rule>, f: CanFrame) returns (i: nat)
    ensures i == MatchRule(rules, f)
  {
    i := 0;
    while i < |rules|
      invariant i <= |rules|
      invariant forall k :: 0 <= k < i ==> !rules[k].Matches(f)
    {
      if rules[i].Matches(f) {
        FirstMatchIs(rules, f, i);
        return;
      }
      i := i + 1;
    }
    FirstMatchIs(rules, f, i);
  }

  lemma FirstMatchIs(rules: seq<Rule>, f: CanFrame, i: nat)
    requires i <= |rules| && (i < |rules| ==> rules[i].Matches(f))
    requires forall k :: 0 <= k < i ==> !rules[k].Matches(f)
    ensures MatchRule(rules, f) == i
  {
  }

  /** The whole decision on a payload buffer; `forward` is false for a filtered frame. */
  method ProcessFrameInPlace(t: Table, f: CanFrame, data: array<bv8>) returns (forward: bool, out: CanFrame)
    requires TableOk(t) && data.Length == MAX_DATA && data[..] == f.data
    modifies data
    ensures forward == ProcessFrame(t, f).Some?
    ensures forward ==> Some(out) == ProcessFrame(t, f) && data[..] == out.data
  {
    var i := MatchRuleLoop(t.rules, f);
    out := f;
    if i == |t.rules| {
      return !t.defaultDrop, f;
    }
    var rule := t.rules[i];
    if rule.drop {
      return false, f;
    }
    forward := true;
    if rule.hasPatch {
      var id, extended;
      if rule.e2e.index.Some? && !f.rtr {
        var limit := Limit(f.dlc);
        var before := new bv8[MAX_DATA](_ => 0);
        var k := 0;
        while k < limit
          invariant 0 <= k <= limit
          invariant data[..] == f.data
          invariant before[..k] == f.data[..k]
        {
          before[k] := data[k];
          k := k + 1;
        }
        id, extended := ApplyPatchInPlace(t.patches[i], f, data);
        OnlyBelowLimit(rule.e2e, before[..], f.data, data[..], limit);
        FixCrcInPlace(rule.e2e, before, data, limit);
      } else {
        id, extended := ApplyPatchInPlace(t.patches[i], f, data);
      }
      out := CanFrame(id, extended, f.rtr, f.dlc, data[..]);
    }
  }

  /** The saved copy is only filled below the DLC, and only that part is ever read. */
  lemma OnlyBelowLimit(e: E2e, saved: Payload, whole: Payload, data: Payload, limit: nat)
    requires limit <= MAX_DATA && saved[..limit] == whole[..limit]
    ensures FixCrc(e, saved, data, limit) == FixCrc(e, whole, data, limit)
  {
    if E2eApplies(e, limit) {
      assert saved[e.first..e.last + 1] == saved[..limit][e.first..e.last + 1];
      assert whole[e.first..e.last + 1] == whole[..limit][e.first..e.last + 1];
    }
  }
}
