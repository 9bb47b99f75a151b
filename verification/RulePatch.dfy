/** Patches that change while frames flow: two banks behind one index, a byte setter, a signal setter
    fenced in by the rule's declared bits, and the commit that publishes everything staged at once. */
module RulePatches {
  import opened Words
  import opened Bits
  import opened Binary
  import opened PatchRules
  import opened SignalGeometry
  import opened SignalExtract

  const MAX_STANDARD_ID: bv32 := 0x7FF
  const MAX_EXTENDED_ID: bv32 := 0x1FFF_FFFF

  // ----- staging, on values -----

  function ByteSet(p: PatchData, index: nat, value: bv8): PatchData {
    if index >= MAX_DATA then p else p.(orValue := p.orValue[index := value & !p.andMask[index]])
  }

  function IdSet(p: PatchData, id: bv32): PatchData {
    p.(newId := id & if p.newExtended then MAX_EXTENDED_ID else MAX_STANDARD_ID)
  }

  /** One mask byte and one value byte after a signal with bits `b` under the fenced mask `m`. */
  function AndByte(a: bv8, m: bv8, enabled: bool): bv8 {
    if enabled then Clear8(a, m) else Raise8(a, m)
  }

  function OrByte(o: bv8, m: bv8, b: bv8, enabled: bool): bv8 {
    if enabled then Merge8(o, b, m) else Clear8(o, m)
  }

  function Stamped(p: PatchData, declared: Payload, mask: Payload, bits: Payload, enabled: bool): PatchData {
    p.(andMask := seq(MAX_DATA, i requires 0 <= i < MAX_DATA =>
                        AndByte(p.andMask[i], Both8(mask[i], declared[i]), enabled)),
       orValue := seq(MAX_DATA, i requires 0 <= i < MAX_DATA =>
                        OrByte(p.orValue[i], Both8(mask[i], declared[i]), bits[i], enabled)))
  }

  function SignalSet(p: PatchData, declared: Payload, f: Field, raw: nat, enabled: bool): PatchData {
    Stamped(p, declared, FieldMask(f), FieldBits(f, raw), enabled)
  }

  /** Every byte of the field's mask is inside the fence. */
  predicate Inside(declared: Payload, mask: Payload) {
    forall i :: 0 <= i < MAX_DATA ==> Both8(mask[i], declared[i]) == mask[i]
  }

  // ----- what a patch does to one bit -----

  /** A patched bit is left alone or replaced. */
  datatype Cell = Pass | Stamp(bit: bool)

  function CellAt(p: PatchData, pos: nat): Cell
    requires pos < PAYLOAD_BITS
  {
    if BitAt(p.andMask, pos) then Pass else Stamp(BitAt(p.orValue, pos))
  }

  /** The value bits lie within the cleared mask bits, and those within the declared bits. */
  ghost predicate Fenced(p: PatchData, declared: Payload) {
    forall pos :: 0 <= pos < PAYLOAD_BITS ==>
      (BitAt(p.orValue, pos) ==> !BitAt(p.andMask, pos)) && (!BitAt(p.andMask, pos) ==> BitAt(declared, pos))
  }

  lemma PatchedBit(p: PatchData, declared: Payload, data: Payload, limit: nat, pos: nat)
    requires Fenced(p, declared) && pos < PAYLOAD_BITS
    ensures BitAt(Patched(p.andMask, p.orValue, data, limit), pos) ==
      if pos / 8 < limit && CellAt(p, pos).Stamp? then CellAt(p, pos).bit else BitAt(data, pos)
  {
    BitPatched(data[pos / 8], p.andMask[pos / 8], p.orValue[pos / 8], pos % 8);
    assert BitAt(p.orValue, pos) ==> !BitAt(p.andMask, pos);
    hide Bit;
  }

  /** The runtime never touches a bit the rule did not declare, whatever was staged. */
  lemma UndeclaredBitsUntouched(p: PatchData, declared: Payload, f: CanFrame, pos: nat)
    requires Fenced(p, declared) && pos < PAYLOAD_BITS && !BitAt(declared, pos)
    ensures BitAt(ApplyPatch(p, f).data, pos) == BitAt(f.data, pos)
  {
    hide BitAt;
    PatchedBit(p, declared, f.data, Limit(f.dlc), pos);
    assert CellAt(p, pos) == Pass;
  }

  lemma SignalByte(a: bv8, o: bv8, mask: bv8, declared: bv8, b: bv8, enabled: bool, j: nat)
    requires j < 8
    ensures var m, hit := Both8(mask, declared), Bit(mask, j) && Bit(declared, j);
      && Bit(AndByte(a, m, enabled), j) == (if hit then !enabled else Bit(a, j))
      && Bit(OrByte(o, m, b, enabled), j) == (if hit then enabled && Bit(b, j) else Bit(o, j))
  {
    var m := Both8(mask, declared);
    BitMasked(mask, b, declared, j);
    BitMasked(a, b, m, j);
    BitMasked(o, b, m, j);
    hide Bit, Clear8, Raise8, Merge8, Both8;
  }

  /** What staging a signal does to every bit: the declared part of the field is stamped with the raw
      value or passes through, all other bits keep their state. */
  lemma SignalSetAt(p: PatchData, declared: Payload, f: Field, raw: nat, enabled: bool, pos: nat)
    requires pos < PAYLOAD_BITS
    ensures var q := SignalSet(p, declared, f, raw, enabled);
      if !Covers(f, pos) || !BitAt(declared, pos) then
        BitAt(q.andMask, pos) == BitAt(p.andMask, pos) && BitAt(q.orValue, pos) == BitAt(p.orValue, pos)
      else if enabled then CellAt(q, pos) == Stamp(BitAt(FieldBits(f, raw), pos))
      else CellAt(q, pos) == Pass && !BitAt(q.orValue, pos)
  {
    EncodedField(f, raw, pos);
    var i := pos / 8;
    SignalByte(p.andMask[i], p.orValue[i], FieldMask(f)[i], declared[i], FieldBits(f, raw)[i], enabled, pos % 8);
    hide Bit, Covers, FieldMask, FieldBits, AndByte, OrByte, Both8;
  }

  lemma SignalSetFenced(p: PatchData, declared: Payload, f: Field, raw: nat, enabled: bool)
    requires Fenced(p, declared)
    ensures Fenced(SignalSet(p, declared, f, raw, enabled), declared)
  {
    var q := SignalSet(p, declared, f, raw, enabled);
    hide Covers, FieldBits, SignalSet;
    forall pos | 0 <= pos < PAYLOAD_BITS
      ensures (BitAt(q.orValue, pos) ==> !BitAt(q.andMask, pos)) && (!BitAt(q.andMask, pos) ==> BitAt(declared, pos)) {
      SignalSetAt(p, declared, f, raw, enabled, pos);
      hide BitAt;
      assert CellAt(p, pos) == Pass <==> BitAt(p.andMask, pos);
    }
  }

  lemma ByteSetAt(p: PatchData, index: nat, value: bv8, pos: nat)
    requires pos < PAYLOAD_BITS
    ensures var q := ByteSet(p, index, value);
      && BitAt(q.andMask, pos) == BitAt(p.andMask, pos)
      && BitAt(q.orValue, pos) ==
         (if pos / 8 == index then Bit(value, pos % 8) && !BitAt(p.andMask, pos) else BitAt(p.orValue, pos))
  {
    BitAndNot(value, p.andMask[pos / 8], pos % 8);
    hide Bit;
  }

  lemma ByteSetFenced(p: PatchData, declared: Payload, index: nat, value: bv8)
    requires Fenced(p, declared)
    ensures Fenced(ByteSet(p, index, value), declared)
  {
    var q := ByteSet(p, index, value);
    hide ByteSet;
    forall pos | 0 <= pos < PAYLOAD_BITS
      ensures (BitAt(q.orValue, pos) ==> !BitAt(q.andMask, pos)) && (!BitAt(q.andMask, pos) ==> BitAt(declared, pos)) {
      ByteSetAt(p, index, value, pos);
      hide BitAt;
    }
  }

  /** The setter's answer: whether the whole field was declared. */
  lemma InsideIff(declared: Payload, f: Field)
    ensures Inside(declared, FieldMask(f)) <==>
      forall pos :: 0 <= pos < PAYLOAD_BITS && Covers(f, pos) ==> BitAt(declared, pos)
  {
    var mask := FieldMask(f);
    hide FieldMask, Covers;
    forall pos | 0 <= pos < PAYLOAD_BITS ensures BitAt(mask, pos) <==> Covers(f, pos) {
      EncodedField(f, 0, pos);
    }
    if forall pos :: 0 <= pos < PAYLOAD_BITS && Covers(f, pos) ==> BitAt(declared, pos) {
      forall i | 0 <= i < MAX_DATA ensures Both8(mask[i], declared[i]) == mask[i] {
        forall j | 0 <= j < 8 ensures Bit(Both8(mask[i], declared[i]), j) == Bit(mask[i], j) {
          BitMasked(mask[i], 0, declared[i], j);
          PositionParts(i, j);
          assert BitAt(mask, 8 * i + j) ==> BitAt(declared, 8 * i + j);
        }
        SameBits(Both8(mask[i], declared[i]), mask[i]);
      }
    }
    if Inside(declared, mask) {
      forall pos | 0 <= pos < PAYLOAD_BITS && Covers(f, pos) ensures BitAt(declared, pos) {
        BitMasked(mask[pos / 8], 0, declared[pos / 8], pos % 8);
        assert Both8(mask[pos / 8], declared[pos / 8]) == mask[pos / 8];
        assert BitAt(mask, pos);
      }
    }
  }

  lemma PositionParts(i: nat, j: nat)
    requires i < MAX_DATA && j < 8
    ensures 8 * i + j < PAYLOAD_BITS && (8 * i + j) / 8 == i && (8 * i + j) % 8 == j
  {
  }

  // ----- a field, as a whole -----

  /** The patch stamps exactly `setting` into the field, or lets the received bits through. */
  ghost predicate Shows(p: PatchData, f: Field, setting: Option<nat>) {
    forall s :: 0 <= s < Visits(f) ==>
      CellAt(p, Position(VisitAt(f, s))) ==
        match setting case None => Pass case Some(raw) => Stamp(RawBit(raw, VisitAt(f, s).k))
  }

  ghost predicate Declared(declared: Payload, f: Field) {
    forall pos :: 0 <= pos < PAYLOAD_BITS && Covers(f, pos) ==> BitAt(declared, pos)
  }

  ghost predicate Disjoint(f: Field, g: Field) {
    forall pos: nat :: Covers(f, pos) ==> !Covers(g, pos)
  }

  ghost predicate AvoidsByte(f: Field, index: nat) {
    forall pos: nat :: Covers(f, pos) ==> pos / 8 != index
  }

  lemma SetThenShows(p: PatchData, declared: Payload, f: Field, raw: nat, enabled: bool)
    requires Declared(declared, f)
    ensures Shows(SignalSet(p, declared, f, raw, enabled), f, if enabled then Some(raw) else None)
  {
    var q := SignalSet(p, declared, f, raw, enabled);
    hide SignalSet, CellAt, BitAt, RawBit, FieldBits;
    forall s | 0 <= s < Visits(f)
      ensures CellAt(q, Position(VisitAt(f, s))) == if enabled then Stamp(RawBit(raw, VisitAt(f, s).k)) else Pass {
      var pos := Position(VisitAt(f, s));
      assert Covers(f, pos);
      SignalSetAt(p, declared, f, raw, enabled, pos);
      EncodedField(f, raw, pos);
    }
  }

  lemma OtherFieldKeeps(p: PatchData, declared: Payload, f: Field, raw: nat, enabled: bool, g: Field, setting: Option<nat>)
    requires Shows(p, g, setting) && Disjoint(f, g)
    ensures Shows(SignalSet(p, declared, f, raw, enabled), g, setting)
  {
    var q := SignalSet(p, declared, f, raw, enabled);
    hide SignalSet, BitAt, RawBit, FieldBits;
    forall s | 0 <= s < Visits(g) ensures CellAt(q, Position(VisitAt(g, s))) == CellAt(p, Position(VisitAt(g, s))) {
      var pos := Position(VisitAt(g, s));
      assert Covers(g, pos);
      SignalSetAt(p, declared, f, raw, enabled, pos);
    }
  }

  lemma ByteElsewhereKeeps(p: PatchData, index: nat, value: bv8, g: Field, setting: Option<nat>)
    requires Shows(p, g, setting) && AvoidsByte(g, index)
    ensures Shows(ByteSet(p, index, value), g, setting)
  {
    var q := ByteSet(p, index, value);
    hide ByteSet, BitAt, RawBit;
    forall s | 0 <= s < Visits(g) ensures CellAt(q, Position(VisitAt(g, s))) == CellAt(p, Position(VisitAt(g, s))) {
      var pos := Position(VisitAt(g, s));
      assert Covers(g, pos);
      ByteSetAt(p, index, value, pos);
    }
  }

  /** A frame patched under a setting carries it: the field reads back as the raw value modulo 2^len,
      or, when passing through, as it was received. */
  lemma FieldReadBack(p: PatchData, declared: Payload, f: Field, setting: Option<nat>, frame: CanFrame)
    requires Fenced(p, declared) && Shows(p, f, setting) && Fits(f) && !frame.rtr
    requires forall k :: 0 <= k < f.len ==> BitOf(f, k).byteIndex < Limit(frame.dlc)
    ensures ValueOf(f, ApplyPatch(p, frame).data, frame.dlc) ==
      match setting case None => ValueOf(f, frame.data, frame.dlc) case Some(raw) => raw % Pow2(f.len)
  {
    var out := ApplyPatch(p, frame).data;
    if setting.Some? { RoundTrip(f, setting.value); }
    var want := if setting.Some? then FieldBits(f, setting.value) else frame.data;
    var dlc := if setting.Some? then MAX_DATA else frame.dlc;
    assert BitsOf(f, out, frame.dlc) == BitsOf(f, want, dlc) by {
      forall k | 0 <= k < f.len ensures BitsOf(f, out, frame.dlc)[k] == BitsOf(f, want, dlc)[k] {
        OneBitBack(p, declared, f, setting, frame, k);
      }
    }
  }

  lemma OneBitBack(p: PatchData, declared: Payload, f: Field, setting: Option<nat>, frame: CanFrame, k: nat)
    requires Fenced(p, declared) && Shows(p, f, setting) && Fits(f) && !frame.rtr && k < f.len
    requires BitOf(f, k).byteIndex < Limit(frame.dlc)
    ensures Present(ApplyPatch(p, frame).data, frame.dlc, BitOf(f, k)) ==
      match setting
      case None => Present(frame.data, frame.dlc, BitOf(f, k))
      case Some(raw) => Present(FieldBits(f, raw), MAX_DATA, BitOf(f, k))
  {
    if setting.Some? { EncodedBit(f, setting.value, k); }
    hide RawBit, Visits, VisitAt, Bit, FieldBits, Patched, Fenced;
    var v, s := BitOf(f, k), StepOf(f, k);
    assert v == VisitAt(f, s) && v.k == k;
    assert CellAt(p, Position(v)) == match setting case None => Pass case Some(raw) => Stamp(RawBit(raw, k));
    hide Shows, BitOf, StepOf;
    PresentIs(frame.data, frame.dlc, v);
    PresentIs(ApplyPatch(p, frame).data, frame.dlc, v);
    PatchedBit(p, declared, frame.data, Limit(frame.dlc), Position(v));
    PositionParts(v.byteIndex, v.bit);
    hide CellAt, BitAt, Present;
  }

  lemma PresentIs(data: Payload, dlc: nat, v: Visit)
    requires v.byteIndex < MAX_DATA && v.bit < 8
    ensures Position(v) < PAYLOAD_BITS
    ensures Present(data, dlc, v) <==> v.byteIndex < dlc && BitAt(data, Position(v))
  {
    PositionParts(v.byteIndex, v.bit);
    hide Bit;
  }

  // ----- runs of a rule's setters -----

  datatype BytePatch = BytePatch(index: nat, value: bv8, mask: bv8)
  datatype SignalPatch = SignalPatch(field: Field, boot: Option<nat>)

  /** What configuration declares for a rule. */
  datatype PatchRule = PatchRule(bytes: seq<BytePatch>, signals: seq<SignalPatch>)

  datatype Op =
    | SetByte(index: nat, value: bv8)
    | SetSignal(signal: nat, raw: nat, enabled: bool)
    | SetCanId(id: bv32)
    | Commit

  /** What the frames see and what is staged for the next commit. */
  datatype Banks = Banks(published: PatchData, draft: PatchData)

  /** The plain specification: one optional value per signal, staged and published. */
  datatype Settings = Settings(published: seq<Option<nat>>, draft: seq<Option<nat>>)

  ghost predicate RuleOk(r: PatchRule, declared: Payload) {
    && (forall i :: 0 <= i < |r.signals| ==> Fits(r.signals[i].field) && Declared(declared, r.signals[i].field))
    && (forall i, j :: 0 <= i < |r.signals| && 0 <= j < |r.signals| && i != j ==>
          Disjoint(r.signals[i].field, r.signals[j].field))
  }

  /** Byte setters may not aim at a byte that holds part of a signal. */
  ghost predicate OpOk(r: PatchRule, op: Op) {
    match op
    case SetByte(index, _) => forall i :: 0 <= i < |r.signals| ==> AvoidsByte(r.signals[i].field, index)
    case SetSignal(i, _, _) => i < |r.signals|
    case _ => true
  }

  function Staged(p: PatchData, r: PatchRule, declared: Payload, op: Op): PatchData
    requires op.SetSignal? ==> op.signal < |r.signals|
  {
    match op
    case SetByte(index, value) => ByteSet(p, index, value)
    case SetSignal(i, raw, enabled) => SignalSet(p, declared, r.signals[i].field, raw, enabled)
    case SetCanId(id) => IdSet(p, id)
    case Commit => p
  }

  function Applied(b: Banks, r: PatchRule, declared: Payload, op: Op): Banks
    requires op.SetSignal? ==> op.signal < |r.signals|
  {
    if op.Commit? then Banks(b.draft, b.draft) else b.(draft := Staged(b.draft, r, declared, op))
  }

  function Wanted(s: Settings, op: Op): Settings
    requires op.SetSignal? ==> op.signal < |s.draft|
  {
    match op
    case SetSignal(i, raw, enabled) => s.(draft := s.draft[i := if enabled then Some(raw) else None])
    case Commit => Settings(s.draft, s.draft)
    case _ => s
  }

  ghost predicate ShowsAll(p: PatchData, r: PatchRule, settings: seq<Option<nat>>) {
    |settings| == |r.signals| && forall i :: 0 <= i < |settings| ==> Shows(p, r.signals[i].field, settings[i])
  }

  ghost predicate Refines(b: Banks, s: Settings, r: PatchRule, declared: Payload) {
    && Fenced(b.published, declared) && Fenced(b.draft, declared)
    && ShowsAll(b.published, r, s.published) && ShowsAll(b.draft, r, s.draft)
  }

  lemma StagedKeeps(p: PatchData, r: PatchRule, declared: Payload, settings: seq<Option<nat>>, op: Op)
    requires RuleOk(r, declared) && OpOk(r, op) && Fenced(p, declared) && ShowsAll(p, r, settings)
    ensures var q := Staged(p, r, declared, op);
      Fenced(q, declared) && ShowsAll(q, r, Wanted(Settings(settings, settings), op).draft)
  {
    var q := Staged(p, r, declared, op);
    match op
    case SetByte(index, value) =>
      ByteSetFenced(p, declared, index, value);
      forall i | 0 <= i < |settings| ensures Shows(q, r.signals[i].field, settings[i]) {
        ByteElsewhereKeeps(p, index, value, r.signals[i].field, settings[i]);
      }
    case SetSignal(n, raw, enabled) =>
      SignalSetFenced(p, declared, r.signals[n].field, raw, enabled);
      var after := settings[n := if enabled then Some(raw) else None];
      forall i | 0 <= i < |settings| ensures Shows(q, r.signals[i].field, after[i]) {
        if i == n {
          SetThenShows(p, declared, r.signals[n].field, raw, enabled);
        } else {
          OtherFieldKeeps(p, declared, r.signals[n].field, raw, enabled, r.signals[i].field, settings[i]);
        }
      }
    case _ =>
  }

  ghost predicate OpsOk(r: PatchRule, ops: seq<Op>) {
    forall k :: 0 <= k < |ops| ==> OpOk(r, ops[k])
  }

  /** The signals set exist; nothing is asked of byte setters. */
  ghost predicate OpsKnown(r: PatchRule, ops: seq<Op>) {
    forall k :: 0 <= k < |ops| && ops[k].SetSignal? ==> ops[k].signal < |r.signals|
  }

  lemma OkIsKnown(r: PatchRule, ops: seq<Op>)
    requires OpsOk(r, ops)
    ensures OpsKnown(r, ops)
  {
    forall k | 0 <= k < |ops| && ops[k].SetSignal? ensures ops[k].signal < |r.signals| {
      assert OpOk(r, ops[k]);
    }
  }

  ghost function BanksAfter(b: Banks, r: PatchRule, declared: Payload, ops: seq<Op>): Banks
    requires OpsKnown(r, ops)
    decreases |ops|
  {
    if ops == [] then b
    else
      Applied(BanksAfter(b, r, declared, ops[..|ops| - 1]), r, declared, ops[|ops| - 1])
  }

  ghost function SettingsAfter(s: Settings, r: PatchRule, ops: seq<Op>): (t: Settings)
    requires OpsOk(r, ops) && |s.draft| == |s.published| == |r.signals|
    ensures |t.draft| == |t.published| == |r.signals|
    decreases |ops|
  {
    if ops == [] then s
    else
      assert OpOk(r, ops[|ops| - 1]);
      Wanted(SettingsAfter(s, r, ops[..|ops| - 1]), ops[|ops| - 1])
  }

  /** Whatever is set, shared bytes included, the banks stay inside the fence. */
  lemma {:induction false} FencedRun(b: Banks, r: PatchRule, declared: Payload, ops: seq<Op>)
    requires OpsKnown(r, ops) && Fenced(b.published, declared) && Fenced(b.draft, declared)
    ensures Fenced(BanksAfter(b, r, declared, ops).published, declared) && Fenced(BanksAfter(b, r, declared, ops).draft, declared)
    decreases |ops|
  {
    if ops != [] {
      var n := |ops| - 1;
      FencedRun(b, r, declared, ops[..n]);
      var b1 := BanksAfter(b, r, declared, ops[..n]);
      match ops[n] {
        case SetByte(index, value) => ByteSetFenced(b1.draft, declared, index, value);
        case SetSignal(i, raw, enabled) => SignalSetFenced(b1.draft, declared, r.signals[i].field, raw, enabled);
        case SetCanId(id) => assert Fenced(IdSet(b1.draft, id), declared);
        case Commit =>
      }
      hide Fenced, ByteSet, SignalSet, IdSet;
    }
  }

  /** Over every run of the setters and commits the banks show what the plain specification says. */
  lemma {:induction false} RunRefines(b: Banks, s: Settings, r: PatchRule, declared: Payload, ops: seq<Op>)
    requires RuleOk(r, declared) && OpsOk(r, ops) && Refines(b, s, r, declared)
    ensures OpsKnown(r, ops)
    ensures Refines(BanksAfter(b, r, declared, ops), SettingsAfter(s, r, ops), r, declared)
    decreases |ops|
  {
    OkIsKnown(r, ops);
    if ops != [] {
      var n := |ops| - 1;
      RunRefines(b, s, r, declared, ops[..n]);
      var b1, s1 := BanksAfter(b, r, declared, ops[..n]), SettingsAfter(s, r, ops[..n]);
      assert OpOk(r, ops[n]);
      StagedKeeps(b1.draft, r, declared, s1.draft, ops[n]);
      hide Fenced, ShowsAll, Staged, RuleOk, OpOk, OpsOk;
    }
  }

  /** Every frame, after every run: each signal that lies within the frame reads back as the last value
      committed for it modulo 2^len, or as received when it is switched off, and no undeclared bit
      has changed. */
  lemma FramesSeeTheLastCommit(b: Banks, s: Settings, r: PatchRule, declared: Payload, ops: seq<Op>, frame: CanFrame)
    requires RuleOk(r, declared) && OpsOk(r, ops) && Refines(b, s, r, declared) && !frame.rtr
    ensures OpsKnown(r, ops)
    ensures var p, now := BanksAfter(b, r, declared, ops).published, SettingsAfter(s, r, ops).published;
      && (forall i :: 0 <= i < |r.signals| && WithinFrame(r.signals[i].field, frame.dlc) ==>
            ValueOf(r.signals[i].field, ApplyPatch(p, frame).data, frame.dlc) ==
              match now[i]
              case None => ValueOf(r.signals[i].field, frame.data, frame.dlc)
              case Some(raw) => raw % Pow2(r.signals[i].field.len))
      && (forall pos :: 0 <= pos < PAYLOAD_BITS && !BitAt(declared, pos) ==>
            BitAt(ApplyPatch(p, frame).data, pos) == BitAt(frame.data, pos))
  {
    RunRefines(b, s, r, declared, ops);
    var p, now := BanksAfter(b, r, declared, ops).published, SettingsAfter(s, r, ops).published;
    hide ApplyPatch, BanksAfter, SettingsAfter, Fenced, ValueOf, BitAt;
    forall i | 0 <= i < |r.signals| && WithinFrame(r.signals[i].field, frame.dlc)
      ensures ValueOf(r.signals[i].field, ApplyPatch(p, frame).data, frame.dlc) ==
              match now[i]
              case None => ValueOf(r.signals[i].field, frame.data, frame.dlc)
              case Some(raw) => raw % Pow2(r.signals[i].field.len) {
      FieldReadBack(p, declared, r.signals[i].field, now[i], frame);
    }
    forall pos | 0 <= pos < PAYLOAD_BITS && !BitAt(declared, pos)
      ensures BitAt(ApplyPatch(p, frame).data, pos) == BitAt(frame.data, pos) {
      UndeclaredBitsUntouched(p, declared, frame, pos);
    }
  }

  ghost predicate WithinFrame(f: Field, dlc: nat)
    requires Fits(f)
  {
    forall k :: 0 <= k < f.len ==> BitOf(f, k).byteIndex < Limit(dlc)
  }

  /** The byte setter writes every cleared mask bit of its byte, a stamped signal's included: a signal
      sharing the byte survives exactly when the written value agrees with it there. */
  lemma ByteSetterKeepsIff(p: PatchData, index: nat, value: bv8, f: Field, raw: nat)
    requires Shows(p, f, Some(raw))
    ensures Shows(ByteSet(p, index, value), f, Some(raw)) <==>
      forall s :: 0 <= s < Visits(f) && VisitAt(f, s).byteIndex == index ==>
        Bit(value, VisitAt(f, s).bit) == RawBit(raw, VisitAt(f, s).k)
  {
    var q := ByteSet(p, index, value);
    hide ByteSet, BitAt, RawBit, Visits, Bit;
    forall s | 0 <= s < Visits(f)
      ensures CellAt(q, Position(VisitAt(f, s))) ==
        if VisitAt(f, s).byteIndex == index then Stamp(Bit(value, VisitAt(f, s).bit)) else Stamp(RawBit(raw, VisitAt(f, s).k)) {
      var v := VisitAt(f, s);
      PositionParts(v.byteIndex, v.bit);
      ByteSetAt(p, index, value, Position(v));
      assert CellAt(p, Position(v)) == Stamp(RawBit(raw, v.k));
    }
    hide CellAt;
  }

  // ----- the class -----

  /** Setters run in the loop and write only the inactive bank; the interrupt may read the active one
      between any two of their steps, which is why each loop below carries the active bank unchanged
      through every iteration. */
  class RulePatch {
    const banks: array<PatchData>
    const declared: Payload
    var active: nat
    var staging: bool

    ghost predicate Valid()
      reads this, banks
    {
      banks.Length == 2 && active < 2
    }

    ghost function State(): Banks
      reads this, banks
      requires Valid()
    {
      Banks(banks[active], if staging then banks[1 - active] else banks[active])
    }

    constructor (initial: PatchData, declared: Payload)
      ensures Valid() && fresh(banks) && State() == Banks(initial, initial) && this.declared == declared
    {
      banks := new PatchData[2](_ => initial);
      this.declared := declared;
      active, staging := 0, false;
    }

    /** In the interrupt: the patch this frame sees. */
    method ActivePatch() returns (p: PatchData)
      requires Valid()
      ensures p == State().published
    {
      p := banks[active];
    }

    /** Seeds the inactive bank on the first call of a staging cycle. */
    method Stage()
      requires Valid()
      modifies banks, `staging
      ensures Valid() && staging && State() == old(State())
    {
      if !staging {
        banks[1 - active] := banks[active];
        staging := true;
      }
    }

    method Commit()
      requires Valid()
      modifies this
      ensures Valid() && State() == Banks(old(State()).draft, old(State()).draft)
    {
      if !staging {
        return;
      }
      active := 1 - active;
      staging := false;
    }

    method SetByte(index: nat, value: bv8)
      requires Valid()
      modifies this, banks
      ensures Valid() && State() == old(State()).(draft := ByteSet(old(State()).draft, index, value))
    {
      if index >= MAX_DATA {
        return;
      }
      Stage();
      var p := banks[1 - active];
      banks[1 - active] := p.(orValue := p.orValue[index := value & !p.andMask[index]]);
    }

    method SetCanId(id: bv32)
      requires Valid()
      modifies this, banks
      ensures Valid() && State() == old(State()).(draft := IdSet(old(State()).draft, id))
    {
      hide IdSet;
      Stage();
      Overwrite(IdSet(banks[1 - active], id));
    }

    method Overwrite(p: PatchData)
      requires Valid() && staging
      modifies banks
      ensures Valid() && State() == old(State()).(draft := p)
    {
      banks[1 - active] := p;
    }

    method SetSignal(f: Field, raw: u32, enabled: bool) returns (inside: bool)
      requires Valid()
      modifies this, banks
      ensures Valid() && State() == old(State()).(draft := SignalSet(old(State()).draft, declared, f, raw, enabled))
      ensures inside <==> Inside(declared, FieldMask(f))
    {
      var mask, bits := new bv8[MAX_DATA](_ => 0), new bv8[MAX_DATA](_ => 0);
      assert mask[..] == Blank() && bits[..] == Blank();
      SignalEncode(f, raw, mask, bits);
      hide FieldMask, FieldBits, Stamped, Inside;
      inside := StampField(mask[..], bits[..], enabled);
    }

    method StampField(mask: Payload, bits: Payload, enabled: bool) returns (inside: bool)
      requires Valid()
      modifies this, banks
      ensures Valid() && State() == old(State()).(draft := Stamped(old(State()).draft, declared, mask, bits, enabled))
      ensures inside <==> Inside(declared, mask)
    {
      Stage();
      ghost var was, goal := State().draft, Stamped(State().draft, declared, mask, bits, enabled);
      assert Between(was, goal, 0) == was && Between(was, goal, MAX_DATA) == goal;
      hide Between, Stamped, AndByte, OrByte, Both8;
      inside := true;
      var i := 0;
      while i < MAX_DATA
        invariant 0 <= i <= MAX_DATA && Valid() && staging
        invariant State() == old(State()).(draft := Between(was, goal, i))
        invariant inside <==> forall k :: 0 <= k < i ==> Both8(mask[k], declared[k]) == mask[k]
      {
        BetweenStep(was, declared, mask, bits, enabled, i);
        var m := Both8(mask[i], declared[i]);
        if m != mask[i] {
          inside := false;
        }
        var p := banks[1 - active];
        Overwrite(p.(andMask := p.andMask[i := AndByte(p.andMask[i], m, enabled)],
                     orValue := p.orValue[i := OrByte(p.orValue[i], m, bits[i], enabled)]));
        i := i + 1;
      }
    }
  }

  /** A patch whose first `n` bytes have already become those of `goal`. */
  function Between(was: PatchData, goal: PatchData, n: nat): PatchData {
    was.(andMask := seq(MAX_DATA, k requires 0 <= k < MAX_DATA => if k < n then goal.andMask[k] else was.andMask[k]),
         orValue := seq(MAX_DATA, k requires 0 <= k < MAX_DATA => if k < n then goal.orValue[k] else was.orValue[k]))
  }

  lemma BetweenStep(was: PatchData, declared: Payload, mask: Payload, bits: Payload, enabled: bool, i: nat)
    requires i < MAX_DATA
    ensures var goal := Stamped(was, declared, mask, bits, enabled); var p := Between(was, goal, i);
      var m := Both8(mask[i], declared[i]);
      Between(was, goal, i + 1) == p.(andMask := p.andMask[i := AndByte(p.andMask[i], m, enabled)],
                                      orValue := p.orValue[i := OrByte(p.orValue[i], m, bits[i], enabled)])
  {
    hide AndByte, OrByte, Both8;
    var goal := Stamped(was, declared, mask, bits, enabled);
    var p, m := Between(was, goal, i), Both8(mask[i], declared[i]);
    assert Between(was, goal, i + 1).andMask == p.andMask[i := AndByte(p.andMask[i], m, enabled)];
    assert Between(was, goal, i + 1).orValue == p.orValue[i := OrByte(p.orValue[i], m, bits[i], enabled)];
  }

  /** A staged identifier always fits the frame type the rule sends. */
  lemma IdFits(p: PatchData, id: bv32)
    ensures IdSet(p, id).newId <= if p.newExtended then MAX_EXTENDED_ID else MAX_STANDARD_ID
    ensures id <= (if p.newExtended then MAX_EXTENDED_ID else MAX_STANDARD_ID) ==> IdSet(p, id).newId == id
  {
  }
}
