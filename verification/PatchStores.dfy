/** The setters store by store: a frame may arrive between any two of them, seeding a bank and stamping a
    field included, and still sees exactly the last committed patch. */
module PatchStores {
  import opened Bits
  import opened Binary
  import opened PatchRules
  import opened SignalGeometry
  import opened SignalExtract
  import opened RulePatches

  /** One store of the loop; the bank not published is its own, so what it reads there is what it left. */
  datatype Store =
    | SeedAnd(i: nat) | SeedOr(i: nat) | SeedRest | MarkStaged
    | PutByte(i: nat, value: bv8)
    | StampAnd(i: nat, m: bv8, enabled: bool) | StampOr(i: nat, m: bv8, b: bv8, enabled: bool)
    | PutId(id: bv32)
    | Flip | Unstage

  /** The two banks, the index that the interrupt loads, and whether a cycle of staging is on. */
  datatype Pair = Pair(first: PatchData, second: PatchData, active: bool, staging: bool)
  {
    /** What a frame arriving now is patched with. */
    function Seen(): PatchData { if active then second else first }

    function Other(): PatchData { if active then first else second }

    function WithOther(p: PatchData): Pair { if active then this.(first := p) else this.(second := p) }

    function View(): Banks { Banks(Seen(), if staging then Other() else Seen()) }
  }

  /** The banks, the stores still to come of the setter that runs, and the setters begun so far. */
  datatype Machine = Machine(banks: Pair, todo: seq<Store>, begun: seq<Op>)

  /** What a store makes of the bank it works on; `seen` is the published one. */
  function Written(p: PatchData, seen: PatchData, s: Store): PatchData {
    match s
    case SeedAnd(i) => if i < MAX_DATA then p.(andMask := p.andMask[i := seen.andMask[i]]) else p
    case SeedOr(i) => if i < MAX_DATA then p.(orValue := p.orValue[i := seen.orValue[i]]) else p
    case SeedRest => p.(newId := seen.newId, replaceId := seen.replaceId, newExtended := seen.newExtended)
    case PutByte(i, value) => ByteSet(p, i, value)
    case StampAnd(i, m, enabled) => if i < MAX_DATA then p.(andMask := p.andMask[i := AndByte(p.andMask[i], m, enabled)]) else p
    case StampOr(i, m, b, enabled) => if i < MAX_DATA then p.(orValue := p.orValue[i := OrByte(p.orValue[i], m, b, enabled)]) else p
    case PutId(id) => IdSet(p, id)
    case MarkStaged | Flip | Unstage => p
  }

  function Stored(m: Pair, s: Store): Pair {
    match s
    case Flip => m.(active := !m.active)
    case MarkStaged => m.(staging := true)
    case Unstage => m.(staging := false)
    case _ => m.WithOther(Written(m.Other(), m.Seen(), s))
  }

  function AllStored(m: Pair, ss: seq<Store>): Pair
    decreases |ss|
  {
    if ss == [] then m else AllStored(Stored(m, ss[0]), ss[1..])
  }

  function Seeds(i: nat): seq<Store>
    requires i <= MAX_DATA
    decreases MAX_DATA - i
  {
    if i == MAX_DATA then [SeedRest, MarkStaged] else [SeedAnd(i), SeedOr(i)] + Seeds(i + 1)
  }

  function Stamps(i: nat, declared: Payload, mask: Payload, bits: Payload, enabled: bool): seq<Store>
    requires i <= MAX_DATA
    decreases MAX_DATA - i
  {
    if i == MAX_DATA then []
    else
      var m := Both8(mask[i], declared[i]);
      [StampAnd(i, m, enabled), StampOr(i, m, bits[i], enabled)] + Stamps(i + 1, declared, mask, bits, enabled)
  }

  /** The stores of a setter once a bank is staged. */
  function Body(op: Op, r: PatchRule, declared: Payload): seq<Store>
    requires op.SetSignal? ==> op.signal < |r.signals|
  {
    match op
    case SetByte(i, value) => [PutByte(i, value)]
    case SetSignal(n, raw, enabled) =>
      Stamps(0, declared, FieldMask(r.signals[n].field), FieldBits(r.signals[n].field, raw), enabled)
    case SetCanId(id) => [PutId(id)]
    case Commit => [Flip, Unstage]
  }

  /** All stores of a setter called now. */
  function Stores(staging: bool, op: Op, r: PatchRule, declared: Payload): seq<Store>
    requires op.SetSignal? ==> op.signal < |r.signals|
  {
    if op.SetByte? && op.index >= MAX_DATA then []
    else if op.Commit? then (if staging then Body(op, r, declared) else [])
    else (if staging then [] else Seeds(0)) + Body(op, r, declared)
  }

  // ----- runs -----

  /** The loop calls a setter, or gets on with the one it is in. */
  datatype Event = Begin(op: Op) | NextStore

  predicate Enabled(m: Machine, r: PatchRule, e: Event) {
    match e
    case Begin(op) => m.todo == [] && (op.SetSignal? ==> op.signal < |r.signals|)
    case NextStore => m.todo != []
  }

  function After(m: Machine, r: PatchRule, declared: Payload, e: Event): Machine
    requires Enabled(m, r, e)
  {
    match e
    case Begin(op) => m.(todo := Stores(m.banks.staging, op, r, declared), begun := m.begun + [op])
    case NextStore => m.(banks := Stored(m.banks, m.todo[0]), todo := m.todo[1..])
  }

  ghost predicate Reaches(m: Machine, r: PatchRule, declared: Payload, es: seq<Event>, q: Machine)
    decreases |es|
  {
    if es == [] then q == m
    else Enabled(m, r, es[0]) && Reaches(After(m, r, declared, es[0]), r, declared, es[1..], q)
  }

  function PowerUp(p: PatchData): Machine { Machine(Pair(p, p, false, false), [], []) }

  /** The setters whose effect is published or staged by now: all begun, but for a commit that has not
      flipped the index yet. */
  function Counted(m: Machine): seq<Op> {
    if m.todo != [] && m.todo[0].Flip? && m.begun != [] then m.begun[..|m.begun| - 1] else m.begun
  }

  /** Never touches what frames see. */
  predicate Quiet(s: Store) { !s.Flip? && !s.Unstage? }

  ghost predicate AllQuiet(ss: seq<Store>) { forall i :: 0 <= i < |ss| ==> Quiet(ss[i]) }

  lemma {:induction false} StoredJoin(m: Pair, a: seq<Store>, b: seq<Store>)
    ensures AllStored(m, a + b) == AllStored(AllStored(m, a), b)
    decreases |a|
  {
    hide Stored;
    if a == [] {
      assert a + b == b;
    } else {
      assert (a + b)[0] == a[0] && (a + b)[1..] == a[1..] + b;
      StoredJoin(Stored(m, a[0]), a[1..], b);
    }
  }

  lemma StoredTwo(m: Pair, a: Store, b: Store)
    ensures AllStored(m, [a, b]) == Stored(Stored(m, a), b)
  {
    assert [a, b][1..] == [b] && [b][1..] == [];
    hide Stored;
    var m1 := Stored(m, a);
    assert AllStored(m1, [b]) == AllStored(Stored(m1, b), []);
  }

  ghost predicate SameBefore(p: PatchData, q: PatchData, i: nat) {
    forall k :: 0 <= k < i && k < MAX_DATA ==> p.andMask[k] == q.andMask[k] && p.orValue[k] == q.orValue[k]
  }

  lemma {:induction false} SeedsCopy(m: Pair, i: nat)
    requires i <= MAX_DATA && SameBefore(m.Other(), m.Seen(), i)
    ensures AllStored(m, Seeds(i)) == m.WithOther(m.Seen()).(staging := true)
    decreases MAX_DATA - i
  {
    if i == MAX_DATA {
      StoredTwo(m, SeedRest, MarkStaged);
      assert m.Other().andMask == m.Seen().andMask && m.Other().orValue == m.Seen().orValue;
    } else {
      var q := Stored(Stored(m, SeedAnd(i)), SeedOr(i));
      StoredTwo(m, SeedAnd(i), SeedOr(i));
      StoredJoin(m, [SeedAnd(i), SeedOr(i)], Seeds(i + 1));
      assert q.Seen() == m.Seen() && SameBefore(q.Other(), q.Seen(), i + 1);
      assert q.WithOther(q.Seen()) == m.WithOther(m.Seen());
      SeedsCopy(q, i + 1);
    }
  }

  lemma {:induction false} StampsDone(m: Pair, i: nat, was: PatchData, declared: Payload, mask: Payload, bits: Payload, enabled: bool)
    requires i <= MAX_DATA && m.Other() == Between(was, Stamped(was, declared, mask, bits, enabled), i)
    ensures AllStored(m, Stamps(i, declared, mask, bits, enabled)) == m.WithOther(Stamped(was, declared, mask, bits, enabled))
    decreases MAX_DATA - i
  {
    var goal := Stamped(was, declared, mask, bits, enabled);
    if i == MAX_DATA {
      assert Between(was, goal, MAX_DATA) == goal;
    } else {
      var b8 := Both8(mask[i], declared[i]);
      BetweenStep(was, declared, mask, bits, enabled, i);
      hide Between, Stamped, AndByte, OrByte, Both8;
      var q := Stored(Stored(m, StampAnd(i, b8, enabled)), StampOr(i, b8, bits[i], enabled));
      StoredTwo(m, StampAnd(i, b8, enabled), StampOr(i, b8, bits[i], enabled));
      StoredJoin(m, [StampAnd(i, b8, enabled), StampOr(i, b8, bits[i], enabled)], Stamps(i + 1, declared, mask, bits, enabled));
      assert q == m.WithOther(q.Other());
      StampsDone(q, i + 1, was, declared, mask, bits, enabled);
    }
  }

  /** On a staged bank. */
  lemma BodyApplies(m: Pair, op: Op, r: PatchRule, declared: Payload)
    requires m.staging && (op.SetSignal? ==> op.signal < |r.signals|)
    ensures AllStored(m, Body(op, r, declared)).View() == Applied(m.View(), r, declared, op)
  {
    match op
    case SetByte(i, value) => StoredOne(m, PutByte(i, value)); hide ByteSet;
    case SetCanId(id) => StoredOne(m, PutId(id)); hide IdSet;
    case Commit => StoredTwo(m, Flip, Unstage);
    case SetSignal(n, raw, enabled) =>
      var mask, bits := FieldMask(r.signals[n].field), FieldBits(r.signals[n].field, raw);
      hide FieldMask, FieldBits;
      var goal := Stamped(m.Other(), declared, mask, bits, enabled);
      assert m.Other() == Between(m.Other(), goal, 0);
      hide Between, Stamped;
      StampsDone(m, 0, m.Other(), declared, mask, bits, enabled);
  }

  lemma StoredOne(m: Pair, s: Store)
    ensures AllStored(m, [s]) == Stored(m, s)
  {
    assert AllStored(Stored(m, s), [s][1..]) == Stored(m, s);
  }

  /** A setter run to its end does what it does in one step. */
  lemma StoresApply(m: Pair, op: Op, r: PatchRule, declared: Payload)
    requires op.SetSignal? ==> op.signal < |r.signals|
    ensures AllStored(m, Stores(m.staging, op, r, declared)).View() == Applied(m.View(), r, declared, op)
  {
    hide Body;
    if m.staging {
      BodyApplies(m, op, r, declared);
      assert [] + Body(op, r, declared) == Body(op, r, declared);
    } else {
      var q := m.WithOther(m.Seen()).(staging := true);
      SeedsCopy(m, 0);
      StoredJoin(m, Seeds(0), Body(op, r, declared));
      BodyApplies(q, op, r, declared);
      hide Seeds;
    }
  }

  lemma {:induction false} SeedsQuiet(i: nat)
    requires i <= MAX_DATA
    ensures AllQuiet(Seeds(i))
    decreases MAX_DATA - i
  {
    if i < MAX_DATA { SeedsQuiet(i + 1); }
  }

  lemma {:induction false} StampsQuiet(i: nat, declared: Payload, mask: Payload, bits: Payload, enabled: bool)
    requires i <= MAX_DATA
    ensures AllQuiet(Stamps(i, declared, mask, bits, enabled))
    decreases MAX_DATA - i
  {
    hide Both8;
    if i < MAX_DATA { StampsQuiet(i + 1, declared, mask, bits, enabled); }
  }

  lemma StoresQuiet(staging: bool, op: Op, r: PatchRule, declared: Payload)
    requires op.SetSignal? ==> op.signal < |r.signals|
    ensures if op.Commit? && staging then Stores(staging, op, r, declared) == [Flip, Unstage]
            else AllQuiet(Stores(staging, op, r, declared))
  {
    SeedsQuiet(0);
    if op.SetSignal? {
      StampsQuiet(0, declared, FieldMask(r.signals[op.signal].field), FieldBits(r.signals[op.signal].field, op.raw), op.enabled);
    }
    hide Seeds, Stamps, FieldMask, FieldBits;
  }

  /** What the setters begun amount to once the one under way is through, and what frames see till then. */
  ghost predicate Inv(m: Machine, start: Banks, r: PatchRule, declared: Payload) {
    && OpsKnown(r, m.begun)
    && AllStored(m.banks, m.todo).View() == BanksAfter(start, r, declared, m.begun)
    && (AllQuiet(m.todo) || (m.todo == [Flip, Unstage] && m.begun != [] && m.begun[|m.begun| - 1].Commit?) || m.todo == [Unstage])
    && OpsKnown(r, Counted(m)) && m.banks.Seen() == BanksAfter(start, r, declared, Counted(m)).published
  }

  lemma BeginInv(m: Machine, start: Banks, r: PatchRule, declared: Payload, op: Op)
    requires Inv(m, start, r, declared) && Enabled(m, r, Begin(op))
    ensures Inv(After(m, r, declared, Begin(op)), start, r, declared)
  {
    var q := After(m, r, declared, Begin(op));
    assert q.begun[..|q.begun| - 1] == m.begun && OpsKnown(r, q.begun);
    StoresApply(m.banks, op, r, declared);
    StoresQuiet(m.banks.staging, op, r, declared);
    hide Stores, Staged, OpsKnown;
    assert AllStored(m.banks, []) == m.banks;
    hide AllStored;
    assert AllQuiet(q.todo) && q.todo != [] ==> Quiet(q.todo[0]);
  }

  lemma NextInv(m: Machine, start: Banks, r: PatchRule, declared: Payload)
    requires Inv(m, start, r, declared) && m.todo != []
    ensures Inv(After(m, r, declared, NextStore), start, r, declared)
  {
    var q := After(m, r, declared, NextStore);
    hide BanksAfter, Written;
    if AllQuiet(m.todo) {
      assert Quiet(m.todo[0]);
      assert AllQuiet(q.todo);
      assert q.todo != [] ==> Quiet(q.todo[0]);
    } else if m.todo == [Flip, Unstage] {
      assert q.todo == [Unstage];
      StoredOne(q.banks, Unstage);
    }
  }

  lemma {:induction false} RunInv(m: Machine, start: Banks, r: PatchRule, declared: Payload, es: seq<Event>, q: Machine)
    requires Inv(m, start, r, declared) && Reaches(m, r, declared, es, q)
    ensures Inv(q, start, r, declared)
    decreases |es|
  {
    if es != [] {
      match es[0] {
        case Begin(op) => BeginInv(m, start, r, declared, op);
        case NextStore => NextInv(m, start, r, declared);
      }
      hide Inv, After, Enabled;
      RunInv(After(m, r, declared, es[0]), start, r, declared, es[1..], q);
    }
  }

  /** However far the setter under way has got, a frame sees the patch that whole setters would have
      published: a commit counts from the store that flips the index. */
  lemma SeenIsCommitted(p: PatchData, r: PatchRule, declared: Payload, es: seq<Event>, q: Machine)
    requires Reaches(PowerUp(p), r, declared, es, q)
    ensures OpsKnown(r, Counted(q)) && q.banks.Seen() == BanksAfter(Banks(p, p), r, declared, Counted(q)).published
  {
    assert AllStored(PowerUp(p).banks, []) == PowerUp(p).banks;
    assert Inv(PowerUp(p), Banks(p, p), r, declared);
    RunInv(PowerUp(p), Banks(p, p), r, declared, es, q);
  }

  /** A frame between any two stores: each signal within it reads back as the last value committed for it
      modulo 2^len, or as received when switched off, and no undeclared bit has changed. */
  lemma FrameBetweenStores(p: PatchData, s: Settings, r: PatchRule, declared: Payload, es: seq<Event>, q: Machine, frame: CanFrame)
    requires RuleOk(r, declared) && Refines(Banks(p, p), s, r, declared) && !frame.rtr
    requires Reaches(PowerUp(p), r, declared, es, q) && OpsOk(r, q.begun)
    ensures OpsOk(r, Counted(q))
    ensures var now := SettingsAfter(s, r, Counted(q)).published;
      && (forall i :: 0 <= i < |r.signals| && WithinFrame(r.signals[i].field, frame.dlc) ==>
            ValueOf(r.signals[i].field, ApplyPatch(q.banks.Seen(), frame).data, frame.dlc) ==
              match now[i]
              case None => ValueOf(r.signals[i].field, frame.data, frame.dlc)
              case Some(raw) => raw % Pow2(r.signals[i].field.len))
      && (forall pos :: 0 <= pos < PAYLOAD_BITS && !BitAt(declared, pos) ==>
            BitAt(ApplyPatch(q.banks.Seen(), frame).data, pos) == BitAt(frame.data, pos))
  {
    SeenIsCommitted(p, r, declared, es, q);
    assert OpsOk(r, Counted(q)) by { hide OpOk; }
    hide Reaches, ApplyPatch, ValueOf, BitAt, RuleOk, Refines, OpsOk, BanksAfter, SettingsAfter, WithinFrame, Counted, OpsKnown;
    FramesSeeTheLastCommit(Banks(p, p), s, r, declared, Counted(q), frame);
  }
}
