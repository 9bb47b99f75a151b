/** Pacing of bus-off recovery: an exponential schedule on a 32-bit millisecond clock, driven by what the
    loop reads of the port's state. */
module RecoveryBackoffs {
  import opened Words
  import opened Binary

  const INITIAL_DELAY := 100
  const MAX_DELAY := 3200
  const STABLE_RESET := 10000

  datatype Seen = Active | Degraded | BusOff

  datatype Backoff = Backoff(delay: u32, dueAt: u32, stableSince: u32, pending: bool, stableValid: bool)

  function OnBusOff(b: Backoff, now: u32): Backoff {
    b.(pending := true, stableValid := false, dueAt := (now + b.delay) % WRAP)
  }

  /** A deadline has passed when the signed difference of the two counters is not negative. */
  predicate Passed(now: u32, due: u32) { Elapsed(now, due) < 0x8000_0000 }

  function ShouldAttempt(b: Backoff, now: u32): (Backoff, bool) {
    if !b.pending || !Passed(now, b.dueAt) then (b, false)
    else (b.(pending := false, delay := Escalated(b.delay)), true)
  }

  function Escalated(delay: u32): u32 { Min((delay * 2) % WRAP, MAX_DELAY) }

  function OnRecovered(b: Backoff, now: u32): Backoff {
    b.(pending := false, stableSince := now, stableValid := true)
  }

  function OnStableTick(b: Backoff, now: u32): Backoff {
    if b.stableValid && Elapsed(now, b.stableSince) >= STABLE_RESET then b.(delay := INITIAL_DELAY, stableValid := false) else b
  }

  /** One loop pass; the second result is whether recovery is requested. */
  function LoopPass(b: Backoff, last: Seen, seen: Seen, now: u32): (Backoff, bool) {
    var b1 := if seen == last then b
              else if seen == BusOff then OnBusOff(b, now)
              else if last == BusOff && seen == Active then OnRecovered(b, now) else b;
    if seen == BusOff then
      var (b2, attempt) := ShouldAttempt(b1, now);
      if attempt then (OnBusOff(b2, now), true) else (b2, false)
    else if seen == Active then (OnStableTick(b1, now), false)
    else (b1, false)
  }

  // ----- runs on the real clock -----

  datatype Attempt = Attempt(time: nat, delay: u32)

  /** `due` and `stable` are the instants the counters stand for; `attempts` lists every recovery request
      with the delay it escalated to, and `resets` counts returns to the base delay. */
  datatype Run = Run(b: Backoff, last: Seen, now: nat, due: nat, stable: nat, attempts: seq<Attempt>, resets: nat)

  datatype Pass = Pass(elapsed: nat, seen: Seen)

  /** First part of a pass: time goes by and an edge is handled. */
  function AtEdge(r: Run, p: Pass): Run {
    var now := r.now + p.elapsed;
    if p.seen == r.last then r.(now := now)
    else if p.seen == BusOff then r.(now := now, b := OnBusOff(r.b, now % WRAP), due := now + r.b.delay)
    else if r.last == BusOff && p.seen == Active then r.(now := now, b := OnRecovered(r.b, now % WRAP), stable := now)
    else r.(now := now)
  }

  /** Second part: a due attempt, which re-arms the schedule at the escalated delay. */
  function AtAttempt(r: Run): Run {
    var (b, attempt) := ShouldAttempt(r.b, r.now % WRAP);
    if !attempt then r
    else r.(b := OnBusOff(b, r.now % WRAP), due := r.now + b.delay, attempts := r.attempts + [Attempt(r.now, b.delay)])
  }

  /** Or, on a healthy bus, the return to the base delay. */
  function AtTick(r: Run): Run {
    var b := OnStableTick(r.b, r.now % WRAP);
    r.(b := b, resets := if b == r.b then r.resets else r.resets + 1)
  }

  function After(r: Run, p: Pass): Run {
    var r1 := AtEdge(r, p);
    var r2 := if p.seen == BusOff then AtAttempt(r1) else if p.seen == Active then AtTick(r1) else r1;
    r2.(last := p.seen)
  }

  /** The parts together are the loop's pass. */
  lemma AfterIsLoopPass(r: Run, p: Pass)
    ensures var (b, attempt) := LoopPass(r.b, r.last, p.seen, (r.now + p.elapsed) % WRAP);
      After(r, p).b == b && (attempt <==> |After(r, p).attempts| == |r.attempts| + 1)
  {
    hide Passed, Elapsed;
  }

  /** The delays of the schedule. */
  ghost predicate Scheduled(delay: u32) {
    exists k: nat :: k <= 5 && delay == INITIAL_DELAY * Pow2(k)
  }

  predicate IsDelay(d: u32) { d == 100 || d == 200 || d == 400 || d == 800 || d == 1600 || d == 3200 }

  lemma DelayIs(d: u32)
    ensures IsDelay(d) <==> Scheduled(d)
  {
    assert Pow2(0) == 1 && Pow2(1) == 2 && Pow2(2) == 4;
    assert Pow2(3) == 8 && Pow2(4) == 16 && Pow2(5) == 32;
    if IsDelay(d) {
      var k := if d == 100 then 0 else if d == 200 then 1 else if d == 400 then 2 else if d == 800 then 3 else if d == 1600 then 4 else 5;
      assert d == INITIAL_DELAY * Pow2(k);
    }
    if Scheduled(d) {
      var k: nat :| k <= 5 && d == INITIAL_DELAY * Pow2(k);
      assert k == 0 || k == 1 || k == 2 || k == 3 || k == 4 || k == 5;
    }
  }

  ghost predicate Inv(r: Run) {
    && IsDelay(r.b.delay)
    && (r.b.pending ==> r.b.dueAt == r.due % WRAP && r.due <= r.now + MAX_DELAY)
    && (r.b.stableValid ==> r.b.stableSince == r.stable % WRAP && r.stable <= r.now)
    && (forall i :: 0 <= i < |r.attempts| ==> r.attempts[i].time <= r.now && IsDelay(r.attempts[i].delay))
    && (forall i :: 0 <= i < |r.attempts| - 1 ==> r.attempts[i].time + r.attempts[i].delay <= r.attempts[i + 1].time)
    && (r.attempts != [] ==>
          var a := r.attempts[|r.attempts| - 1];
          && (r.b.pending ==> a.time + a.delay <= r.due)
          && (r.b.stableValid ==> a.time <= r.stable)
          && (r.b.delay == a.delay || a.time + STABLE_RESET <= r.now))
  }

  /** A deadline at most 3.2 s ahead reads as passed only when it has. */
  lemma PassedIsPast(now: nat, due: nat)
    requires Passed(now % WRAP, due % WRAP) && due <= now + MAX_DELAY
    ensures due <= now
  {
    if now < due {
      ElapsedOf(due, now);
    }
  }

  lemma ElapsedOf(due: nat, now: nat)
    requires now < due <= now + MAX_DELAY
    ensures Elapsed(now % WRAP, due % WRAP) == WRAP - (due - now)
  {
  }

  /** The counter difference never exceeds the time that has really gone by. */
  lemma ElapsedAtMost(now: nat, since: nat)
    requires since <= now
    ensures Elapsed(now % WRAP, since % WRAP) <= now - since
  {
    ModDifference(now, since);
  }

  lemma ModDifference(now: nat, since: nat)
    requires since <= now
    ensures (now % WRAP - since % WRAP) % WRAP == (now - since) % WRAP
  {
  }

  lemma DueIs(now: nat, delay: u32)
    ensures (now % WRAP + delay) % WRAP == (now + delay) % WRAP
  {
  }

  lemma EscalatedIs(d: u32)
    requires IsDelay(d)
    ensures IsDelay(Escalated(d)) && Escalated(d) == Min(2 * d, MAX_DELAY) && 100 <= d <= MAX_DELAY
  {
  }

  lemma EdgeInv(r: Run, p: Pass)
    requires Inv(r)
    ensures Inv(AtEdge(r, p))
  {
    EscalatedIs(r.b.delay);
    DueIs(r.now + p.elapsed, r.b.delay);
    hide IsDelay;
  }

  lemma AttemptInv(r: Run)
    requires Inv(r)
    ensures Inv(AtAttempt(r))
  {
    EscalatedIs(r.b.delay);
    DueIs(r.now, Escalated(r.b.delay));
    if r.b.pending && Passed(r.now % WRAP, r.b.dueAt) {
      PassedIsPast(r.now, r.due);
    }
    hide Passed, IsDelay, Escalated;
  }

  lemma TickInv(r: Run)
    requires Inv(r)
    ensures Inv(AtTick(r))
  {
    if r.b.stableValid {
      ElapsedAtMost(r.now, r.stable);
    }
    hide Elapsed;
  }

  lemma StepInv(r: Run, p: Pass)
    requires Inv(r)
    ensures Inv(After(r, p))
  {
    hide AtEdge, AtAttempt, AtTick;
    EdgeInv(r, p);
    var r1 := AtEdge(r, p);
    if p.seen == BusOff { AttemptInv(r1); } else if p.seen == Active { TickInv(r1); }
  }

  function AfterAll(r: Run, ps: seq<Pass>): Run
    decreases |ps|
  {
    if ps == [] then r else AfterAll(After(r, ps[0]), ps[1..])
  }

  ghost predicate Initial(r: Run) {
    r.b == Backoff(INITIAL_DELAY, 0, 0, false, false) && r.attempts == [] && r.resets == 0
  }

  lemma {:induction false} RunInv(r: Run, ps: seq<Pass>)
    requires Inv(r)
    ensures Inv(AfterAll(r, ps))
    decreases |ps|
  {
    if ps != [] {
      hide Inv, After;
      StepInv(r, ps[0]);
      RunInv(After(r, ps[0]), ps[1..]);
    }
  }

  /** In every run, across any number of counter wraps: the delay is 100 ms doubled at most five times,
      and each recovery request is at least the delay it follows after the one before. */
  lemma AttemptsAreSpaced(r: Run, ps: seq<Pass>)
    requires Initial(r)
    ensures var q := AfterAll(r, ps);
      && Scheduled(q.b.delay)
      && (forall i :: 0 <= i < |q.attempts| ==> Scheduled(q.attempts[i].delay))
      && forall i :: 0 <= i < |q.attempts| - 1 ==> q.attempts[i].time + q.attempts[i].delay <= q.attempts[i + 1].time
  {
    RunInv(r, ps);
    var q := AfterAll(r, ps);
    DelayIs(q.b.delay);
    forall i | 0 <= i < |q.attempts| ensures Scheduled(q.attempts[i].delay) { DelayIs(q.attempts[i].delay); }
  }

  // ----- how many attempts a dead bus costs -----

  /** The least delay the attempt `i` of a streak escalates to. */
  function Level(i: nat): nat { if i == 0 then 200 else if i == 1 then 400 else if i == 2 then 800 else if i == 3 then 1600 else 3200 }

  /** Time from the first attempt of a streak to attempt `i`, at the least. */
  function Reach(i: nat): nat { if i == 0 then 0 else Reach(i - 1) + Level(i - 1) }

  /** Since attempt `from` the delay has only gone up. */
  ghost predicate Escalating(r: Run, from: nat) {
    && from <= |r.attempts|
    && (forall i :: from <= i < |r.attempts| ==> r.attempts[i].delay >= Level(i - from))
    && (|r.attempts| > from ==> r.b.delay >= Level(|r.attempts| - from - 1))
  }

  lemma EscalatingStep(r: Run, p: Pass, from: nat)
    requires Inv(r) && Escalating(r, from) && After(r, p).resets == r.resets
    ensures Escalating(After(r, p), from)
  {
    hide Passed, Elapsed;
    var r1 := AtEdge(r, p);
    if p.seen == BusOff {
      var (b, attempt) := ShouldAttempt(r1.b, r1.now % WRAP);
      EscalatedIs(r.b.delay);
      hide IsDelay, Escalated;
    }
  }

  lemma {:induction false} ReachTime(r: Run, from: nat, i: nat)
    requires Inv(r) && Escalating(r, from) && from <= i < |r.attempts|
    ensures r.attempts[i].time >= r.attempts[from].time + Reach(i - from)
    decreases i
  {
    if i > from {
      ReachTime(r, from, i - 1);
      hide Level;
      assert r.attempts[i - 1].time + r.attempts[i - 1].delay <= r.attempts[i].time;
    }
  }

  lemma {:induction false} ReachGrows(i: nat)
    ensures i >= 4 ==> Reach(i) == 3000 + 3200 * (i - 4)
    ensures i <= 4 + Reach(i) / 3200
  {
    assert Reach(1) == 200 && Reach(2) == 600 && Reach(3) == 1400 && Reach(4) == 3000 by {
      assert Reach(0) == 0;
    }
    if i > 4 { ReachGrows(i - 1); }
  }

  lemma {:induction false} EscalatingRun(r: Run, ps: seq<Pass>, from: nat)
    requires Inv(r) && Escalating(r, from) && AfterAll(r, ps).resets == r.resets
    ensures Escalating(AfterAll(r, ps), from)
    decreases |ps|
  {
    if ps != [] {
      ResetsGrow(r, ps[0]);
      ResetsGrowAll(After(r, ps[0]), ps[1..]);
      hide Inv, Escalating, After;
      EscalatingStep(r, ps[0], from);
      StepInv(r, ps[0]);
      EscalatingRun(After(r, ps[0]), ps[1..], from);
    }
  }

  lemma ResetsGrow(r: Run, p: Pass)
    ensures After(r, p).resets >= r.resets
  {
  }

  lemma {:induction false} ResetsGrowAll(r: Run, ps: seq<Pass>)
    ensures AfterAll(r, ps).resets >= r.resets
    decreases |ps|
  {
    if ps != [] {
      ResetsGrow(r, ps[0]);
      ResetsGrowAll(After(r, ps[0]), ps[1..]);
      hide After;
    }
  }

  /** From any point of a run on, as long as no stable period intervenes: the attempts made within `t` ms
      of the first of them are at most 5 + t / 3200. */
  lemma FewAttempts(r: Run, ps: seq<Pass>, i: nat)
    requires Inv(r) && AfterAll(r, ps).resets == r.resets && |r.attempts| + i < |AfterAll(r, ps).attempts|
    ensures var q, from := AfterAll(r, ps), |r.attempts|;
      var t := q.attempts[from + i].time - q.attempts[from].time;
      t >= 0 && i + 1 <= 5 + t / 3200
  {
    var q, from := AfterAll(r, ps), |r.attempts|;
    hide Reach, Escalating, AfterAll, Inv;
    RunInv(r, ps);
    EscalatingStart(r);
    EscalatingRun(r, ps, from);
    ReachTime(q, from, from + i);
    ReachGrows(i);
    Slower(q.attempts[from + i].time - q.attempts[from].time, Reach(i));
  }

  lemma EscalatingStart(r: Run)
    ensures Escalating(r, |r.attempts|)
  {
  }

  lemma Slower(t: nat, s: nat)
    requires t >= s
    ensures t / 3200 >= s / 3200
  {
  }

  // ----- and how few -----

  /** A reading of the two counters less than 2^31 ms behind the deadline shows it as passed. */
  lemma PastIsPassed(now: nat, due: nat)
    requires due <= now
    ensures Passed(now % WRAP, due % WRAP) <==> (now - due) % WRAP < 0x8000_0000
  {
    ModDifference(now, due);
  }

  /** A pass requests recovery exactly when it reads bus-off, as the pass before did, and the instant due has come;
      a pass later than that by 2^31 ms, or by half of any further wrap of the clock, misses it. */
  lemma AttemptIffDue(r: Run, p: Pass)
    requires Inv(r) && (r.last == BusOff ==> r.b.pending)
    ensures var q, now := After(r, p), r.now + p.elapsed;
      && (q.attempts != r.attempts <==> p.seen == BusOff && r.last == BusOff && r.due <= now && (now - r.due) % WRAP < 0x8000_0000)
      && (q.attempts != r.attempts ==>
            q.attempts == r.attempts + [Attempt(now, q.b.delay)] && q.due == now + q.b.delay && q.b.delay == Min(2 * r.b.delay, MAX_DELAY))
      && (p.seen == BusOff && r.last != BusOff ==> q.due == now + r.b.delay && q.b.delay == r.b.delay)
      && (p.seen == BusOff ==> q.b.pending) && (p.seen == BusOff && r.last == BusOff && q.attempts == r.attempts ==> q.due == r.due && q.b == r.b)
  {
    EscalatedIs(r.b.delay);
    var r1 := AtEdge(r, p);
    var now := r1.now;
    if p.seen == BusOff && r.last != BusOff {
      DueIs(now, r.b.delay);
      if Passed(now % WRAP, r1.b.dueAt) { PassedIsPast(now, r1.due); }
    } else if p.seen == BusOff {
      if r.due <= now { PastIsPassed(now, r.due); } else if Passed(now % WRAP, r.b.dueAt) { PassedIsPast(now, r.due); }
    }
    hide Passed, IsDelay, Escalated, Elapsed;
  }

  /** Since attempt `from` the bus has been dead and looked at every `gap` ms or more often. */
  ghost predicate Prompt(r: Run, from: nat, gap: nat) {
    && Inv(r) && r.last == BusOff && r.b.pending && r.now < r.due && from <= |r.attempts|
    && (|r.attempts| > from ==> var a := r.attempts[|r.attempts| - 1]; r.due == a.time + a.delay && r.b.delay == a.delay)
    && forall i :: from <= i < |r.attempts| - 1 ==>
         && r.attempts[i + 1].time < r.attempts[i].time + r.attempts[i].delay + gap
         && r.attempts[i + 1].delay == Min(2 * r.attempts[i].delay, MAX_DELAY)
  }

  lemma PromptStep(r: Run, p: Pass, from: nat, gap: nat)
    requires Prompt(r, from, gap) && p.seen == BusOff && p.elapsed <= gap < 0x8000_0000
    ensures Prompt(After(r, p), from, gap)
  {
    AttemptIffDue(r, p);
    StepInv(r, p);
    EscalatedIs(r.b.delay);
    NowIs(r, p);
    hide After, Inv, IsDelay;
    if r.due <= r.now + p.elapsed { SmallResidue(r.now + p.elapsed - r.due); }
  }

  lemma SmallResidue(n: nat)
    requires n < WRAP
    ensures n % WRAP == n
  {
  }

  lemma NowIs(r: Run, p: Pass)
    ensures After(r, p).now == r.now + p.elapsed && After(r, p).last == p.seen
  {
  }

  /** A bus that stays dead, from any point of a run on at which no request is due, and that is looked at every
      `gap` ms or more often: the requests go on for ever, each less than `gap` behind its time, at
      delays that double up to 3.2 s, and after every pass the next is at most 3.2 s away. */
  lemma {:induction false} AttemptsKeepComing(r: Run, ps: seq<Pass>, from: nat, gap: nat)
    requires Prompt(r, from, gap) && gap < 0x8000_0000
    requires forall i :: 0 <= i < |ps| ==> ps[i].seen == BusOff && ps[i].elapsed <= gap
    ensures var q := AfterAll(r, ps);
      && q.now < q.due <= q.now + MAX_DELAY
      && (forall i :: from <= i < |q.attempts| - 1 ==>
            && q.attempts[i + 1].time < q.attempts[i].time + q.attempts[i].delay + gap
            && q.attempts[i + 1].delay == Min(2 * q.attempts[i].delay, MAX_DELAY))
      && (|q.attempts| > from ==> var a := q.attempts[|q.attempts| - 1]; q.now < a.time + a.delay)
    decreases |ps|
  {
    if ps != [] {
      PromptStep(r, ps[0], from, gap);
      hide Prompt, After;
      AttemptsKeepComing(After(r, ps[0]), ps[1..], from, gap);
    }
  }

  /** The pass that finds the bus dead starts such a stretch. */
  lemma DeadBusIsPrompt(r: Run, p: Pass, gap: nat)
    requires Inv(r) && r.last != BusOff && p.seen == BusOff
    ensures Prompt(After(r, p), |r.attempts|, gap)
  {
    AttemptIffDue(r, p);
    StepInv(r, p);
    EscalatedIs(r.b.delay);
    NowIs(r, p);
    hide After, Inv, IsDelay;
  }

  // ----- the way back -----

  /** The port has been read as active ever since instant `since`, `delay` being in force then. */
  ghost predicate Calm(r: Run, since: nat, delay: u32) {
    && r.last == Active && since <= r.now && r.stable == since && r.b.stableSince == since % WRAP
    && if r.now < since + STABLE_RESET then r.b.stableValid && r.b.delay == delay
       else !r.b.stableValid && r.b.delay == INITIAL_DELAY
  }

  lemma CalmStep(r: Run, p: Pass, since: nat, delay: u32)
    requires Calm(r, since, delay) && p.seen == Active && p.elapsed <= 0x8000_0000
    ensures Calm(After(r, p), since, delay)
  {
    ModDifference(r.now + p.elapsed, since);
    if r.b.stableValid { SmallResidue(r.now + p.elapsed - since); }
  }

  /** A port that goes from bus-off to active and stays there, looked at every 2^31 ms or more often: the base delay
      is back from the first pass on that comes 10 s later, and not before. */
  lemma {:induction false} StableBusResets(r: Run, ps: seq<Pass>, since: nat, delay: u32)
    requires Calm(r, since, delay)
    requires forall i :: 0 <= i < |ps| ==> ps[i].seen == Active && ps[i].elapsed <= 0x8000_0000
    ensures var q := AfterAll(r, ps);
      q.b.delay == (if q.now < since + STABLE_RESET then delay else INITIAL_DELAY) && q.attempts == r.attempts
    decreases |ps|
  {
    if ps != [] {
      CalmStep(r, ps[0], since, delay);
      NoAttempt(r, ps[0]);
      hide Calm, After;
      StableBusResets(After(r, ps[0]), ps[1..], since, delay);
    }
  }

  lemma NoAttempt(r: Run, p: Pass)
    requires p.seen != BusOff
    ensures After(r, p).attempts == r.attempts
  {
  }

  lemma RecoveredIsCalm(r: Run, p: Pass)
    requires r.last == BusOff && p.seen == Active
    ensures Calm(After(r, p), r.now + p.elapsed, r.b.delay)
  {
    assert Elapsed((r.now + p.elapsed) % WRAP, (r.now + p.elapsed) % WRAP) == 0;
    hide Elapsed;
  }

  /** One that comes back by way of a degraded state keeps its delay, however long it stays up. */
  lemma {:induction false} DegradedKeepsDelay(r: Run, ps: seq<Pass>)
    requires r.last != BusOff && !r.b.stableValid && forall i :: 0 <= i < |ps| ==> ps[i].seen != BusOff
    ensures AfterAll(r, ps).b.delay == r.b.delay
    decreases |ps|
  {
    if ps != [] { DegradedKeepsDelay(After(r, ps[0]), ps[1..]); }
  }

  /** A dead bus read as degraded is such a one. */
  lemma DegradedIsNotCalm(r: Run, before: Pass, p: Pass)
    requires before.seen == BusOff && r.last != BusOff && p.seen == Degraded
    ensures var q := After(After(r, before), p); q.last == Degraded && !q.b.stableValid
  {
    hide Passed, Elapsed;
  }

  // ----- the class -----

  class RecoveryBackoff {
    var delay: u32
    var dueAt: u32
    var stableSince: u32
    var pending: bool
    var stableValid: bool
    var last: Seen

    ghost function State(): Backoff
      reads this
    {
      Backoff(delay, dueAt, stableSince, pending, stableValid)
    }

    constructor ()
      ensures State() == Backoff(INITIAL_DELAY, 0, 0, false, false) && last == Active
    {
      delay, dueAt, stableSince, pending, stableValid, last := INITIAL_DELAY, 0, 0, false, false, Active;
    }

    method BusOffAt(now: u32)
      modifies this
      ensures State() == OnBusOff(old(State()), now) && last == old(last)
    {
      pending, stableValid := true, false;
      dueAt := (now + delay) % WRAP;
    }

    method Attempts(now: u32) returns (attempt: bool)
      modifies this
      ensures (State(), attempt) == ShouldAttempt(old(State()), now) && last == old(last)
    {
      if !pending || !Passed(now, dueAt) {
        return false;
      }
      pending := false;
      var next := (delay * 2) % WRAP;
      delay := Min(next, MAX_DELAY);
      attempt := true;
    }

    method RecoveredAt(now: u32)
      modifies this
      ensures State() == OnRecovered(old(State()), now) && last == old(last)
    {
      pending := false;
      stableSince, stableValid := now, true;
    }

    method StableTick(now: u32)
      modifies this
      ensures State() == OnStableTick(old(State()), now) && last == old(last)
    {
      if stableValid && Elapsed(now, stableSince) >= STABLE_RESET {
        delay, stableValid := INITIAL_DELAY, false;
      }
    }

    /** What one loop pass does about recovery. */
    method Loop(seen: Seen, now: u32) returns (recover: bool)
      modifies this
      ensures (State(), recover) == LoopPass(old(State()), old(last), seen, now) && last == seen
    {
      hide Passed, Elapsed;
      recover := false;
      if seen != last {
        var wasBusOff := last == BusOff;
        last := seen;
        if seen == BusOff {
          BusOffAt(now);
        } else if wasBusOff && seen == Active {
          RecoveredAt(now);
        }
      }
      if seen == BusOff {
        recover := Attempts(now);
        if recover {
          BusOffAt(now);
        }
      } else if seen == Active {
        StableTick(now);
      }
    }
  }
}
