/** Folding runs of equally shaped fields into array records, and unfolding them again. */
module ArrayFolding {
  import opened Words
  import opened Sequences

  const MAX_REPEAT_COUNT := 255

  /** `shape` stands for unit, signedness, byte order, text flags and scales, which are only compared. */
  datatype Field = Field(name: string, bitPos: int, bitSize: nat, shape: int, count: nat, stride: int)

  /** How a service qualifier reads: without its numbers, and its trailing number. */
  datatype Names = Names(strip: string -> string, index: string -> Option<int>)

  datatype Run = Run(start: nat, count: nat, stride: int)

  predicate SameShape(a: Field, b: Field) {
    a.name == b.name && a.bitSize == b.bitSize && a.shape == b.shape
  }

  // ----- do the services read as element indices? -----

  function Matches(names: Names, services: seq<string>, base: int): nat {
    if services == [] then 0
    else
      var n := |services| - 1;
      Matches(names, services[..n], base) + if names.index(services[n]) == Some(n + base) then 1 else 0
  }

  /** A majority numbers 0.. or 1.. in step with its position. */
  predicate ReadsAsIndices(names: Names, services: seq<string>) {
    2 * Matches(names, services, 0) > |services| || 2 * Matches(names, services, 1) > |services|
  }

  method CountMatches(names: Names, services: seq<string>, base: int) returns (n: nat)
    ensures n == Matches(names, services, base)
  {
    n := 0;
    var k := 0;
    while k < |services|
      invariant 0 <= k <= |services| && n == Matches(names, services[..k], base)
    {
      assert services[..k + 1][..k] == services[..k];
      if names.index(services[k]) == Some(k + base) {
        n := n + 1;
      }
      k := k + 1;
    }
    assert services[..k] == services;
  }

  // ----- runs -----

  /** Field `j` continues the run before it at the stride found so far. */
  predicate Continues(fields: seq<Field>, services: seq<string>, names: Names, j: nat, stride: Option<int>)
    requires 0 < j < |fields| == |services|
  {
    var step := fields[j].bitPos - fields[j - 1].bitPos;
    && SameShape(fields[j - 1], fields[j])
    && names.strip(services[j]) == names.strip(services[j - 1])
    && step >= fields[j].bitSize
    && (stride.Some? ==> step == stride.value)
  }

  /** The end of the run through `j`, and its stride. */
  function RunEnd(fields: seq<Field>, services: seq<string>, names: Names, j: nat, stride: Option<int>): (r: (nat, Option<int>))
    requires 0 < j <= |fields| == |services|
    ensures j <= r.0 <= |fields|
    ensures stride.Some? ==> r.1 == stride
    ensures r.0 > j ==> r.1.Some?
    decreases |fields| - j
  {
    if j == |fields| || !Continues(fields, services, names, j, stride) then (j, stride)
    else RunEnd(fields, services, names, j + 1, Some(fields[j].bitPos - fields[j - 1].bitPos))
  }

  function Runs(fields: seq<Field>, services: seq<string>, names: Names, i: nat): seq<Run>
    requires i <= |fields| == |services|
    decreases |fields| - i
  {
    if i == |fields| then []
    else
      var (j, stride) := RunEnd(fields, services, names, i + 1, None);
      if j - i >= 3 && ReadsAsIndices(names, services[i..j]) then
        [Run(i, j - i, stride.value)] + Runs(fields, services, names, j)
      else Runs(fields, services, names, i + 1)
  }

  method FindRunEnd(fields: seq<Field>, services: seq<string>, names: Names, i: nat) returns (j: nat, stride: Option<int>)
    requires i < |fields| == |services|
    ensures (j, stride) == RunEnd(fields, services, names, i + 1, None)
  {
    j, stride := i + 1, None;
    while j < |fields| && Continues(fields, services, names, j, stride)
      invariant i < j <= |fields|
      invariant RunEnd(fields, services, names, j, stride) == RunEnd(fields, services, names, i + 1, None)
    {
      stride := Some(fields[j].bitPos - fields[j - 1].bitPos);
      j := j + 1;
    }
  }

  method FindArrayRuns(fields: seq<Field>, services: seq<string>, names: Names) returns (runs: seq<Run>)
    requires |fields| == |services|
    ensures runs == Runs(fields, services, names, 0)
  {
    hide ReadsAsIndices, Matches, RunEnd;
    ghost var all := Runs(fields, services, names, 0);
    runs := [];
    var i := 0;
    assert [] + all == all;
    while i < |fields|
      invariant 0 <= i <= |fields|
      invariant runs + Runs(fields, services, names, i) == all
    {
      var j, stride := FindRunEnd(fields, services, names, i);
      var zero := CountMatches(names, services[i..j], 0);
      var one := CountMatches(names, services[i..j], 1);
      ReadsIs(names, services[i..j]);
      ghost var rest := Runs(fields, services, names, i);
      if j - i >= 3 && (2 * zero > j - i || 2 * one > j - i) {
        var run := Run(i, j - i, stride.value);
        assert rest == [run] + Runs(fields, services, names, j);
        hide Runs;
        Regroup(runs, [run], Runs(fields, services, names, j));
        runs := runs + [run];
        i := j;
      } else {
        assert rest == Runs(fields, services, names, i + 1);
        i := i + 1;
      }
    }
    assert runs + [] == runs;
  }

  lemma ReadsIs(names: Names, services: seq<string>)
    ensures ReadsAsIndices(names, services) <==>
      2 * Matches(names, services, 0) > |services| || 2 * Matches(names, services, 1) > |services|
  {
  }

  /** Fields `i` to `j` are copies of the first at a constant, non-overlapping stride. */
  ghost predicate IsArray(fields: seq<Field>, i: nat, j: nat, stride: int) {
    i < j <= |fields| &&
    forall k :: i <= k < j ==>
      SameShape(fields[i], fields[k]) && fields[k].bitPos == fields[i].bitPos + (k - i) * stride && (k > i ==> stride >= fields[i].bitSize)
  }

  lemma {:induction false} RunIsArray(fields: seq<Field>, services: seq<string>, names: Names, i: nat, j: nat, stride: Option<int>)
    requires |fields| == |services| && i < j && (stride.None? ==> j == i + 1)
    requires IsArray(fields, i, j, if stride.Some? then stride.value else 0)
    ensures var (e, s) := RunEnd(fields, services, names, j, stride);
      IsArray(fields, i, e, if s.Some? then s.value else 0) && (stride.Some? ==> s == stride)
    decreases |fields| - j
  {
    if j < |fields| && Continues(fields, services, names, j, stride) {
      var step := fields[j].bitPos - fields[j - 1].bitPos;
      NextPlace(j - 1 - i, step);
      assert IsArray(fields, i, j + 1, step);
      RunIsArray(fields, services, names, i, j + 1, Some(step));
    }
  }

  lemma NextPlace(k: int, step: int)
    ensures (k + 1) * step == k * step + step
  {
  }

  // ----- folding -----

  datatype Folded = TooLong(name: string) | Folded(fields: seq<Field>, services: seq<string>)

  function Record(fields: seq<Field>, r: Run): Field
    requires r.start < |fields|
  {
    fields[r.start].(count := r.count, stride := r.stride)
  }

  /** Runs are in order and inside the list. */
  ghost predicate RunsFrom(runs: seq<Run>, i: nat, n: nat)
    decreases |runs|
  {
    runs == [] || (i <= runs[0].start && runs[0].count > 0 && runs[0].start + runs[0].count <= n &&
                   RunsFrom(runs[1..], runs[0].start + runs[0].count, n))
  }

  function Fold(fields: seq<Field>, services: seq<string>, names: Names, runs: seq<Run>, i: nat): Folded
    requires i <= |fields| == |services| && RunsFrom(runs, i, |fields|)
    decreases |fields| - i
  {
    if i == |fields| then Folded([], [])
    else if runs != [] && runs[0].start == i then
      if runs[0].count > MAX_REPEAT_COUNT then TooLong(fields[i].name)
      else
        match Fold(fields, services, names, runs[1..], i + runs[0].count)
        case TooLong(name) => TooLong(name)
        case Folded(fs, ss) => Folded([Record(fields, runs[0])] + fs, [names.strip(services[i])] + ss)
    else
      match Fold(fields, services, names, runs, i + 1)
      case TooLong(name) => TooLong(name)
      case Folded(fs, ss) => Folded([fields[i]] + fs, [services[i]] + ss)
  }

  /** Element `k` of a record. */
  function Element(f: Field, k: nat): Field {
    f.(bitPos := f.bitPos + k * f.stride, count := 1, stride := 0)
  }

  function Elements(f: Field): seq<Field> {
    seq(f.count, k requires 0 <= k < f.count => Element(f, k))
  }

  /** Every record replaced by its elements. */
  function Unfold(fields: seq<Field>): seq<Field> {
    if fields == [] then [] else Elements(fields[0]) + Unfold(fields[1..])
  }

  ghost predicate AllPlain(fields: seq<Field>) {
    forall k :: 0 <= k < |fields| ==> fields[k].count == 1 && fields[k].stride == 0
  }

  ghost predicate RunsAreArrays(fields: seq<Field>, runs: seq<Run>) {
    forall k :: 0 <= k < |runs| ==>
      IsArray(fields, runs[k].start, runs[k].start + runs[k].count, runs[k].stride) && runs[k].count >= 3
  }

  lemma {:induction false} RunsOk(fields: seq<Field>, services: seq<string>, names: Names, i: nat)
    requires i <= |fields| == |services|
    ensures RunsFrom(Runs(fields, services, names, i), i, |fields|) && RunsAreArrays(fields, Runs(fields, services, names, i))
    decreases |fields| - i
  {
    hide IsArray, ReadsAsIndices, RunEnd;
    if i < |fields| {
      var (j, stride) := RunEnd(fields, services, names, i + 1, None);
      if j - i >= 3 && ReadsAsIndices(names, services[i..j]) {
        RunsOk(fields, services, names, j);
        StartIsArray(fields, i);
        RunIsArray(fields, services, names, i, i + 1, None);
      } else {
        RunsOk(fields, services, names, i + 1);
        LaterStart(Runs(fields, services, names, i + 1), i, |fields|);
      }
    }
  }

  lemma StartIsArray(fields: seq<Field>, i: nat)
    requires i < |fields|
    ensures IsArray(fields, i, i + 1, 0)
  {
  }

  lemma LaterStart(runs: seq<Run>, i: nat, n: nat)
    requires RunsFrom(runs, i + 1, n)
    ensures RunsFrom(runs, i, n)
  {
  }

  // ----- the runs are the ones the rules describe, and all of them -----

  /** Fields `i` to `j` continue one another at one stride. */
  ghost predicate Chain(fields: seq<Field>, services: seq<string>, names: Names, i: nat, j: nat, stride: Option<int>)
    requires |fields| == |services|
  {
    i < j <= |fields| &&
    forall k :: i < k < j ==> stride.Some? && Continues(fields, services, names, k, stride)
  }

  /** A chain that the next field, if there is one, does not continue. */
  ghost predicate Maximal(fields: seq<Field>, services: seq<string>, names: Names, i: nat, j: nat, stride: Option<int>)
    requires |fields| == |services|
  {
    Chain(fields, services, names, i, j, stride) && (j < |fields| ==> !Continues(fields, services, names, j, stride))
  }

  lemma {:induction false} RunEndMaximal(fields: seq<Field>, services: seq<string>, names: Names, i: nat, j: nat, stride: Option<int>)
    requires |fields| == |services| && Chain(fields, services, names, i, j, stride) && (stride.None? <==> j == i + 1)
    ensures var (e, s) := RunEnd(fields, services, names, j, stride);
      Maximal(fields, services, names, i, e, s) && (s.None? <==> e == i + 1)
    decreases |fields| - j
  {
    if j < |fields| && Continues(fields, services, names, j, stride) {
      RunEndMaximal(fields, services, names, i, j + 1, Some(fields[j].bitPos - fields[j - 1].bitPos));
    }
  }

  /** There is one maximal chain from a field. */
  lemma {:induction false} OneChain(fields: seq<Field>, services: seq<string>, names: Names, i: nat, j: nat, stride: Option<int>,
                                    e: nat, s: Option<int>)
    requires |fields| == |services| && (stride.None? <==> j == i + 1) && (s.None? <==> e == i + 1) && i < j <= e
    requires Chain(fields, services, names, i, j, stride) && Maximal(fields, services, names, i, e, s)
    requires stride.Some? ==> stride == s
    ensures RunEnd(fields, services, names, j, stride) == (e, s)
    decreases e - j
  {
    if j < e {
      var step := Some(fields[j].bitPos - fields[j - 1].bitPos);
      assert Continues(fields, services, names, j, s) && step == s;
      OneChain(fields, services, names, i, j + 1, step, e, s);
    }
  }

  /** A maximal chain long enough whose services read as indices. */
  ghost predicate Qualifies(fields: seq<Field>, services: seq<string>, names: Names, i: nat, j: nat, stride: int)
    requires |fields| == |services|
  {
    Maximal(fields, services, names, i, j, Some(stride)) && j - i >= 3 && ReadsAsIndices(names, services[i..j])
  }

  ghost predicate Inside(runs: seq<Run>, i: nat) {
    exists k :: 0 <= k < |runs| && runs[k].start < i < runs[k].start + runs[k].count
  }

  ghost predicate Starts(runs: seq<Run>, i: nat, count: nat, stride: int) {
    exists k :: 0 <= k < |runs| && runs[k] == Run(i, count, stride)
  }

  lemma RunAt(fields: seq<Field>, services: seq<string>, names: Names, i: nat, j: nat, stride: int)
    requires i < |fields| == |services|
    ensures var (e, s) := RunEnd(fields, services, names, i + 1, None);
      Qualifies(fields, services, names, i, j, stride) <==>
      (j, Some(stride)) == (e, s) && j - i >= 3 && ReadsAsIndices(names, services[i..j])
  {
    RunEndMaximal(fields, services, names, i, i + 1, None);
    if Qualifies(fields, services, names, i, j, stride) {
      OneChain(fields, services, names, i, i + 1, None, j, Some(stride));
    }
    hide Continues, ReadsAsIndices, RunEnd;
  }

  /** The runs found are exactly the qualifying chains that do not start inside an earlier one. */
  lemma {:induction false} RunsAreTheQualifying(fields: seq<Field>, services: seq<string>, names: Names, from: nat, i: nat, j: nat, stride: int)
    requires from <= i < j <= |fields| == |services|
    ensures var runs := Runs(fields, services, names, from);
      Starts(runs, i, j - i, stride) <==> Qualifies(fields, services, names, i, j, stride) && !Inside(runs, i)
    decreases |fields| - from
  {
    hide ReadsAsIndices, RunEnd, Qualifies;
    var runs := Runs(fields, services, names, from);
    var (e, s) := RunEnd(fields, services, names, from + 1, None);
    RunsOk(fields, services, names, from);
    RunAt(fields, services, names, from, e, if s.Some? then s.value else 0);
    RunAt(fields, services, names, from, j, stride);
    if e - from >= 3 && ReadsAsIndices(names, services[from..e]) {
      var run, rest := Run(from, e - from, s.value), Runs(fields, services, names, e);
      assert runs == [run] + rest;
      hide Runs, IsArray;
      FirstStarts(run, rest, i, j - i, stride);
      LaterRuns(rest, e, |fields|);
      if i >= e { RunsAreTheQualifying(fields, services, names, e, i, j, stride); }
    } else {
      assert runs == Runs(fields, services, names, from + 1);
      hide Runs, IsArray;
      LaterRuns(runs, from + 1, |fields|) by { RunsOk(fields, services, names, from + 1); }
      if i > from { RunsAreTheQualifying(fields, services, names, from + 1, i, j, stride); }
    }
  }

  lemma FirstStarts(run: Run, rest: seq<Run>, i: nat, count: nat, stride: int)
    ensures Starts([run] + rest, i, count, stride) <==> run == Run(i, count, stride) || Starts(rest, i, count, stride)
    ensures Inside([run] + rest, i) <==> run.start < i < run.start + run.count || Inside(rest, i)
  {
    var runs := [run] + rest;
    assert runs[0] == run && forall k :: 0 <= k < |rest| ==> runs[k + 1] == rest[k];
  }

  lemma {:induction false} LaterRuns(runs: seq<Run>, from: nat, n: nat)
    requires RunsFrom(runs, from, n)
    ensures forall k :: 0 <= k < |runs| ==> from <= runs[k].start
    decreases |runs|
  {
    if runs != [] {
      LaterRuns(runs[1..], runs[0].start + runs[0].count, n);
      assert forall k :: 0 < k < |runs| ==> runs[k] == runs[1..][k - 1];
    }
  }

  /** A record's elements are the fields it replaced. */
  lemma ElementsAre(fields: seq<Field>, r: Run)
    requires AllPlain(fields) && IsArray(fields, r.start, r.start + r.count, r.stride)
    ensures Elements(Record(fields, r)) == fields[r.start..r.start + r.count]
  {
    var f := Record(fields, r);
    forall k | 0 <= k < r.count ensures Elements(f)[k] == fields[r.start + k] {
      assert SameShape(fields[r.start], fields[r.start + k]);
      assert fields[r.start + k].bitPos == fields[r.start].bitPos + k * r.stride;
    }
  }

  lemma {:induction false} FoldInverts(fields: seq<Field>, services: seq<string>, names: Names, runs: seq<Run>, i: nat)
    requires i <= |fields| == |services| && RunsFrom(runs, i, |fields|) && AllPlain(fields) && RunsAreArrays(fields, runs)
    ensures var r := Fold(fields, services, names, runs, i);
      r.Folded? ==> Unfold(r.fields) == fields[i..] && |r.fields| == |r.services|
    decreases |fields| - i
  {
    hide IsArray, Elements, SameShape;
    if i < |fields| {
      if runs != [] && runs[0].start == i {
        var j := i + runs[0].count;
        var r := Fold(fields, services, names, runs[1..], j);
        ElementsAre(fields, runs[0]);
        FoldInverts(fields, services, names, runs[1..], j);
        if r.Folded? { UnfoldFirst(Record(fields, runs[0]), r.fields); }
        Slices(fields, i, j);
        hide Record, Unfold, AllPlain, RunsAreArrays, RunsFrom;
      } else {
        var r := Fold(fields, services, names, runs, i + 1);
        FoldInverts(fields, services, names, runs, i + 1);
        if r.Folded? { UnfoldFirst(fields[i], r.fields); }
        PlainElements(fields[i]);
        Slices(fields, i, i + 1);
        assert fields[i..i + 1] == [fields[i]];
        hide Unfold, AllPlain, RunsAreArrays, RunsFrom;
      }
    }
  }

  /** Folding gives up exactly over a run longer than the record format can count. */
  lemma {:induction false} TooLongIff(fields: seq<Field>, services: seq<string>, names: Names, runs: seq<Run>, i: nat)
    requires i <= |fields| == |services| && RunsFrom(runs, i, |fields|)
    ensures Fold(fields, services, names, runs, i).TooLong? <==> exists k :: 0 <= k < |runs| && runs[k].count > MAX_REPEAT_COUNT
    decreases |fields| - i
  {
    if i < |fields| {
      if runs != [] && runs[0].start == i {
        var j := i + runs[0].count;
        TooLongIff(fields, services, names, runs[1..], j);
        assert forall k :: 0 < k < |runs| ==> runs[k] == runs[1..][k - 1];
        assert forall k :: 0 <= k < |runs[1..]| ==> runs[1..][k] == runs[k + 1];
      } else {
        TooLongIff(fields, services, names, runs, i + 1);
      }
    }
  }

  lemma Slices(fields: seq<Field>, i: nat, j: nat)
    requires i <= j <= |fields|
    ensures fields[i..j] + fields[j..] == fields[i..]
  {
  }

  lemma PlainElements(f: Field)
    requires f.count == 1 && f.stride == 0
    ensures Elements(f) == [f]
  {
  }

  lemma UnfoldFirst(f: Field, rest: seq<Field>)
    ensures Unfold([f] + rest) == Elements(f) + Unfold(rest)
  {
    assert ([f] + rest)[1..] == rest;
  }

  /** Two elements of one array never share a bit. */
  lemma ElementsApart(fields: seq<Field>, r: Run, k: nat, l: nat)
    requires IsArray(fields, r.start, r.start + r.count, r.stride) && k < l < r.count
    ensures var f := Record(fields, r);
      Element(f, k).bitPos + f.bitSize <= Element(f, l).bitPos
  {
    var f := Record(fields, r);
    assert SameShape(fields[r.start], fields[r.start + l]) && r.stride >= f.bitSize;
    assert l * r.stride == k * r.stride + (l - k) * r.stride;
    AtLeastOne(l - k, r.stride);
  }

  lemma AtLeastOne(n: nat, s: int)
    requires n >= 1 && s >= 0
    ensures n * s >= s
  {
  }

  method CollapseArrays(fields: seq<Field>, services: seq<string>, names: Names) returns (r: Folded)
    requires |fields| == |services|
    ensures RunsFrom(Runs(fields, services, names, 0), 0, |fields|)
    ensures r == Fold(fields, services, names, Runs(fields, services, names, 0), 0)
  {
    RunsOk(fields, services, names, 0);
    var runs := FindArrayRuns(fields, services, names);
    hide Runs, RunsAreArrays;
    var outFields: seq<Field>, outServices: seq<string> := [], [];
    var i, next := 0, 0;
    ghost var goal := Fold(fields, services, names, runs, 0);
    assert runs[0..] == runs;
    while i < |fields|
      invariant 0 <= i <= |fields| && 0 <= next <= |runs|
      invariant RunsFrom(runs[next..], i, |fields|)
      invariant goal == Prefixed(outFields, outServices, Fold(fields, services, names, runs[next..], i))
    {
      var isRun := next < |runs| && runs[next].start == i;
      assert next < |runs| ==> runs[next..][0] == runs[next] && runs[next..][1..] == runs[next + 1..];
      if isRun {
        var run := runs[next];
        if run.count > MAX_REPEAT_COUNT {
          return TooLong(fields[i].name);
        }
        PrefixedStep(outFields, outServices, Record(fields, run), names.strip(services[i]),
                     Fold(fields, services, names, runs[next + 1..], i + run.count));
        outFields := outFields + [Record(fields, run)];
        outServices := outServices + [names.strip(services[i])];
        i := i + run.count;
        next := next + 1;
      } else {
        PrefixedStep(outFields, outServices, fields[i], services[i], Fold(fields, services, names, runs[next..], i + 1));
        outFields := outFields + [fields[i]];
        outServices := outServices + [services[i]];
        i := i + 1;
      }
    }
    assert outFields + [] == outFields && outServices + [] == outServices;
    r := Folded(outFields, outServices);
  }

  function Prefixed(fields: seq<Field>, services: seq<string>, r: Folded): Folded {
    match r case TooLong(name) => r case Folded(fs, ss) => Folded(fields + fs, services + ss)
  }

  lemma PrefixedStep(fields: seq<Field>, services: seq<string>, f: Field, s: string, r: Folded)
    ensures Prefixed(fields + [f], services + [s], r) == Prefixed(fields, services, Prefixed([f], [s], r))
  {
    if r.Folded? {
      assert fields + [f] + r.fields == fields + ([f] + r.fields);
      assert services + [s] + r.services == services + ([s] + r.services);
    }
  }

  /** Folding loses nothing: expanding every array record gives back the list, field for field. */
  lemma FoldingIsInvertible(fields: seq<Field>, services: seq<string>, names: Names)
    requires |fields| == |services| && AllPlain(fields)
    ensures RunsFrom(Runs(fields, services, names, 0), 0, |fields|)
    ensures var r := Fold(fields, services, names, Runs(fields, services, names, 0), 0);
      r.Folded? ==> Unfold(r.fields) == fields
  {
    RunsOk(fields, services, names, 0);
    FoldInverts(fields, services, names, Runs(fields, services, names, 0), 0);
    assert fields[0..] == fields;
  }
}
