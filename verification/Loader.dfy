/** The loader as it runs against a database that may become unavailable before any statement. */
module Loaders {
  import opened Words
  import opened LoaderSpec
  import opened LoaderRows
  import opened Sequences

  /** How much of a statement list gets through before the database is gone. */
  function Through(ops: seq<Op>, budget: nat): (sent: seq<Op>)
    ensures sent <= ops && |sent| == Min(budget, |ops|)
  {
    ops[..Min(budget, |ops|)]
  }

  /** The statements went out in order until the budget was spent; `ok` says all of them did. */
  ghost predicate Sends(log0: seq<Op>, budget0: nat, ops: seq<Op>, ok: bool, log: seq<Op>, budget: nat) {
    log == log0 + Through(ops, budget0) && ok == (|ops| <= budget0) && budget == budget0 - Min(budget0, |ops|)
  }

  lemma SendsJoin(log0: seq<Op>, budget0: nat, a: seq<Op>, log1: seq<Op>, budget1: nat, b: seq<Op>, ok: bool, log2: seq<Op>, budget2: nat)
    requires Sends(log0, budget0, a, true, log1, budget1) && Sends(log1, budget1, b, ok, log2, budget2)
    ensures Sends(log0, budget0, a + b, ok, log2, budget2)
  {
    assert Through(a + b, budget0) == a + Through(b, budget0 - |a|);
  }

  lemma SendsNoMore(log0: seq<Op>, budget0: nat, a: seq<Op>, b: seq<Op>, log: seq<Op>, budget: nat)
    requires Sends(log0, budget0, a, false, log, budget)
    ensures Sends(log0, budget0, a + b, false, log, budget)
  {
    assert Through(a + b, budget0) == Through(a, budget0);
  }

  lemma SendsNothing(log: seq<Op>, budget: nat)
    ensures Sends(log, budget, [], true, log, budget)
  {
  }

  class Sink {
    var tables: Tables
    var budget: nat
    ghost var log: seq<Op>
    ghost const start: Tables

    ghost predicate Valid()
      reads this
    {
      tables == AllApplied(start, log)
    }

    constructor (tables: Tables, budget: nat)
      ensures Valid() && start == tables && this.tables == tables && log == [] && this.budget == budget
    {
      this.tables, start, this.budget, log := tables, tables, budget, [];
    }

    method Execute(op: Op) returns (ok: bool)
      requires Valid()
      modifies this
      ensures Valid() && Sends(old(log), old(budget), [op], ok, log, budget)
    {
      if budget == 0 {
        return false;
      }
      AppliedJoin(start, log, [op]);
      AppliedOne(tables, op);
      tables := Applied(tables, op);
      log := log + [op];
      budget := budget - 1;
      ok := true;
    }

    method ExecuteAll(ops: seq<Op>) returns (ok: bool)
      requires Valid()
      modifies this
      ensures Valid() && Sends(old(log), old(budget), ops, ok, log, budget)
    {
      SendsNothing(log, budget);
      hide Sends, AllApplied;
      var i := 0;
      assert ops[..0] == [];
      while i < |ops|
        invariant 0 <= i <= |ops| && Valid()
        invariant Sends(old(log), old(budget), ops[..i], true, log, budget)
      {
        ghost var log1, budget1 := log, budget;
        ok := Execute(ops[i]);
        SendsJoin(old(log), old(budget), ops[..i], log1, budget1, [ops[i]], ok, log, budget);
        assert ops[..i] + [ops[i]] == ops[..i + 1];
        if !ok {
          SendsNoMore(old(log), old(budget), ops[..i + 1], ops[i + 1..], log, budget);
          assert ops[..i + 1] + ops[i + 1..] == ops;
          return;
        }
        i := i + 1;
      }
      assert ops[..i] == ops;
      ok := true;
    }
  }

  /** Records are read one by one, and a buffer is sent as soon as it holds a batch. */
  method ReadRecords(sink: Sink, chunk: Content, records: seq<Record>, batch: nat) returns (ok: bool, b: Buffers, inserted: bool)
    requires sink.Valid()
    modifies sink
    ensures sink.Valid()
    ensures var (ops, left) := ReadOps(chunk, records, Buffers([], [], []), batch);
      Sends(old(sink.log), old(sink.budget), ops, ok, sink.log, sink.budget) && (ok ==> b == left && (inserted <==> ops != []))
  {
    b := Buffers([], [], []);
    inserted := false;
    ghost var all := ReadOps(chunk, records, b, batch);
    ghost var sent: seq<Op> := [];
    SendsNothing(sink.log, sink.budget);
    hide Sends, AllApplied, Flush;
    var i := 0;
    assert records[0..] == records && [] + all.0 == all.0;
    while i < |records|
      invariant 0 <= i <= |records| && sink.Valid()
      invariant Sends(old(sink.log), old(sink.budget), sent, true, sink.log, sink.budget)
      invariant all == (sent + ReadOps(chunk, records[i..], b, batch).0, ReadOps(chunk, records[i..], b, batch).1)
      invariant inserted <==> sent != []
    {
      assert records[i..][0] == records[i] && records[i..][1..] == records[i + 1..];
      var (ops, next) := Flush(chunk, Buffered(b, records[i]), batch);
      ghost var log1, budget1, rest := sink.log, sink.budget, ReadOps(chunk, records[i + 1..], next, batch).0;
      ok := sink.ExecuteAll(ops);
      SendsJoin(old(sink.log), old(sink.budget), sent, log1, budget1, ops, ok, sink.log, sink.budget);
      Regroup(sent, ops, rest);
      if !ok {
        SendsNoMore(old(sink.log), old(sink.budget), sent + ops, rest, sink.log, sink.budget);
        return;
      }
      sent := sent + ops;
      inserted := inserted || ops != [];
      b := next;
      i := i + 1;
    }
    assert records[i..] == [] && sent + [] == sent;
    ok := true;
  }

  /** Everything between the delete and the marker; `good` is what the marker will say. */
  method LoadRows(sink: Sink, chunk: Content, r: Reading, batch: nat) returns (ok: bool, good: bool)
    requires sink.Valid()
    modifies sink
    ensures sink.Valid() && good == IsOk(r)
    ensures Sends(old(sink.log), old(sink.budget), BodyOps(chunk, r, batch), ok, sink.log, sink.budget)
  {
    good := r.Stream? && !r.unreadable;
    SendsNothing(sink.log, sink.budget);
    if r.Defect? {
      return true, good;
    }
    hide Sends, AllApplied;
    ghost var (ops, left) := ReadOps(chunk, r.records, Buffers([], [], []), batch);
    var b, inserted;
    ok, b, inserted := ReadRecords(sink, chunk, r.records, batch);
    ghost var log1, budget1 := sink.log, sink.budget;
    ghost var rest := if r.unreadable then (if ops != [] then DeleteOps({chunk}) else []) else FinalOps(chunk, left, r);
    assert BodyOps(chunk, r, batch) == ops + rest;
    hide BodyOps, ReadOps, FinalOps, DeleteOps;
    if !ok {
      SendsNoMore(old(sink.log), old(sink.budget), ops, rest, log1, budget1);
      return;
    }
    if good {
      ok := sink.ExecuteAll(FinalOps(chunk, b, r));
    } else if inserted {
      ok := sink.ExecuteAll(DeleteOps({chunk}));
    } else {
      SendsNothing(sink.log, sink.budget);
    }
    SendsJoin(old(sink.log), old(sink.budget), ops, log1, budget1, rest, ok, sink.log, sink.budget);
  }

  method LoadChunk(sink: Sink, w: World, file: File, catalog: Catalog, cleared: set<Content>, batch: nat) returns (ok: bool)
    requires sink.Valid() && file in w.content
    modifies sink
    ensures sink.Valid()
    ensures Sends(old(sink.log), old(sink.budget), LoadOps(w, file, catalog, cleared, batch), ok, sink.log, sink.budget)
  {
    var chunk := w.content[file];
    var r := w.read(chunk, catalog);
    ghost var gone := if chunk in cleared then [] else DeleteOps({chunk});
    ghost var body, mark := BodyOps(chunk, r, batch), [WriteMark(file, Mark(chunk, IsOk(r), catalog))];
    assert LoadOps(w, file, catalog, cleared, batch) == (gone + body) + mark;
    hide Sends, AllApplied, LoadOps, BodyOps, DeleteOps;
    ghost var log0, budget0 := sink.log, sink.budget;
    SendsNothing(log0, budget0);
    if chunk !in cleared {
      ok := sink.ExecuteAll(DeleteOps({chunk}));
      if !ok {
        SendsNoMore(log0, budget0, gone, body, sink.log, sink.budget);
        SendsNoMore(log0, budget0, gone + body, mark, sink.log, sink.budget);
        return;
      }
    }
    ghost var log1, budget1 := sink.log, sink.budget;
    var good;
    ok, good := LoadRows(sink, chunk, r, batch);
    SendsJoin(log0, budget0, gone, log1, budget1, body, ok, sink.log, sink.budget);
    if !ok {
      SendsNoMore(log0, budget0, gone + body, mark, sink.log, sink.budget);
      return;
    }
    ghost var log2, budget2 := sink.log, sink.budget;
    ok := sink.Execute(WriteMark(file, Mark(chunk, good, catalog)));
    SendsJoin(log0, budget0, gone + body, log2, budget2, mark, ok, sink.log, sink.budget);
  }

  lemma Known(w: World, todo: seq<File>, i: nat)
    requires i <= |todo| && forall f :: f in todo ==> f in w.content
    ensures forall f :: f in todo[i..] ==> f in w.content
  {
  }

  lemma LoadAllStep(w: World, todo: seq<File>, i: nat, catalog: Catalog, cleared: set<Content>, batch: nat)
    requires i < |todo| && (forall f :: f in todo ==> f in w.content)
    requires (forall f :: f in todo[i..] ==> f in w.content) && (forall f :: f in todo[i + 1..] ==> f in w.content)
    ensures LoadAllOps(w, todo[i..], catalog, cleared, batch)
         == LoadOps(w, todo[i], catalog, cleared, batch)
          + LoadAllOps(w, todo[i + 1..], catalog, cleared - {w.content[todo[i]]}, batch)
  {
    assert todo[i..][0] == todo[i] && todo[i..][1..] == todo[i + 1..];
    hide LoadOps;
  }

  /** The files in turn; a chunk that has been loaded leaves `cleared`, so that a second file with the
      same bytes deletes its rows first. */
  method LoadAll(sink: Sink, w: World, todo: seq<File>, catalog: Catalog, bulk: set<Content>, batch: nat) returns (ok: bool)
    requires sink.Valid() && forall f :: f in todo ==> f in w.content
    modifies sink
    ensures sink.Valid()
    ensures Sends(old(sink.log), old(sink.budget), LoadAllOps(w, todo, catalog, bulk, batch), ok, sink.log, sink.budget)
  {
    ghost var log0, budget0, all := sink.log, sink.budget, LoadAllOps(w, todo, catalog, bulk, batch);
    ghost var sent: seq<Op> := [];
    var cleared := bulk;
    hide Sends, AllApplied, LoadOps, LoadAllOps;
    SendsNothing(log0, budget0);
    var i := 0;
    assert todo[0..] == todo && [] + all == all;
    while i < |todo|
      invariant 0 <= i <= |todo| && sink.Valid()
      invariant Sends(log0, budget0, sent, true, sink.log, sink.budget)
      invariant forall f :: f in todo[i..] ==> f in w.content
      invariant all == sent + LoadAllOps(w, todo[i..], catalog, cleared, batch)
    {
      var chunk := w.content[todo[i]];
      Known(w, todo, i + 1);
      LoadAllStep(w, todo, i, catalog, cleared, batch);
      ghost var one := LoadOps(w, todo[i], catalog, cleared, batch);
      ghost var rest := LoadAllOps(w, todo[i + 1..], catalog, cleared - {chunk}, batch);
      ghost var log1, budget1 := sink.log, sink.budget;
      ok := LoadChunk(sink, w, todo[i], catalog, cleared, batch);
      SendsJoin(log0, budget0, sent, log1, budget1, one, ok, sink.log, sink.budget);
      Regroup(sent, one, rest);
      assert all == (sent + one) + rest;
      if !ok {
        SendsNoMore(log0, budget0, sent + one, rest, sink.log, sink.budget);
        return;
      }
      sent := sent + one;
      cleared := cleared - {chunk};
      i := i + 1;
    }
    LoadAllNothing(w, todo[i..], catalog, cleared, batch);
    assert sent + [] == sent;
    ok := true;
  }

  lemma LoadAllNothing(w: World, todo: seq<File>, catalog: Catalog, cleared: set<Content>, batch: nat)
    requires todo == []
    ensures LoadAllOps(w, todo, catalog, cleared, batch) == []
  {
  }

  /** One run over a device: the state is read once, what is to be redone is deleted in bulk, and the
      files are loaded. False means the database went away. */
  method RunLoader(sink: Sink, w: World, catalog: Catalog, batch: nat) returns (ok: bool)
    requires sink.Valid() && WorldOk(w)
    modifies sink
    ensures sink.Valid()
    ensures Sends(old(sink.log), old(sink.budget), RunOps(old(sink.tables), w, catalog, batch), ok, sink.log, sink.budget)
  {
    ghost var log0, budget0 := sink.log, sink.budget;
    var todo := Pending(sink.tables, w.files, catalog);
    var cleared := Redone(sink.tables, todo);
    ghost var loads := LoadAllOps(w, todo, catalog, cleared, batch);
    ghost var gone := if cleared == {} then [] else DeleteOps(cleared);
    assert RunOps(sink.tables, w, catalog, batch) == gone + loads;
    hide Sends, AllApplied, RunOps, DeleteOps, LoadAllOps, Redone;
    SendsNothing(log0, budget0);
    if cleared != {} {
      ok := sink.ExecuteAll(DeleteOps(cleared));
      if !ok {
        SendsNoMore(log0, budget0, gone, loads, sink.log, sink.budget);
        return;
      }
    }
    ghost var log1, budget1 := sink.log, sink.budget;
    ok := LoadAll(sink, w, todo, catalog, cleared, batch);
    SendsJoin(log0, budget0, gone, log1, budget1, loads, ok, sink.log, sink.budget);
  }
}
