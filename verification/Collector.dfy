/** The collector's pass over one chunk as it runs: attempts in a loop, files appended, renamed and
    unlinked. Every durable change is recorded in a ghost trace, which each method proves to be the
    list of states the specification gives. */
module Collectors {
  import opened Words
  import opened CollectorSpec

  lemma NoStates(d: Disk)
    ensures Last(d, []) == d && WithParts(d, []) == []
  {
  }

  lemma LastOfJoin(d: Disk, a: seq<Disk>, b: seq<Disk>)
    ensures Last(Last(d, a), b) == Last(d, a + b)
  {
  }

  lemma FreshStates(d: Disk, b: Bytes)
    requires b != []
    ensures [d.(part := [])] + WithParts(d.(part := []), Growing([] + b, 0)) == WithParts(d, [[]] + Growing(b, 0))
    ensures Last(d, WithParts(d, [[]] + Growing(b, 0))) == d.(part := b)
  {
    assert [] + b == b && b[..|b|] == b;
  }

  lemma FreshDownload(part: Bytes, a: Attempt)
    requires a.reply.Body? && (part == [] || !a.reply.honoured)
    ensures var got := Min(a.reply.arrived, |a.card|);
      Downloaded(part, a) == (if got == 0 then [] else [[]] + Growing(a.card[..got], 0), if got < |a.card| then Again else Complete)
  {
    hide Growing;
  }

  class Collector {
    const reader: Reader
    var part: Bytes
    var archive: Option<Bytes>
    var candidate: Option<Bytes>
    var meta: Option<Meta>
    var sidecar: Option<Bytes>
    ghost var trace: seq<Disk>

    ghost function Now(): Disk
      reads this
    {
      Disk(part, archive, candidate, meta, sidecar)
    }

    constructor (reader: Reader, d: Disk)
      ensures this.reader == reader && Now() == d && trace == []
    {
      this.reader := reader;
      part, archive, candidate, meta, sidecar := d.part, d.archive, d.candidate, d.meta, d.sidecar;
      trace := [];
    }

    method SetPart(b: Bytes)
      modifies this
      ensures Now() == old(Now()).(part := b) && trace == old(trace) + [Now()]
    {
      part := b;
      trace := trace + [Now()];
    }

    /** Appends what arrived, one durable byte at a time. */
    method Append(more: Bytes)
      modifies this
      ensures Now() == old(Now()).(part := old(part) + more)
      ensures trace == old(trace) + WithParts(old(Now()), Growing(old(part) + more, |old(part)|))
    {
      var i := 0;
      ghost var d, all, n := Now(), part + more, |part|;
      ghost var states := WithParts(d, Growing(all, n));
      while i < |more|
        invariant 0 <= i <= |more|
        invariant part == all[..n + i] && Now() == d.(part := part)
        invariant trace == old(trace) + states[..i]
      {
        SetPart(part + [more[i]]);
        assert part == all[..n + 1 + i];
        assert states[i] == Now() && states[..i + 1] == states[..i] + [states[i]];
        i := i + 1;
      }
      assert all[..n + i] == all && states[..i] == states;
    }

    method AtFault(f: Fault) returns (end: End)
      modifies this
      ensures trace == old(trace) + WithParts(old(Now()), FaultEnd(f).0) && end == FaultEnd(f).1
      ensures Now() == Last(old(Now()), WithParts(old(Now()), FaultEnd(f).0))
    {
      end := FaultEnd(f).1;
      if f == OutOfRange {
        SetPart([]);
      }
    }

    method Download(a: Attempt) returns (end: End)
      modifies this
      ensures var (parts, e) := Downloaded(old(part), a);
        && trace == old(trace) + WithParts(old(Now()), parts) && end == e
        && Now() == Last(old(Now()), WithParts(old(Now()), parts))
    {
      if a.reply.ReplyFault? {
        end := AtFault(a.reply.fault);
        return;
      }
      hide WithParts, Growing, Last;
      var resumed := part != [] && a.reply.honoured;
      if resumed {
        end := Resume(a);
      } else {
        end := StartOver(a);
      }
    }

    method Resume(a: Attempt) returns (end: End)
      requires a.reply.Body? && part != [] && a.reply.honoured
      modifies this
      ensures var (parts, e) := Downloaded(old(part), a);
        && trace == old(trace) + WithParts(old(Now()), parts) && end == e
        && Now() == Last(old(Now()), WithParts(old(Now()), parts))
    {
      var overlap := Min(|part|, SEAM_WINDOW);
      var start := |part| - overlap;
      var body := if start <= |a.card| then a.card[start..] else [];
      var got := Min(a.reply.arrived, |body|);
      if got < overlap {
        return Again;
      }
      if body[..overlap] != part[start..] {
        SetPart([]);
        return Again;
      }
      Append(body[overlap..got]);
      end := if got < |body| then Again else Complete;
    }

    /** No partial, or a device that ignores the range: the file is truncated on the first byte only. */
    method StartOver(a: Attempt) returns (end: End)
      requires a.reply.Body? && (part == [] || !a.reply.honoured)
      modifies this
      ensures var (parts, e) := Downloaded(old(part), a);
        && trace == old(trace) + WithParts(old(Now()), parts) && end == e
        && Now() == Last(old(Now()), WithParts(old(Now()), parts))
    {
      var got := Min(a.reply.arrived, |a.card|);
      var body := a.card[..got];
      end := if got < |a.card| then Again else Complete;
      hide Downloaded, WithParts, Growing, Last;
      FreshDownload(part, a);
      NoStates(Now());
      if got > 0 {
        FreshStates(Now(), body);
        assert [] + body == body;
        SetPart([]);
        Append(body);
      }
    }

    method TryOnce(size: nat, a: Attempt) returns (end: End)
      modifies this
      ensures var (parts, e) := Attempted(old(part), size, a);
        && trace == old(trace) + WithParts(old(Now()), parts) && end == e
        && Now() == Last(old(Now()), WithParts(old(Now()), parts))
    {
      hide Downloaded, ProveLocal;
      if part != [] {
        match ProveLocal(part, size, a.card, a.probe) {
          case Mismatched =>
            SetPart([]);
            return Again;
          case Unproved(None) => return Again;
          case Unproved(Some(f)) =>
            end := AtFault(f);
            return;
          case Proved =>
            if size != 0 && |part| == size {
              return Complete;
            }
        }
      }
      end := Download(a);
    }

    method DropCandidate()
      modifies this
      ensures trace == old(trace) + Dropped(old(Now())) && Now() == Last(old(Now()), Dropped(old(Now())))
    {
      candidate := None;
      trace := trace + [Now()];
      meta := None;
      trace := trace + [Now()];
    }

    /** Sidecar first, then the rename, then the candidate it makes obsolete. */
    method Store(torn: bool)
      modifies this
      ensures trace == old(trace) + Stored(old(Now()), torn) && Now() == Last(old(Now()), Stored(old(Now()), torn))
    {
      if torn {
        sidecar := None;
        trace := trace + [Now()];
        sidecar := Some(part);
        trace := trace + [Now()];
      }
      archive := Some(part);
      part := [];
      trace := trace + [Now()];
      if torn {
        DropCandidate();
      }
    }

    method SightTorn(card: Bytes) returns (result: Result)
      modifies this
      ensures var (states, e) := TornSighted(old(Now()), reader, card);
        && trace == old(trace) + states && result == e && Now() == Last(old(Now()), states)
    {
      if !reader.seqOk(part) || !reader.originOk(part) {
        SetPart([]);
        DropCandidate();
        return Failed(false);
      }
      if meta.Some? && meta.value.content == part && candidate.Some? {
        if archive.Some? {
          return Failed(false);
        }
        Store(true);
        return Confirming(card);
      }
      var seen := if meta.Some? then meta.value.seen + 1 else 1;
      if seen >= TORN_MAX_SIGHTINGS {
        SetPart([]);
        DropCandidate();
        return Failed(false);
      }
      var bytes := part;
      candidate := Some(part);
      part := [];
      trace := trace + [Now()];
      meta := None;
      trace := trace + [Now()];
      meta := Some(Meta(bytes, seen));
      trace := trace + [Now()];
      result := Failed(true);
    }

    method Finish(size: nat, card: Bytes) returns (result: Result)
      modifies this
      ensures var (states, e) := Finished(old(Now()), size, reader, card);
        && trace == old(trace) + states && result == e && Now() == Last(old(Now()), states)
    {
      hide TornSighted, Stored;
      match reader.Judge(part)
      case Bad =>
        SetPart([]);
        result := Failed(false);
      case Sound =>
        if archive.Some? {
          return Failed(false);
        }
        Store(false);
        result := Confirming(card);
      case Torn =>
        if size == 0 || |part| != size {
          return Failed(true);
        }
        result := SightTorn(card);
    }

    method Fetch(size: nat, attempts: seq<Attempt>) returns (result: Result)
      modifies this
      ensures var (states, e) := Fetched(old(Now()), size, reader, attempts);
        && trace == old(trace) + states && result == e && Now() == Last(old(Now()), states)
    {
      hide Attempted, Finished, WithParts, Last;
      NoStates(Now());
      ghost var done: seq<Disk> := [];
      ghost var d := Now();
      var i := 0;
      while i < |attempts|
        invariant 0 <= i <= |attempts|
        invariant trace == old(trace) + done && Now() == Last(d, done)
        invariant Fetched(d, size, reader, attempts).0 == done + Fetched(Now(), size, reader, attempts[i..]).0
        invariant Fetched(d, size, reader, attempts).1 == Fetched(Now(), size, reader, attempts[i..]).1
      {
        ghost var before := Now();
        var end := TryOnce(size, attempts[i]);
        ghost var states := WithParts(before, Attempted(before.part, size, attempts[i]).0);
        LastOfJoin(d, done, states);
        ghost var earlier := done;
        assert attempts[i..][0] == attempts[i] && attempts[i..][1..] == attempts[i + 1..];
        done := done + states;
        match end {
          case Stop(transient) => return Failed(transient);
          case Refused => return PassRefused;
          case Complete =>
            ghost var more := Finished(Now(), size, reader, attempts[i].card).0;
            LastOfJoin(d, done, more);
            assert earlier + (states + more) == done + more;
            result := Finish(size, attempts[i].card);
            return;
          case Again =>
        }
        i := i + 1;
      }
      assert attempts[i..] == [] && done + [] == done;
      result := Failed(true);
    }

    method Recheck(size: nat, attempts: seq<Attempt>) returns (result: Result)
      requires archive.Some?
      ensures result == Rechecked(archive.value, size, attempts)
    {
      hide ProveLocal;
      var i := 0;
      while i < |attempts|
        invariant 0 <= i <= |attempts|
        invariant Rechecked(archive.value, size, attempts) == Rechecked(archive.value, size, attempts[i..])
      {
        var a := attempts[i];
        assert attempts[i..][0] == a && attempts[i..][1..] == attempts[i + 1..];
        match ProveLocal(archive.value, size, a.card, a.probe) {
          case Mismatched => return Failed(false);
          case Proved => return Confirming(a.card);
          case Unproved(None) =>
          case Unproved(Some(f)) =>
            match f {
              case Race => return Failed(true);
              case OutOfRange | Denied => return Failed(false);
              case Unauthorized => return PassRefused;
              case Busy | Stumble =>
            }
        }
        i := i + 1;
      }
      result := Failed(true);
    }

    method AlreadyHave(size: nat, attempts: seq<Attempt>) returns (result: Result)
      requires archive.Some?
      ensures result == AlreadyHad(Now(), size, reader, attempts)
    {
      var local := archive.value;
      if size != 0 && |local| != size {
        return Failed(false);
      }
      var verdict := reader.Judge(local);
      if verdict == Bad || (verdict == Torn && sidecar != Some(local)) || !reader.seqOk(local) {
        return Failed(false);
      }
      result := Recheck(size, attempts);
    }

    /** The step of the pass for one listed chunk; a `Confirming` result is followed by the confirm. */
    method Collect(size: nat, attempts: seq<Attempt>) returns (result: Result)
      modifies this
      ensures var (states, e) := Passed(old(Now()), size, reader, attempts);
        && trace == old(trace) + states && result == e && Now() == Last(old(Now()), states)
    {
      hide Fetched, AlreadyHad;
      if archive.Some? {
        result := AlreadyHave(size, attempts);
      } else {
        result := Fetch(size, attempts);
      }
    }
  }
}
