/** The table of frames a LIN node publishes, each stored with its checksum. */
module LinResponses {
  import opened Words
  import opened LinFrames

  /** `bytes` is the payload followed by its checksum; empty bytes mark a free slot. */
  datatype Slot = Slot(id: bv8, bytes: seq<bv8>, enhanced: bool)

  /** First used slot for an identifier, from `i` on. */
  function Find(slots: seq<Slot>, id: bv8, i: nat): (k: nat)
    requires i <= |slots|
    ensures i <= k <= |slots|
    ensures k < |slots| ==> slots[k].id == id && slots[k].bytes != []
    ensures forall j :: i <= j < k ==> !(slots[j].id == id && slots[j].bytes != [])
    decreases |slots| - i
  {
    if i == |slots| || (slots[i].id == id && slots[i].bytes != []) then i else Find(slots, id, i + 1)
  }

  function Free(slots: seq<Slot>, i: nat): (k: nat)
    requires i <= |slots|
    ensures i <= k <= |slots|
    ensures k < |slots| ==> slots[k].bytes == []
    ensures forall j :: i <= j < k ==> slots[j].bytes != []
    decreases |slots| - i
  {
    if i == |slots| || slots[i].bytes == [] then i else Free(slots, i + 1)
  }

  function Lookup(slots: seq<Slot>, id: bv8): Option<Slot> {
    var k := Find(slots, id, 0);
    if k < |slots| then Some(slots[k]) else None
  }

  function Published(id: bv8, payload: seq<bv8>, enhanced: bool): Slot {
    Slot(id, payload + [Checksum(id, payload, enhanced)], enhanced)
  }

  /** At most eight payload bytes are taken; an empty payload withdraws the identifier. */
  function SetResponse(slots: seq<Slot>, id: bv8, payload: seq<bv8>, enhanced: bool, preserve: bool): (seq<Slot>, bool) {
    if id > 0x3F then (slots, false)
    else
      var data := payload[..Min(|payload|, MAX_DATA_SIZE)];
      var k := Find(slots, id, 0);
      if data == [] then (if k < |slots| then slots[k := Slot(id, [], true)] else slots, true)
      else if k < |slots| then
        (slots[k := Published(id, data, if preserve then slots[k].enhanced else enhanced)], true)
      else
        var f := Free(slots, 0);
        if f == |slots| then (slots, false) else (slots[f := Published(id, data, enhanced)], true)
  }

  /** No identifier twice, and every entry a payload with its own checksum. */
  ghost predicate TableOk(slots: seq<Slot>) {
    && (forall i, j :: 0 <= i < j < |slots| && slots[i].bytes != [] && slots[j].bytes != [] ==> slots[i].id != slots[j].id)
    && (forall i :: 0 <= i < |slots| && slots[i].bytes != [] ==> SlotOk(slots[i]))
  }

  ghost predicate SlotOk(s: Slot) {
    && s.id <= 0x3F && 2 <= |s.bytes| <= MAX_DATA_SIZE + 1
    && s.bytes[|s.bytes| - 1] == Checksum(s.id, s.bytes[..|s.bytes| - 1], s.enhanced)
  }

  lemma PublishedOk(id: bv8, payload: seq<bv8>, enhanced: bool)
    requires id <= 0x3F && 0 < |payload| <= MAX_DATA_SIZE
    ensures SlotOk(Published(id, payload, enhanced)) && Published(id, payload, enhanced).bytes[..|payload|] == payload
  {
    hide Checksum;
    var s := Published(id, payload, enhanced);
    assert s.bytes[..|payload|] == payload;
  }

  /** No other used slot has the identifier of `s`. */
  ghost predicate Fits(slots: seq<Slot>, k: nat, s: Slot) {
    k < |slots| && (s.bytes == [] || SlotOk(s)) &&
    forall j :: 0 <= j < |slots| && j != k && slots[j].bytes != [] ==> slots[j].id != s.id
  }

  lemma PutKeeps(slots: seq<Slot>, k: nat, s: Slot)
    requires TableOk(slots) && Fits(slots, k, s)
    ensures TableOk(slots[k := s])
  {
    hide SlotOk;
  }

  lemma FoundIs(slots: seq<Slot>, id: bv8, k: nat)
    requires TableOk(slots) && k < |slots| && slots[k].id == id && slots[k].bytes != []
    ensures Lookup(slots, id) == Some(slots[k])
  {
    hide SlotOk;
  }

  lemma MissingIs(slots: seq<Slot>, id: bv8)
    requires forall j :: 0 <= j < |slots| ==> !(slots[j].id == id && slots[j].bytes != [])
    ensures Lookup(slots, id) == None
  {
  }

  lemma PutLookup(slots: seq<Slot>, k: nat, s: Slot, other: bv8)
    requires TableOk(slots) && Fits(slots, k, s) && (slots[k].bytes == [] || slots[k].id == s.id)
    ensures Lookup(slots[k := s], s.id) == if s.bytes == [] then None else Some(s)
    ensures other != s.id ==> Lookup(slots[k := s], other) == Lookup(slots, other)
  {
    var after := slots[k := s];
    PutKeeps(slots, k, s);
    hide SlotOk;
    if s.bytes != [] { FoundIs(after, s.id, k); } else { MissingIs(after, s.id); }
    if other != s.id {
      var o := Find(slots, other, 0);
      if o < |slots| {
        assert after[o] == slots[o];
        FoundIs(after, other, o);
      } else {
        MissingIs(after, other);
      }
    }
  }

  lemma WhereToPut(slots: seq<Slot>, id: bv8, s: Slot)
    requires TableOk(slots) && s.id == id && (s.bytes == [] || SlotOk(s))
    ensures var k, f := Find(slots, id, 0), Free(slots, 0);
      && (k < |slots| ==> Fits(slots, k, s) && slots[k].id == id)
      && (k == |slots| && f < |slots| ==> Fits(slots, f, s) && slots[f].bytes == [])
  {
    hide SlotOk;
  }

  /** What is published reads back until it is changed, no other identifier is affected, and the table
      stays one entry an identifier, each with its own checksum. */
  lemma SetThenLookup(slots: seq<Slot>, id: bv8, payload: seq<bv8>, enhanced: bool, preserve: bool, other: bv8)
    requires TableOk(slots)
    ensures var (after, ok) := SetResponse(slots, id, payload, enhanced, preserve);
      var data := payload[..Min(|payload|, MAX_DATA_SIZE)];
      var before := Lookup(slots, id);
      && TableOk(after)
      && (other != id ==> Lookup(after, other) == Lookup(slots, other))
      && (!ok <==> id > 0x3F || (data != [] && before.None? && Free(slots, 0) == |slots|))
      && (!ok ==> after == slots)
      && (ok && data == [] ==> Lookup(after, id) == None)
      && (ok && data != [] ==> (var mode := if preserve && before.Some? then before.value.enhanced else enhanced;
                                Lookup(after, id) == Some(Published(id, data, mode))))
  {
    var data := payload[..Min(|payload|, MAX_DATA_SIZE)];
    var k, f := Find(slots, id, 0), Free(slots, 0);
    var mode := if preserve && k < |slots| then slots[k].enhanced else enhanced;
    var s := if data == [] then Slot(id, [], true) else Published(id, data, mode);
    var at := if k < |slots| then k else f;
    var puts := id <= 0x3F && at < |slots| && (k < |slots| || data != []);
    assert SetResponse(slots, id, payload, enhanced, preserve) ==
      if puts then (slots[at := s], true) else (slots, id <= 0x3F && data == []);
    assert Lookup(slots, id) == if k < |slots| then Some(slots[k]) else None;
    if puts {
      if data != [] { PublishedOk(id, data, mode); }
      WhereToPut(slots, id, s);
      hide SetResponse, TableOk, SlotOk, Checksum, Fits, Find, Free;
      PutKeeps(slots, at, s);
      PutLookup(slots, at, s, other);
    }
    hide TableOk, SetResponse, Find, Free, Checksum, Published, Lookup;
  }

  /** The table with its searching loops. */
  class ResponseTable {
    const slots: array<Slot>

    constructor (size: nat)
      ensures fresh(slots) && slots.Length == size && slots[..] == seq(size, _ => Slot(0, [], true))
    {
      slots := new Slot[size](_ => Slot(0, [], true));
    }

    method FindUsed(id: bv8) returns (k: nat)
      ensures k == Find(slots[..], id, 0)
    {
      k := 0;
      while k < slots.Length && !(slots[k].id == id && slots[k].bytes != [])
        invariant 0 <= k <= slots.Length
        invariant forall j :: 0 <= j < k ==> !(slots[..][j].id == id && slots[..][j].bytes != [])
      {
        assert slots[..][k] == slots[k];
        k := k + 1;
      }
      assert k < slots.Length ==> slots[..][k] == slots[k];
    }

    method FindFree() returns (k: nat)
      ensures k == Free(slots[..], 0)
    {
      k := 0;
      while k < slots.Length && slots[k].bytes != []
        invariant 0 <= k <= slots.Length
        invariant forall j :: 0 <= j < k ==> slots[..][j].bytes != []
      {
        assert slots[..][k] == slots[k];
        k := k + 1;
      }
      assert k < slots.Length ==> slots[..][k] == slots[k];
    }

    method SetResponseData(id: bv8, payload: seq<bv8>, enhanced: bool, preserve: bool) returns (ok: bool)
      modifies slots
      ensures (slots[..], ok) == SetResponse(old(slots[..]), id, payload, enhanced, preserve)
    {
      hide Checksum, Find, Free;
      if id > 0x3F {
        return false;
      }
      var data := payload[..Min(|payload|, MAX_DATA_SIZE)];
      var k := FindUsed(id);
      if data == [] {
        if k < slots.Length {
          slots[k] := Slot(id, [], true);
        }
        return true;
      }
      var mode := if k < slots.Length && preserve then slots[k].enhanced else enhanced;
      var cs := CalculateChecksum(id, data, mode);
      if k == slots.Length {
        k := FindFree();
        if k == slots.Length {
          return false;
        }
      }
      slots[k] := Slot(id, data + [cs], mode);
      ok := true;
    }
  }
}
