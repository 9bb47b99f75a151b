/** Giving every field of a group its own name: the presentation qualifier, else the service qualifier,
    else the presentation qualifier and its position. */
module UniqueNames {
  import opened Words

  // ----- positional names -----

  function Digit(d: nat): char
    requires d < 10
  {
    "0123456789"[d]
  }

  function Digits(n: nat): (s: string)
    ensures s != [] && (|s| == 1 <==> n < 10) && forall i :: 0 <= i < |s| ==> s[i] in "0123456789"
  {
    if n < 10 then [Digit(n)] else Digits(n / 10) + [Digit(n % 10)]
  }

  function Positional(name: string, pos: nat): string {
    name + "@" + Digits(pos / 8) + "." + Digits(pos % 8)
  }

  lemma {:induction false} DigitsDiffer(m: nat, n: nat)
    requires Digits(m) == Digits(n)
    ensures m == n
    decreases m
  {
    var s := Digits(m);
    if m >= 10 {
      assert Digits(m / 10) == s[..|s| - 1] == Digits(n / 10);
      DigitsDiffer(m / 10, n / 10);
      assert s[|s| - 1] == Digit(m % 10) == Digit(n % 10);
    }
  }

  /** Two strings split at the last separator agree part for part. */
  lemma LastSeparator(a: string, c: char, b: string, x: string, y: string)
    requires a + [c] + b == x + [c] + y && c !in b && c !in y
    ensures a == x && b == y
  {
    var s := a + [c] + b;
    assert s[|a|] == c && s[|x|] == c;
    assert forall k :: |a| < k < |s| ==> s[k] == b[k - |a| - 1];
    assert forall k :: |x| < k < |s| ==> s[k] == y[k - |x| - 1];
    assert |a| == |x|;
    assert s[..|a|] == a && s[..|x|] == x && s[|a| + 1..] == b && s[|x| + 1..] == y;
  }

  /** A positional name identifies presentation and position. */
  lemma PositionalIdentifies(a: string, p: nat, b: string, q: nat)
    ensures Positional(a, p) == Positional(b, q) <==> a == b && p == q
  {
    if Positional(a, p) == Positional(b, q) {
      var x, y := Digits(p / 8) + "." + Digits(p % 8), Digits(q / 8) + "." + Digits(q % 8);
      assert a + ['@'] + x == Positional(a, p) && b + ['@'] + y == Positional(b, q);
      LastSeparator(a, '@', x, b, y);
      assert Digits(p / 8) + ['.'] + Digits(p % 8) == Digits(q / 8) + ['.'] + Digits(q % 8);
      LastSeparator(Digits(p / 8), '.', Digits(p % 8), Digits(q / 8), Digits(q % 8));
      DigitsDiffer(p / 8, q / 8);
      DigitsDiffer(p % 8, q % 8);
    }
  }

  // ----- counting -----

  function Count(s: seq<string>, x: string): nat {
    if s == [] then 0 else Count(s[..|s| - 1], x) + if s[|s| - 1] == x then 1 else 0
  }

  lemma {:induction false} CountPositive(s: seq<string>, x: string)
    ensures Count(s, x) > 0 <==> x in s
  {
    if s != [] {
      CountPositive(s[..|s| - 1], x);
      assert s == s[..|s| - 1] + [s[|s| - 1]];
    }
  }

  /** What occurs once occurs at one place. */
  lemma {:induction false} CountOne(s: seq<string>, x: string, i: nat, j: nat)
    requires Count(s, x) == 1 && i < |s| && j < |s| && s[i] == x && s[j] == x
    ensures i == j
  {
    var n := |s| - 1;
    CountPositive(s[..n], x);
    if i < n { assert s[..n][i] == x; }
    if j < n { assert s[..n][j] == x; }
    if s[n] != x { CountOne(s[..n], x, i, j); }
  }

  // ----- the three rules -----

  datatype Outcome = Named(chosen: seq<string>) | Collision(at: nat) | StillColliding

  /** The services of the fields that rule (a) left without a name. */
  function Pending(names: seq<string>, services: seq<string>, n: nat): seq<string>
    requires n <= |names| == |services|
  {
    if n == 0 then []
    else Pending(names, services, n - 1) + if Count(names, names[n - 1]) == 1 then [] else [services[n - 1]]
  }

  datatype Rule = Presentation | Service | Position

  /** Which rule names field `i`: a presentation qualifier of its own, else a service qualifier that no
      other field without one has and that is no other field's name already, else its position. */
  function RuleFor(names: seq<string>, services: seq<string>, i: nat): Rule
    requires i < |names| == |services|
  {
    if Count(names, names[i]) == 1 then Presentation
    else if services[i] != "" && Count(Pending(names, services, |names|), services[i]) == 1 && Count(names, services[i]) != 1 then Service
    else Position
  }

  function NameOf(names: seq<string>, positions: seq<nat>, services: seq<string>, i: nat): string
    requires i < |names| == |positions| == |services|
  {
    match RuleFor(names, services, i)
    case Presentation => names[i]
    case Service => services[i]
    case Position => Positional(names[i], positions[i])
  }

  function AllNames(names: seq<string>, positions: seq<nat>, services: seq<string>): (all: seq<string>)
    requires |names| == |positions| == |services|
    ensures |all| == |names| && forall i :: 0 <= i < |all| ==> all[i] == NameOf(names, positions, services, i)
  {
    seq(|names|, i requires 0 <= i < |names| => NameOf(names, positions, services, i))
  }

  lemma {:induction false} PendingHas(names: seq<string>, services: seq<string>, n: nat, i: nat)
    requires i < n <= |names| == |services| && Count(names, names[i]) != 1
    ensures services[i] in Pending(names, services, n)
  {
    if i < n - 1 { PendingHas(names, services, n - 1, i); }
  }

  lemma {:induction false} PendingTwice(names: seq<string>, services: seq<string>, n: nat, i: nat, j: nat)
    requires i < j < n <= |names| == |services| && services[i] == services[j]
    requires Count(names, names[i]) != 1 && Count(names, names[j]) != 1
    ensures Count(Pending(names, services, n), services[i]) > 1
  {
    var p := Pending(names, services, n - 1);
    assert p + [] == p;
    if j < n - 1 {
      PendingTwice(names, services, n - 1, i, j);
      if Count(names, names[n - 1]) != 1 { CountJoin(p, services[n - 1], services[i]); }
    } else {
      PendingHas(names, services, n - 1, i);
      CountPositive(p, services[i]);
      CountJoin(p, services[j], services[i]);
    }
  }

  lemma CountJoin(s: seq<string>, last: string, x: string)
    ensures Count(s + [last], x) == Count(s, x) + if last == x then 1 else 0
  {
    assert (s + [last])[..|s|] == s;
  }

  /** Chosen names are distinct and all recorded as taken, but for the empty one. */
  ghost predicate ChosenOk(chosen: seq<Option<string>>, taken: set<string>) {
    && (forall i :: 0 <= i < |chosen| && chosen[i].Some? && chosen[i].value != "" ==> chosen[i].value in taken)
    && (forall i, j :: 0 <= i < j < |chosen| && chosen[i].Some? && chosen[j].Some? ==> chosen[i].value != chosen[j].value)
  }

  lemma Choose(chosen: seq<Option<string>>, taken: set<string>, i: nat, name: string)
    requires ChosenOk(chosen, taken) && i < |chosen| && chosen[i].None? && name !in taken && name != ""
    ensures ChosenOk(chosen[i := Some(name)], taken + {name})
  {
  }

  ghost predicate Distinct(s: seq<string>) {
    forall i, j :: 0 <= i < j < |s| ==> s[i] != s[j]
  }

  /** Rule (a): a presentation qualifier that names one field is that field's name. */
  method ByPresentation(names: seq<string>) returns (chosen: seq<Option<string>>, taken: set<string>)
    ensures |chosen| == |names| && ChosenOk(chosen, taken)
    ensures forall i :: 0 <= i < |names| ==> chosen[i] == if Count(names, names[i]) == 1 then Some(names[i]) else None
    ensures forall x :: x in taken <==> x != "" && Count(names, x) == 1
  {
    chosen, taken := [], {};
    var i := 0;
    while i < |names|
      invariant 0 <= i <= |names| && |chosen| == i
      invariant forall k :: 0 <= k < i ==> chosen[k] == if Count(names, names[k]) == 1 then Some(names[k]) else None
      invariant forall x :: x in taken <==> x != "" && Count(names, x) == 1 && x in names[..i]
    {
      var unique := Count(names, names[i]) == 1;
      chosen := chosen + [if unique then Some(names[i]) else None];
      if unique && names[i] != "" {
        taken := taken + {names[i]};
      }
      assert names[..i + 1] == names[..i] + [names[i]];
      i := i + 1;
    }
    assert names[..i] == names;
    forall x | Count(names, x) == 1 ensures x in names { CountPositive(names, x); }
    forall k, l | 0 <= k < l < |chosen| && chosen[k].Some? && chosen[l].Some? ensures chosen[k].value != chosen[l].value {
      if names[k] == names[l] { CountOne(names, names[k], k, l); }
    }
  }

  /** Rule (b): a service qualifier of its own, not yet taken. */
  method ByService(names: seq<string>, services: seq<string>, first: seq<Option<string>>, taken0: set<string>)
    returns (chosen: seq<Option<string>>, taken: set<string>)
    requires |names| == |services| == |first| && ChosenOk(first, taken0)
    requires forall i :: 0 <= i < |names| ==> first[i] == if Count(names, names[i]) == 1 then Some(names[i]) else None
    requires forall x :: x in taken0 <==> x != "" && Count(names, x) == 1
    ensures |chosen| == |names| && ChosenOk(chosen, taken)
    ensures forall i :: 0 <= i < |names| ==> chosen[i] == GivenBy(names, services, i)
    ensures forall x :: x in taken <==> x in taken0 || ServedBefore(names, services, |names|, x)
  {
    chosen, taken := first, taken0;
    var waiting := Pending(names, services, |names|);
    var i := 0;
    while i < |names|
      invariant 0 <= i <= |names| == |chosen| && ChosenOk(chosen, taken)
      invariant forall k :: 0 <= k < i ==> chosen[k] == GivenBy(names, services, k)
      invariant forall k :: i <= k < |names| ==> chosen[k] == first[k]
      invariant forall x :: x in taken <==> x in taken0 || ServedBefore(names, services, i, x)
    {
      var name := services[i];
      ghost var was := taken;
      if chosen[i].None? && name != "" && Count(waiting, name) == 1 && name !in taken {
        Choose(chosen, taken, i, name);
        chosen := chosen[i := Some(name)];
        taken := taken + {name};
      } else if RuleFor(names, services, i).Service? {
        NotServedYet(names, services, i);
        assert false;
      }
      hide ChosenOk;
      assert forall x :: ServedBefore(names, services, i + 1, x) <==>
        ServedBefore(names, services, i, x) || (RuleFor(names, services, i).Service? && services[i] == x);
      i := i + 1;
    }
  }

  /** What rules (a) and (b) give field `i`. */
  ghost function GivenBy(names: seq<string>, services: seq<string>, i: nat): Option<string>
    requires i < |names| == |services|
  {
    match RuleFor(names, services, i)
    case Presentation => Some(names[i])
    case Service => Some(services[i])
    case Position => None
  }

  /** Rule (b) has used `x` for one of the first `n` fields. */
  ghost predicate ServedBefore(names: seq<string>, services: seq<string>, n: nat, x: string)
    requires n <= |names| == |services|
  {
    exists k :: 0 <= k < n && RuleFor(names, services, k).Service? && services[k] == x
  }

  /** A service qualifier that rule (b) accepts has not been used before. */
  lemma NotServedYet(names: seq<string>, services: seq<string>, i: nat)
    requires i < |names| == |services| && RuleFor(names, services, i).Service?
    ensures !ServedBefore(names, services, i, services[i])
  {
    if ServedBefore(names, services, i, services[i]) {
      var k :| 0 <= k < i && RuleFor(names, services, k).Service? && services[k] == services[i];
      PendingTwice(names, services, |names|, k, i);
    }
  }

  /** What stands in the way of field `i`, which only its position could name: another such field with its
      presentation and position, or a factory name in use that reads like its positional name. */
  ghost predicate Blocked(names: seq<string>, positions: seq<nat>, services: seq<string>, i: nat)
    requires i < |names| == |positions| == |services|
  {
    RuleFor(names, services, i).Position? && exists j :: 0 <= j < |names| && j != i && Clashes(names, positions, services, i, j)
  }

  ghost predicate Clashes(names: seq<string>, positions: seq<nat>, services: seq<string>, i: nat, j: nat)
    requires i < |names| == |positions| == |services| && j < |names|
  {
    match RuleFor(names, services, j)
    case Presentation => names[j] == Positional(names[i], positions[i])
    case Service => services[j] == Positional(names[i], positions[i])
    case Position => names[j] == names[i] && positions[j] == positions[i]
  }

  lemma ClashesIff(names: seq<string>, positions: seq<nat>, services: seq<string>, i: nat, j: nat)
    requires i < |names| == |positions| == |services| && j < |names| && RuleFor(names, services, i).Position?
    ensures Clashes(names, positions, services, i, j) <==> NameOf(names, positions, services, j) == NameOf(names, positions, services, i)
  {
    PositionalIdentifies(names[i], positions[i], names[j], positions[j]);
    hide Positional, RuleFor;
  }

  /** Two fields that rules (a) and (b) name never get the same name. */
  lemma FactoryNamesApart(names: seq<string>, positions: seq<nat>, services: seq<string>, i: nat, j: nat)
    requires i < j < |names| == |positions| == |services|
    requires !RuleFor(names, services, i).Position? && !RuleFor(names, services, j).Position?
    ensures NameOf(names, positions, services, i) != NameOf(names, positions, services, j)
  {
    if RuleFor(names, services, i).Presentation? && RuleFor(names, services, j).Presentation? {
      if names[i] == names[j] { CountOne(names, names[i], i, j); }
    } else if RuleFor(names, services, i).Service? && RuleFor(names, services, j).Service? {
      if services[i] == services[j] { PendingTwice(names, services, |names|, i, j); }
    }
  }

  /** The three rules give distinct names exactly when no field is blocked. */
  lemma DistinctIff(names: seq<string>, positions: seq<nat>, services: seq<string>)
    requires |names| == |positions| == |services|
    ensures Distinct(AllNames(names, positions, services)) <==>
      forall i :: 0 <= i < |names| ==> !Blocked(names, positions, services, i)
  {
    var all := AllNames(names, positions, services);
    hide RuleFor, NameOf, AllNames, Clashes;
    if i :| 0 <= i < |names| && Blocked(names, positions, services, i) {
      var j :| 0 <= j < |names| && j != i && Clashes(names, positions, services, i, j);
      ClashesIff(names, positions, services, i, j);
      assert all[i] == all[j];
    }
    if !Distinct(all) {
      var i, j :| 0 <= i < j < |all| && all[i] == all[j];
      if RuleFor(names, services, i).Position? {
        ClashesIff(names, positions, services, i, j);
        assert Blocked(names, positions, services, i);
      } else if RuleFor(names, services, j).Position? {
        ClashesIff(names, positions, services, j, i);
        assert Blocked(names, positions, services, j);
      } else {
        FactoryNamesApart(names, positions, services, i, j);
      }
    }
  }

  /** The reason given with the error, that two fields share presentation and position, need not be the
      case: a presentation qualifier that reads like a positional name blocks one as well. */
  lemma BlockedWithoutSharing()
    ensures var names, positions, services := ["a", "a", "a@0.0"], [0, 8, 16], ["s", "s", "t"];
      Blocked(names, positions, services, 0) &&
      forall i, j :: 0 <= i < j < |names| ==> names[i] != names[j] || positions[i] != positions[j]
  {
    var names, positions, services := ["a", "a", "a@0.0"], [0, 8, 16], ["s", "s", "t"];
    ExampleRules();
    assert Positional("a", 0) == "a@0.0" by { assert Digits(0) == "0"; }
    hide RuleFor, Positional;
    assert names[2] == "a@0.0" && names[0] == "a" && positions[0] == 0;
    assert Clashes(names, positions, services, 0, 2);
  }

  lemma ExampleRules()
    ensures var names, services := ["a", "a", "a@0.0"], ["s", "s", "t"];
      RuleFor(names, services, 0).Position? && RuleFor(names, services, 2).Presentation?
  {
    var names, services := ["a", "a", "a@0.0"], ["s", "s", "t"];
    ExamplePending();
    CountThree("a", "a", "a@0.0", "a");
    CountThree("a", "a", "a@0.0", "a@0.0");
    CountJoin(["s"], "s", "s");
    CountJoin([], "s", "s");
    hide Count, Pending;
    assert ["s"] + ["s"] == ["s", "s"] && [] + ["s"] == ["s"];
    assert Count(["s", "s"], "s") == Count([], "s") + 2;
  }

  lemma ExamplePending()
    ensures Pending(["a", "a", "a@0.0"], ["s", "s", "t"], 3) == ["s", "s"]
  {
    var names, services := ["a", "a", "a@0.0"], ["s", "s", "t"];
    CountThree("a", "a", "a@0.0", "a");
    CountThree("a", "a", "a@0.0", "a@0.0");
    hide Count;
    assert Pending(names, services, 0) == [];
    assert Pending(names, services, 1) == ["s"];
    assert Pending(names, services, 2) == ["s", "s"];
    assert ["s", "s"] + [] == ["s", "s"];
  }

  lemma CountThree(a: string, b: string, c: string, x: string)
    ensures Count([a, b, c], x) == (if a == x then 1 else 0) + (if b == x then 1 else 0) + (if c == x then 1 else 0)
  {
    assert [a, b, c] == [] + [a] + [b] + [c];
    CountJoin([], a, x);
    CountJoin([] + [a], b, x);
    CountJoin([] + [a] + [b], c, x);
  }

  /** All three rules. Every field gets exactly the name its rule gives it, or rule (c) gives up, over a
      field that is blocked; the check at the end never finds anything. */
  method AssignUniqueNames(names: seq<string>, positions: seq<nat>, services: seq<string>) returns (r: Outcome)
    requires |names| == |positions| == |services|
    ensures r != StillColliding
    ensures r.Named? ==> r.chosen == AllNames(names, positions, services) && Distinct(r.chosen)
    ensures r.Named? <==> forall i :: 0 <= i < |names| ==> !Blocked(names, positions, services, i)
    ensures r.Collision? ==> r.at < |names| && Blocked(names, positions, services, r.at)
  {
    hide Positional, Count, RuleFor;
    DistinctIff(names, positions, services);
    var first, taken0 := ByPresentation(names);
    var chosen, taken := ByService(names, services, first, taken0);
    assert forall x :: x in taken <==> x != "" && Held(names, positions, services, 0, x) by {
      FactoryTaken(names, positions, services, taken);
    }
    var i := 0;
    while i < |names|
      invariant 0 <= i <= |names| == |chosen| && ChosenOk(chosen, taken)
      invariant forall k :: 0 <= k < i ==> chosen[k] == Some(NameOf(names, positions, services, k))
      invariant forall k :: i <= k < |names| ==> chosen[k] == GivenBy(names, services, k)
      invariant forall x :: x in taken <==> x != "" && Held(names, positions, services, i, x)
    {
      HeldStep(names, positions, services, i);
      if chosen[i].None? {
        var name := Positional(names[i], positions[i]);
        assert name != "" by { PositionalNotEmpty(names[i], positions[i]); }
        if name in taken {
          HeldBlocks(names, positions, services, i);
          return Collision(i);
        }
        Choose(chosen, taken, i, name);
        chosen := chosen[i := Some(name)];
        taken := taken + {name};
      }
      hide ChosenOk, Held;
      i := i + 1;
    }
    var result := seq(|chosen|, k requires 0 <= k < |chosen| => if chosen[k].Some? then chosen[k].value else "");
    assert Distinct(result);
    assert result == AllNames(names, positions, services);
    var duplicate := HasDuplicate(result);
    if duplicate {
      return StillColliding;
    }
    r := Named(result);
  }

  /** `x` is the name of a field that rules (a) and (b) name, or of one of the first `n`. */
  ghost predicate Held(names: seq<string>, positions: seq<nat>, services: seq<string>, n: nat, x: string)
    requires n <= |names| == |positions| == |services|
  {
    exists k :: 0 <= k < |names| && (k < n || !RuleFor(names, services, k).Position?) && NameOf(names, positions, services, k) == x
  }

  lemma HeldStep(names: seq<string>, positions: seq<nat>, services: seq<string>, n: nat)
    requires n < |names| == |positions| == |services|
    ensures forall x :: Held(names, positions, services, n + 1, x) <==>
      Held(names, positions, services, n, x) || x == NameOf(names, positions, services, n)
    ensures !RuleFor(names, services, n).Position? ==> Held(names, positions, services, n, NameOf(names, positions, services, n))
  {
    hide NameOf, RuleFor;
    forall x | Held(names, positions, services, n + 1, x)
      ensures Held(names, positions, services, n, x) || x == NameOf(names, positions, services, n) {
      var k :| 0 <= k < |names| && (k < n + 1 || !RuleFor(names, services, k).Position?) && NameOf(names, positions, services, k) == x;
    }
    forall x | Held(names, positions, services, n, x) ensures Held(names, positions, services, n + 1, x) {
      var k :| 0 <= k < |names| && (k < n || !RuleFor(names, services, k).Position?) && NameOf(names, positions, services, k) == x;
    }
    assert NameOf(names, positions, services, n) == NameOf(names, positions, services, n);
    assert Held(names, positions, services, n + 1, NameOf(names, positions, services, n));
  }

  lemma FactoryTaken(names: seq<string>, positions: seq<nat>, services: seq<string>, taken: set<string>)
    requires |names| == |positions| == |services|
    requires forall x :: x in taken <==> (x != "" && Count(names, x) == 1) || ServedBefore(names, services, |names|, x)
    ensures forall x :: x in taken <==> x != "" && Held(names, positions, services, 0, x)
  {
    forall x | x in taken ensures x != "" && Held(names, positions, services, 0, x) {
      if ServedBefore(names, services, |names|, x) {
        var k :| 0 <= k < |names| && RuleFor(names, services, k).Service? && services[k] == x;
        assert NameOf(names, positions, services, k) == x;
      } else {
        CountPositive(names, x);
        var k :| 0 <= k < |names| && names[k] == x;
        assert NameOf(names, positions, services, k) == x;
      }
    }
  }

  /** A positional name already taken by the time its field comes up is some other field's. */
  lemma HeldBlocks(names: seq<string>, positions: seq<nat>, services: seq<string>, i: nat)
    requires i < |names| == |positions| == |services| && RuleFor(names, services, i).Position?
    requires Held(names, positions, services, i, Positional(names[i], positions[i]))
    ensures Blocked(names, positions, services, i)
  {
    hide RuleFor, Positional;
    var k :| 0 <= k < |names| && (k < i || !RuleFor(names, services, k).Position?) &&
      NameOf(names, positions, services, k) == Positional(names[i], positions[i]);
    ClashesIff(names, positions, services, i, k);
    hide Clashes, NameOf;
  }

  lemma PositionalNotEmpty(name: string, pos: nat)
    ensures Positional(name, pos) != ""
  {
    assert |Positional(name, pos)| > 0;
  }

  method HasDuplicate(s: seq<string>) returns (found: bool)
    ensures found <==> !Distinct(s)
  {
    var seen: set<string> := {};
    var i := 0;
    while i < |s|
      invariant 0 <= i <= |s|
      invariant forall x :: x in seen <==> x in s[..i]
      invariant Distinct(s[..i])
    {
      if s[i] in seen {
        var k :| 0 <= k < i && s[..i][k] == s[i];
        assert s[k] == s[i];
        return true;
      }
      assert s[..i + 1] == s[..i] + [s[i]];
      seen := seen + {s[i]};
      i := i + 1;
    }
    assert s[..i] == s;
    found := false;
  }
}
