/** What the dependency sort emits: without marks, every service spelled out after all it depends on. */
module DependencyUnfolding {
  import opened Sequences
  import opened DependencyOrder

  // The plain unfolding of a service

  /** The services that those of a list need, themselves included. */
  ghost function Needed(names: seq<string>, dependsOn: Graph, list: seq<string>): set<string> {
    set x | x in names && exists d :: d in list && d in names && Reaches(names, dependsOn, d, x)
  }

  lemma NeededStep(names: seq<string>, dependsOn: Graph, name: string, d: string, x: string)
    requires Edge(names, dependsOn, name, d) && Reaches(names, dependsOn, d, x)
    ensures Reaches(names, dependsOn, name, x)
  {
    var p: seq<string> :| |p| >= 1 && Walk(names, dependsOn, p) && p[0] == d && p[|p| - 1] == x;
    var q := [name] + p;
    assert forall i | 0 <= i < |q| - 1 :: Edge(names, dependsOn, q[i], q[i + 1]) by {
      forall i | 0 <= i < |q| - 1 ensures Edge(names, dependsOn, q[i], q[i + 1]) {
        if i > 0 { assert Edge(names, dependsOn, p[i - 1], p[i]); }
      }
    }
    assert q[0] == name && q[|q| - 1] == x;
  }

  lemma NeedsItself(names: seq<string>, dependsOn: Graph, x: string)
    ensures Reaches(names, dependsOn, x, x)
  {
    assert Walk(names, dependsOn, [x]);
  }

  /** Without a cycle, what the dependencies of a service need does not include the service. */
  lemma DependenciesNeedLess(names: seq<string>, dependsOn: Graph, name: string)
    requires name in names && !HasCycle(names, dependsOn)
    ensures Needed(names, dependsOn, Deps(dependsOn, name)) < Needed(names, dependsOn, [name])
  {
    hide Walk, HasCycle, Reaches;
    var more := Needed(names, dependsOn, [name]);
    NeedsItself(names, dependsOn, name);
    assert name in [name];
    forall x, d | d in Deps(dependsOn, name) && d in names && Reaches(names, dependsOn, d, x)
      ensures x != name && Reaches(names, dependsOn, name, x)
    {
      NeededStep(names, dependsOn, name, d, x);
      if x == name { NoWayBack(names, dependsOn, name, d); }
    }
    assert name in more && name !in Needed(names, dependsOn, Deps(dependsOn, name));
  }

  lemma NoWayBack(names: seq<string>, dependsOn: Graph, name: string, d: string)
    requires Edge(names, dependsOn, name, d) && Reaches(names, dependsOn, d, name)
    ensures HasCycle(names, dependsOn)
  {
    var p: seq<string> :| |p| >= 1 && Walk(names, dependsOn, p) && p[0] == d && p[|p| - 1] == name;
    var q := [name] + p;
    forall i | 0 <= i < |q| - 1 ensures Edge(names, dependsOn, q[i], q[i + 1]) {
      if i > 0 { assert Edge(names, dependsOn, p[i - 1], p[i]); }
    }
    assert ClosedWalk(names, dependsOn, q);
  }

  lemma FewerNeedLess(names: seq<string>, dependsOn: Graph, list: seq<string>)
    requires list != []
    ensures Needed(names, dependsOn, list[1..]) <= Needed(names, dependsOn, list)
    ensures Needed(names, dependsOn, [list[0]]) <= Needed(names, dependsOn, list)
  {
    hide Reaches;
  }

  /** The unfoldings of the services that a service depends on, in declared order, then the service. */
  ghost function Unfold(names: seq<string>, dependsOn: Graph, name: string): seq<string>
    requires name in names && !HasCycle(names, dependsOn)
    decreases Needed(names, dependsOn, [name]), 0, 0
  {
    DependenciesNeedLess(names, dependsOn, name);
    UnfoldAll(names, dependsOn, Deps(dependsOn, name)) + [name]
  }

  /** The unfoldings of those of a list that are services of the file. */
  ghost function UnfoldAll(names: seq<string>, dependsOn: Graph, list: seq<string>): seq<string>
    requires !HasCycle(names, dependsOn)
    decreases Needed(names, dependsOn, list), 1, |list|
  {
    if list == [] then []
    else
      FewerNeedLess(names, dependsOn, list);
      (if list[0] in names then Unfold(names, dependsOn, list[0]) else []) + UnfoldAll(names, dependsOn, list[1..])
  }

  /** Everything in an unfolding is needed by a service of the list. */
  lemma {:induction false} UnfoldingIsNeeded(names: seq<string>, dependsOn: Graph, list: seq<string>, x: string)
    requires !HasCycle(names, dependsOn) && x in UnfoldAll(names, dependsOn, list)
    ensures x in Needed(names, dependsOn, list)
    decreases Needed(names, dependsOn, list), 1, |list|
  {
    hide HasCycle, Reaches, Walk, Unfold;
    FewerNeedLess(names, dependsOn, list);
    if list[0] in names && x in Unfold(names, dependsOn, list[0]) {
      OneUnfoldingIsNeeded(names, dependsOn, list[0], x);
    } else {
      UnfoldingIsNeeded(names, dependsOn, list[1..], x);
    }
  }

  lemma {:induction false} OneUnfoldingIsNeeded(names: seq<string>, dependsOn: Graph, name: string, x: string)
    requires name in names && !HasCycle(names, dependsOn) && x in Unfold(names, dependsOn, name)
    ensures x in Needed(names, dependsOn, [name])
    decreases Needed(names, dependsOn, [name]), 0, 0
  {
    hide HasCycle, Reaches, Walk, UnfoldAll;
    DependenciesNeedLess(names, dependsOn, name);
    if x == name {
      NeedsItself(names, dependsOn, name);
      assert name in [name];
    } else {
      UnfoldingIsNeeded(names, dependsOn, Deps(dependsOn, name), x);
    }
  }

  lemma {:induction false} UnfoldAllAppend(names: seq<string>, dependsOn: Graph, a: seq<string>, b: seq<string>)
    requires !HasCycle(names, dependsOn)
    ensures UnfoldAll(names, dependsOn, a + b) == UnfoldAll(names, dependsOn, a) + UnfoldAll(names, dependsOn, b)
    decreases |a|
  {
    hide HasCycle, Needed, Unfold;
    if a == [] {
      assert a + b == b;
    } else {
      assert (a + b)[0] == a[0] && (a + b)[1..] == a[1..] + b;
      UnfoldAllAppend(names, dependsOn, a[1..], b);
      var head := if a[0] in names then Unfold(names, dependsOn, a[0]) else [];
      var x, y := UnfoldAll(names, dependsOn, a[1..]), UnfoldAll(names, dependsOn, b);
      assert head + (x + y) == (head + x) + y;
    }
  }

  // The search emits what is new in the unfolding

  /** A list in dependency order holds the unfolding of each of its services. */
  ghost predicate Closed(names: seq<string>, dependsOn: Graph, s: seq<string>) {
    forall x, d | x in s && Edge(names, dependsOn, x, d) :: d in s
  }

  lemma OrderedIsClosed(names: seq<string>, dependsOn: Graph, s: seq<string>)
    requires DependenciesFirst(names, dependsOn, s)
    ensures Closed(names, dependsOn, s)
  {
    forall x, d | x in s && Edge(names, dependsOn, x, d) ensures d in s {
      var i :| 0 <= i < |s| && s[i] == x;
      assert d in s[..i];
    }
  }

  lemma {:induction false} ClosedHolds(names: seq<string>, dependsOn: Graph, s: seq<string>, list: seq<string>)
    requires Closed(names, dependsOn, s) && !HasCycle(names, dependsOn)
    requires forall d | d in list && d in names :: d in s
    ensures forall x | x in UnfoldAll(names, dependsOn, list) :: x in s
    decreases Needed(names, dependsOn, list), 1, |list|
  {
    hide HasCycle, Needed, Closed, Unfold;
    if list != [] {
      FewerNeedLess(names, dependsOn, list);
      if list[0] in names { ClosedHoldsOne(names, dependsOn, s, list[0]); }
      ClosedHolds(names, dependsOn, s, list[1..]);
    }
  }

  lemma {:induction false} ClosedHoldsOne(names: seq<string>, dependsOn: Graph, s: seq<string>, name: string)
    requires Closed(names, dependsOn, s) && !HasCycle(names, dependsOn) && name in names && name in s
    ensures forall x | x in Unfold(names, dependsOn, name) :: x in s
    decreases Needed(names, dependsOn, [name]), 0, 0
  {
    hide HasCycle, Needed, UnfoldAll;
    DependenciesNeedLess(names, dependsOn, name);
    forall d | d in Deps(dependsOn, name) && d in names ensures d in s { EdgeTo(names, dependsOn, name, d); }
    ClosedHolds(names, dependsOn, s, Deps(dependsOn, name));
  }

  lemma {:induction false} NothingNew<T>(s: seq<T>, more: seq<T>)
    requires forall x | x in more :: x in s
    ensures AddAll(s, more) == s
    decreases |more|
  {
    if more != [] { NothingNew(s, more[1..]); }
  }

  lemma GoodHasNoCycle(s: Found, names: seq<string>, dependsOn: Graph, root: nat, trail: seq<string>)
    requires Good(s, names, dependsOn, root, trail) && !HasCycle(names, dependsOn)
    ensures s.cycle.None? && Closed(names, dependsOn, s.ordered)
  {
    if s.cycle.Some? { LassoIsCycle(names, dependsOn, s.cycle.value); }
    else { OrderedIsClosed(names, dependsOn, s.ordered); }
  }

  lemma NotOnTrail(s: Found, names: seq<string>, dependsOn: Graph, root: nat, trail: seq<string>, name: string)
    requires Good(s, names, dependsOn, root, trail) && Steps(names, dependsOn, root, trail, name)
    requires !HasCycle(names, dependsOn)
    ensures name !in trail
  {
    if name in trail {
      MeetingTheTrailIsACycle(names, dependsOn, trail, name);
      LassoIsCycle(names, dependsOn, trail + [name]);
    }
  }

  lemma GoodIsOff(s: Found, names: seq<string>, dependsOn: Graph, root: nat, trail: seq<string>, name: string)
    requires Good(s, names, dependsOn, root, trail + [name])
    ensures name !in s.ordered
  {
    assert name in trail + [name];
  }

  lemma {:induction false} ExploreUnfolds(names: seq<string>, dependsOn: Graph, root: nat, name: string,
    trail: seq<string>, s: Found)
    requires Good(s, names, dependsOn, root, trail) && name in names && Steps(names, dependsOn, root, trail, name)
    requires !HasCycle(names, dependsOn)
    ensures Explore(names, dependsOn, name, trail, s).ordered == AddAll(s.ordered, Unfold(names, dependsOn, name))
    decreases set x | x in names && x !in trail, 0, 0
  {
    hide Good, Steps, Walk, Edge, NeededBy, HasCycle, Needed, Closed, UnfoldAll, AddAll;
    GoodHasNoCycle(s, names, dependsOn, root, trail);
    NotOnTrail(s, names, dependsOn, root, trail, name);
    if name in s.ordered {
      ClosedHoldsOne(names, dependsOn, s.ordered, name);
      NothingNew(s.ordered, Unfold(names, dependsOn, name));
    } else {
      Narrows(names, trail, name);
      EnterKeepsGood(s, names, dependsOn, root, trail, name);
      var deps := Deps(dependsOn, name);
      forall d | d in deps && d in names ensures Steps(names, dependsOn, root, trail + [name], d) {
        EdgeTo(names, dependsOn, name, d);
        DependenciesStep(names, dependsOn, root, trail, name, d);
      }
      ExploreAllKeepsGood(names, dependsOn, root, deps, trail + [name], s);
      ExploreAllUnfolds(names, dependsOn, root, deps, trail + [name], s);
      GoodIsOff(ExploreAll(names, dependsOn, deps, trail + [name], s), names, dependsOn, root, trail, name);
      AddAllAppend(s.ordered, UnfoldAll(names, dependsOn, deps), [name]);
      AddOne(AddAll(s.ordered, UnfoldAll(names, dependsOn, deps)), name);
    }
  }

  lemma AddOne<T>(s: seq<T>, x: T)
    ensures AddAll(s, [x]) == Added(s, x)
  {
  }

  lemma {:induction false} ExploreAllUnfolds(names: seq<string>, dependsOn: Graph, root: nat, deps: seq<string>,
    trail: seq<string>, s: Found)
    requires Good(s, names, dependsOn, root, trail) && !HasCycle(names, dependsOn)
    requires forall d | d in deps && d in names :: Steps(names, dependsOn, root, trail, d)
    ensures ExploreAll(names, dependsOn, deps, trail, s).ordered
         == AddAll(s.ordered, UnfoldAll(names, dependsOn, deps))
    decreases set x | x in names && x !in trail, 1, |deps|
  {
    hide Good, Steps, Explore, Unfold, HasCycle, Needed, AddAll;
    if deps == [] {
      NothingNew(s.ordered, []);
    } else {
      if deps[0] in names {
        ExploreKeepsGood(names, dependsOn, root, deps[0], trail, s);
        ExploreUnfolds(names, dependsOn, root, deps[0], trail, s);
      }
      var t := if deps[0] in names then Explore(names, dependsOn, deps[0], trail, s) else s;
      var head := if deps[0] in names then Unfold(names, dependsOn, deps[0]) else [];
      NothingNew(s.ordered, []);
      ExploreAllUnfolds(names, dependsOn, root, deps[1..], trail, t);
      AddAllAppend(s.ordered, head, UnfoldAll(names, dependsOn, deps[1..]));
    }
  }

  lemma {:induction false} PrefixUnfolds(names: seq<string>, dependsOn: Graph, i: nat)
    requires i <= |names| && !HasCycle(names, dependsOn)
    ensures Prefix(names, dependsOn, i).ordered == AddAll([], UnfoldAll(names, dependsOn, names[..i]))
  {
    hide Good, Explore, Walk, NeededBy, HasCycle, Needed, AddAll, Unfold, NothingJumpsAhead;
    if i == 0 {
      assert names[..0] == [];
      NothingNew<string>([], []);
    } else {
      var before, name := Prefix(names, dependsOn, i - 1), names[i - 1];
      PrefixUnfolds(names, dependsOn, i - 1);
      PrefixIsGood(names, dependsOn, i - 1);
      PrefixStep(names, dependsOn, i - 1);
      if i > 1 { NextRoot(before, names, dependsOn, i - 1); }
      NeededItself(names, dependsOn, i - 1);
      ExploreUnfolds(names, dependsOn, i - 1, name, [], before);
      assert names[..i] == names[..i - 1] + [name];
      UnfoldAllAppend(names, dependsOn, names[..i - 1], [name]);
      UnfoldOne(names, dependsOn, name);
      AddAllAppend([], UnfoldAll(names, dependsOn, names[..i - 1]), Unfold(names, dependsOn, name));
    }
  }

  lemma UnfoldOne(names: seq<string>, dependsOn: Graph, name: string)
    requires name in names && !HasCycle(names, dependsOn)
    ensures UnfoldAll(names, dependsOn, [name]) == Unfold(names, dependsOn, name)
  {
    hide HasCycle, Needed, Unfold;
    assert [name][1..] == [];
  }

  /**
   * Without a cycle, the order is the unfolding of all services in file order, of which only the first occurrence of
   * each service is kept.
   */
  lemma OrderUnfolds(names: seq<string>, dependsOn: Graph)
    requires !HasCycle(names, dependsOn)
    ensures Order(names, dependsOn) == AddAll([], UnfoldAll(names, dependsOn, names))
  {
    hide HasCycle, ExploreAll, UnfoldAll, AddAll;
    OrderIsSorted(names, dependsOn);
    assert names[..|names|] == names;
    PrefixUnfolds(names, dependsOn, |names|);
  }

  // What comes of it for two dependencies of one service

  lemma DeclaredFirst(names: seq<string>, dependsOn: Graph, r: nat, i: nat)
    requires !HasCycle(names, dependsOn) && r < |names| && i < |Deps(dependsOn, names[r])|
    requires Deps(dependsOn, names[r])[i] in names
    ensures var deps := Deps(dependsOn, names[r]);
      exists tail :: UnfoldAll(names, dependsOn, names)
        == UnfoldAll(names, dependsOn, names[..r]) + UnfoldAll(names, dependsOn, deps[..i])
          + Unfold(names, dependsOn, deps[i]) + tail
  {
    hide HasCycle, Needed, UnfoldAll;
    var deps := Deps(dependsOn, names[r]);
    var x, d := names[r], deps[i];
    assert names == names[..r] + ([x] + names[r + 1..]) && deps == deps[..i] + ([d] + deps[i + 1..]);
    UnfoldAllAppend(names, dependsOn, names[..r], [x] + names[r + 1..]);
    UnfoldAllAppend(names, dependsOn, [x], names[r + 1..]);
    UnfoldAllAppend(names, dependsOn, deps[..i], [d] + deps[i + 1..]);
    UnfoldAllAppend(names, dependsOn, [d], deps[i + 1..]);
    UnfoldOne(names, dependsOn, x);
    UnfoldOne(names, dependsOn, d);
    var a, b, c := UnfoldAll(names, dependsOn, names[..r]), UnfoldAll(names, dependsOn, deps[..i]),
      Unfold(names, dependsOn, d);
    var e, f := UnfoldAll(names, dependsOn, deps[i + 1..]), UnfoldAll(names, dependsOn, names[r + 1..]);
    assert UnfoldAll(names, dependsOn, names) == a + b + c + (e + [x] + f);
  }

  lemma NotNeededNotUnfolded(names: seq<string>, dependsOn: Graph, list: seq<string>, x: string)
    requires !HasCycle(names, dependsOn) && x !in Needed(names, dependsOn, list)
    ensures x !in UnfoldAll(names, dependsOn, list)
  {
    hide HasCycle, Needed, UnfoldAll;
    if x in UnfoldAll(names, dependsOn, list) { UnfoldingIsNeeded(names, dependsOn, list, x); }
  }

  lemma FirstComesFirst<T>(head: seq<T>, tail: seq<T>, d: T, e: T, p: nat, q: nat)
    requires d in head && e !in head
    requires var s := AddAll([], head + tail); p < |s| && q < |s| && s[p] == d && s[q] == e
    ensures p < q
  {
    AddAllAppend([], head, tail);
    AddAllMembers([], head);
    AddAllMembers(AddAll([], head), tail);
    var s, front := AddAll([], head + tail), AddAll([], head);
    var k :| 0 <= k < |front| && front[k] == d;
    assert s[k] == d;
    forall j | 0 <= j < |front| ensures front[j] != e { assert front[j] in front; }
  }

  /**
   * Two dependencies of one service come in the order in which it declares them, if no service listed before it and no
   * dependency declared before them needs the second one, unless the first needs the second.
   */
  lemma DeclaredOrderStays(names: seq<string>, dependsOn: Graph, r: nat, i: nat, e: string, p: nat, q: nat)
    requires !HasCycle(names, dependsOn) && r < |names|
    requires var deps := Deps(dependsOn, names[r]);
      && i < |deps| && deps[i] in names && e in deps[i + 1..] && e in names
      && e !in Needed(names, dependsOn, names[..r] + deps[..i + 1])
    requires var order := Order(names, dependsOn);
      p < |order| && q < |order| && order[p] == Deps(dependsOn, names[r])[i] && order[q] == e
    ensures p < q
  {
    hide HasCycle, Reaches, UnfoldAll, Order, AddAll;
    var deps := Deps(dependsOn, names[r]);
    var d := deps[i];
    OrderUnfolds(names, dependsOn);
    DeclaredFirst(names, dependsOn, r, i);
    var a, b, c := UnfoldAll(names, dependsOn, names[..r]), UnfoldAll(names, dependsOn, deps[..i]),
      Unfold(names, dependsOn, d);
    var tail :| UnfoldAll(names, dependsOn, names) == a + b + c + tail;
    var all := names[..r] + deps[..i + 1];
    assert deps[..i + 1] == deps[..i] + [d] && d in [d];
    forall x | x in names[..r] || x in deps[..i] || x == d ensures x in all { }
    NotNeededNotUnfolded(names, dependsOn, names[..r], e);
    NotNeededNotUnfolded(names, dependsOn, deps[..i], e);
    NotNeededNotUnfolded(names, dependsOn, [d], e);
    UnfoldOne(names, dependsOn, d);
    FirstComesFirst(a + b + c, tail, d, e, p, q);
  }
}
