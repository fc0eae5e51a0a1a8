/**
 * The dependency sort of the Compose importer: a recursive three-state depth-first search
 * that falls back to file order when it meets a cycle.
 */
module DependencyOrder {
  import opened ImportIssues
  import opened Sequences

  type Graph = map<string, seq<string>>

  function Deps(dependsOn: Graph, name: string): seq<string> {
    if name in dependsOn then dependsOn[name] else []
  }

  /** `a` depends on `b`, both being services of the file. */
  ghost predicate Edge(names: seq<string>, dependsOn: Graph, a: string, b: string) {
    a in names && b in names && b in Deps(dependsOn, a)
  }

  ghost predicate Walk(names: seq<string>, dependsOn: Graph, p: seq<string>) {
    forall i | 0 <= i < |p| - 1 :: Edge(names, dependsOn, p[i], p[i + 1])
  }

  ghost predicate ClosedWalk(names: seq<string>, dependsOn: Graph, p: seq<string>) {
    |p| >= 2 && Walk(names, dependsOn, p) && p[0] == p[|p| - 1]
  }

  ghost predicate HasCycle(names: seq<string>, dependsOn: Graph) {
    exists p :: ClosedWalk(names, dependsOn, p)
  }

  /** Every restricted dependency of an entry occurs strictly before it. */
  ghost predicate DependenciesFirst(names: seq<string>, dependsOn: Graph, order: seq<string>) {
    forall i, d | 0 <= i < |order| && Edge(names, dependsOn, order[i], d) :: d in order[..i]
  }

  /** A walk that ends in a service it already passed: what the cycle message shows. */
  ghost predicate Lasso(names: seq<string>, dependsOn: Graph, walk: seq<string>) {
    |walk| >= 2 && Walk(names, dependsOn, walk) && NoDuplicates(walk[..|walk| - 1])
    && walk[|walk| - 1] in walk[..|walk| - 1]
  }

  ghost predicate Reaches(names: seq<string>, dependsOn: Graph, a: string, b: string) {
    exists p: seq<string> :: |p| >= 1 && Walk(names, dependsOn, p) && p[0] == a && p[|p| - 1] == b
  }

  /** One of the first `k + 1` services of the file is, or transitively depends on, `x`. */
  ghost predicate NeededBy(names: seq<string>, dependsOn: Graph, k: nat, x: string) {
    exists j | 0 <= j <= k < |names| :: Reaches(names, dependsOn, names[j], x)
  }

  lemma NeededItself(names: seq<string>, dependsOn: Graph, k: nat)
    requires k < |names|
    ensures NeededBy(names, dependsOn, k, names[k]) && Walk(names, dependsOn, [] + [names[k]])
  {
    assert Walk(names, dependsOn, [names[k]]);
    assert Reaches(names, dependsOn, names[k], names[k]);
  }

  lemma NeededThrough(names: seq<string>, dependsOn: Graph, k: nat, x: string, d: string)
    requires NeededBy(names, dependsOn, k, x) && Edge(names, dependsOn, x, d)
    ensures NeededBy(names, dependsOn, k, d)
  {
    var j :| 0 <= j <= k < |names| && Reaches(names, dependsOn, names[j], x);
    var p: seq<string> :| |p| >= 1 && Walk(names, dependsOn, p) && p[0] == names[j] && p[|p| - 1] == x;
    var q := p + [d];
    assert forall i | 0 <= i < |q| - 1 :: Edge(names, dependsOn, q[i], q[i + 1]);
    assert Reaches(names, dependsOn, names[j], d);
  }

  lemma LassoIsCycle(names: seq<string>, dependsOn: Graph, walk: seq<string>)
    requires Lasso(names, dependsOn, walk)
    ensures HasCycle(names, dependsOn)
  {
    var k :| 0 <= k < |walk| - 1 && walk[k] == walk[|walk| - 1];
    assert ClosedWalk(names, dependsOn, walk[k..]);
  }

  /** Along a walk through a list in dependency order, positions strictly fall. */
  lemma {:induction false} WalkDescends(names: seq<string>, dependsOn: Graph, order: seq<string>, p: seq<string>,
    i: nat, j: nat)
    requires NoDuplicates(order) && DependenciesFirst(names, dependsOn, order)
    requires Walk(names, dependsOn, p) && |p| >= 2
    requires i < |order| && j < |order| && p[0] == order[i] && p[|p| - 1] == order[j]
    ensures j < i
  {
    assert Edge(names, dependsOn, p[0], p[1]);
    var k :| 0 <= k < i && order[k] == p[1];
    if |p| > 2 {
      assert Walk(names, dependsOn, p[1..]);
      WalkDescends(names, dependsOn, order, p[1..], k, j);
    }
  }

  /** A dependency-first listing of all services exists only when there is no cycle. */
  lemma OrderRefutesCycle(names: seq<string>, dependsOn: Graph, order: seq<string>)
    requires NoDuplicates(order) && DependenciesFirst(names, dependsOn, order)
    requires forall x | x in names :: x in order
    ensures !HasCycle(names, dependsOn)
  {
    forall p | ClosedWalk(names, dependsOn, p) ensures false {
      assert Edge(names, dependsOn, p[0], p[1]);
      var i :| 0 <= i < |order| && order[i] == p[0];
      WalkDescends(names, dependsOn, order, p, i, i);
    }
  }

  // The search, as a function

  /**
   * What has been emitted, and the walk of the first cycle met. A service is being visited while it is on the trail.
   */
  datatype Found = Found(ordered: seq<string>, cycle: Option<seq<string>>)

  function Explore(names: seq<string>, dependsOn: Graph, name: string, trail: seq<string>, s: Found): Found
    requires name in names
    decreases set x | x in names && x !in trail, 0, 0
  {
    if name in s.ordered then s
    else if name in trail then (if s.cycle.None? then s.(cycle := Some(trail + [name])) else s)
    else
      Narrows(names, trail, name);
      var t := ExploreAll(names, dependsOn, Deps(dependsOn, name), trail + [name], s);
      t.(ordered := t.ordered + [name])
  }

  function ExploreAll(names: seq<string>, dependsOn: Graph, deps: seq<string>, trail: seq<string>, s: Found): Found
    decreases set x | x in names && x !in trail, 1, |deps|
  {
    if deps == [] then s
    else
      var t := if deps[0] in names then Explore(names, dependsOn, deps[0], trail, s) else s;
      ExploreAll(names, dependsOn, deps[1..], trail, t)
  }

  lemma Narrows(names: seq<string>, trail: seq<string>, name: string)
    requires name in names && name !in trail
    ensures (set x | x in names && x !in trail + [name]) < (set x | x in names && x !in trail)
  {
    var less, more := set x | x in names && x !in trail + [name], set x | x in names && x !in trail;
    forall x | x in less ensures x in more { assert x in trail ==> x in trail + [name]; }
    assert name in more && name in trail + [name] && name !in less;
  }

  function Search(names: seq<string>, dependsOn: Graph): Found {
    ExploreAll(names, dependsOn, names, [], Found([], None))
  }

  function Order(names: seq<string>, dependsOn: Graph): seq<string> {
    var s := Search(names, dependsOn);
    if s.cycle.Some? then names else s.ordered
  }

  function WalkIssues(cycle: Option<seq<string>>): seq<Issue> {
    match cycle case None => [] case Some(walk) => [Issue(Lossy, ["services"], Cycle(walk))]
  }

  function CycleIssues(names: seq<string>, dependsOn: Graph): seq<Issue> { WalkIssues(Search(names, dependsOn).cycle) }

  // What the search keeps

  /**
   * Nothing on the trail is emitted; everything emitted is needed by the service that the main loop is at, or by an
   * earlier one; a cycle that was met is real, and as long as none was, dependencies come first.
   */
  ghost predicate Good(s: Found, names: seq<string>, dependsOn: Graph, root: nat, trail: seq<string>) {
    && NoDuplicates(trail) && NoDuplicates(s.ordered)
    && (forall x | x in s.ordered :: x in names && x !in trail && NeededBy(names, dependsOn, root, x))
    && match s.cycle
       case Some(walk) => Lasso(names, dependsOn, walk)
       case None => DependenciesFirst(names, dependsOn, s.ordered)
  }

  ghost predicate Extends(s: Found, t: Found) { s.ordered <= t.ordered && (s.cycle.Some? ==> t.cycle == s.cycle) }

  ghost predicate Steps(names: seq<string>, dependsOn: Graph, root: nat, trail: seq<string>, d: string) {
    Walk(names, dependsOn, trail + [d]) && NeededBy(names, dependsOn, root, d)
  }

  lemma EmitKeepsOrder(names: seq<string>, dependsOn: Graph, ordered: seq<string>, name: string)
    requires DependenciesFirst(names, dependsOn, ordered)
    requires forall d | Edge(names, dependsOn, name, d) :: d in ordered
    ensures DependenciesFirst(names, dependsOn, ordered + [name])
  {
    var order := ordered + [name];
    forall i, d | 0 <= i < |order| && Edge(names, dependsOn, order[i], d) ensures d in order[..i] {
      assert order[..i] == if i < |ordered| then ordered[..i] else ordered;
    }
  }

  lemma EnterKeepsGood(s: Found, names: seq<string>, dependsOn: Graph, root: nat, trail: seq<string>, name: string)
    requires Good(s, names, dependsOn, root, trail) && name !in trail && name !in s.ordered
    ensures Good(s, names, dependsOn, root, trail + [name])
  {
    NoDuplicatesAppend(trail, name);
  }

  lemma LeaveKeepsGood(s: Found, names: seq<string>, dependsOn: Graph, root: nat, trail: seq<string>, name: string)
    requires Good(s, names, dependsOn, root, trail + [name])
    requires name in names && NeededBy(names, dependsOn, root, name)
    requires s.cycle.None? ==> forall d | Edge(names, dependsOn, name, d) :: d in s.ordered
    ensures Good(s.(ordered := s.ordered + [name]), names, dependsOn, root, trail)
  {
    assert name in trail + [name];
    assert name !in trail && NoDuplicates(trail) by {
      assert forall i | 0 <= i < |trail| :: (trail + [name])[i] == trail[i] && trail[i] != (trail + [name])[|trail|];
    }
    NoDuplicatesAppend(s.ordered, name);
    if s.cycle.None? { EmitKeepsOrder(names, dependsOn, s.ordered, name); }
  }

  lemma MeetingTheTrailIsACycle(names: seq<string>, dependsOn: Graph, trail: seq<string>, name: string)
    requires NoDuplicates(trail) && Walk(names, dependsOn, trail + [name]) && name in trail
    ensures Lasso(names, dependsOn, trail + [name])
  {
    assert (trail + [name])[..|trail|] == trail;
  }

  lemma DependenciesStep(names: seq<string>, dependsOn: Graph, root: nat, trail: seq<string>, name: string, d: string)
    requires Steps(names, dependsOn, root, trail, name) && Edge(names, dependsOn, name, d)
    ensures Steps(names, dependsOn, root, trail + [name], d)
  {
    NeededThrough(names, dependsOn, root, name, d);
    var p := trail + [name] + [d];
    forall i | 0 <= i < |p| - 1 ensures Edge(names, dependsOn, p[i], p[i + 1]) {
      if i < |trail| { assert p[i] == (trail + [name])[i] && p[i + 1] == (trail + [name])[i + 1]; }
    }
  }

  /** One visit keeps the invariant; unless it met a cycle, the service is emitted. */
  lemma {:induction false} ExploreKeepsGood(names: seq<string>, dependsOn: Graph, root: nat, name: string,
    trail: seq<string>, s: Found)
    requires Good(s, names, dependsOn, root, trail) && name in names && Steps(names, dependsOn, root, trail, name)
    ensures var t := Explore(names, dependsOn, name, trail, s);
      && Good(t, names, dependsOn, root, trail) && Extends(s, t)
      && (name in t.ordered || (name in trail && t.cycle.Some?))
    decreases set x | x in names && x !in trail, 0, 0
  {
    hide Good, Steps, Walk, Edge, NeededBy;
    if name in s.ordered {
    } else if name in trail {
      MeetingGood(names, dependsOn, root, name, trail, s);
    } else {
      Narrows(names, trail, name);
      EnterKeepsGood(s, names, dependsOn, root, trail, name);
      forall d | d in Deps(dependsOn, name) && d in names ensures Steps(names, dependsOn, root, trail + [name], d) {
        EdgeTo(names, dependsOn, name, d);
        DependenciesStep(names, dependsOn, root, trail, name, d);
      }
      ExploreAllKeepsGood(names, dependsOn, root, Deps(dependsOn, name), trail + [name], s);
      var t := ExploreAll(names, dependsOn, Deps(dependsOn, name), trail + [name], s);
      forall d | Edge(names, dependsOn, name, d) ensures d in Deps(dependsOn, name) && d in names {
        EdgeTo(names, dependsOn, name, d);
      }
      StepsNeeded(names, dependsOn, root, trail, name);
      LeaveKeepsGood(t, names, dependsOn, root, trail, name);
    }
  }

  lemma MeetingGood(names: seq<string>, dependsOn: Graph, root: nat, name: string, trail: seq<string>, s: Found)
    requires Good(s, names, dependsOn, root, trail) && name in trail && Steps(names, dependsOn, root, trail, name)
    ensures s.cycle.None? ==> Good(s.(cycle := Some(trail + [name])), names, dependsOn, root, trail)
  {
    MeetingTheTrailIsACycle(names, dependsOn, trail, name);
  }

  lemma EdgeTo(names: seq<string>, dependsOn: Graph, name: string, d: string)
    requires name in names
    ensures Edge(names, dependsOn, name, d) <==> d in names && d in Deps(dependsOn, name)
  {
  }

  lemma StepsNeeded(names: seq<string>, dependsOn: Graph, root: nat, trail: seq<string>, name: string)
    requires Steps(names, dependsOn, root, trail, name)
    ensures NeededBy(names, dependsOn, root, name)
  {
  }

  lemma {:induction false} ExploreAllKeepsGood(
    names: seq<string>, dependsOn: Graph, root: nat, deps: seq<string>, trail: seq<string>, s: Found)
    requires Good(s, names, dependsOn, root, trail)
    requires forall d | d in deps && d in names :: Steps(names, dependsOn, root, trail, d)
    ensures var t := ExploreAll(names, dependsOn, deps, trail, s);
      && Good(t, names, dependsOn, root, trail) && Extends(s, t)
      && forall d | d in deps && d in names :: d in t.ordered || (d in trail && t.cycle.Some?)
    decreases set x | x in names && x !in trail, 1, |deps|
  {
    hide Good, Steps, Explore;
    if deps != [] {
      if deps[0] in names { ExploreKeepsGood(names, dependsOn, root, deps[0], trail, s); }
      var t := if deps[0] in names then Explore(names, dependsOn, deps[0], trail, s) else s;
      ExploreAllKeepsGood(names, dependsOn, root, deps[1..], trail, t);
      forall d | d in deps ensures d == deps[0] || d in deps[1..] { }
    }
  }

  /** A service whose dependencies are all emitted already is simply appended. */
  lemma {:induction false} ReadyIsAppended(names: seq<string>, dependsOn: Graph, deps: seq<string>, trail: seq<string>,
    s: Found)
    requires forall d | d in deps && d in names :: d in s.ordered
    ensures ExploreAll(names, dependsOn, deps, trail, s) == s
    decreases |deps|
  {
    if deps != [] { ReadyIsAppended(names, dependsOn, deps[1..], trail, s); }
  }

  lemma {:induction false} ExploreAllAppend(
    names: seq<string>, dependsOn: Graph, deps: seq<string>, last: string, trail: seq<string>, s: Found)
    requires last in names
    ensures ExploreAll(names, dependsOn, deps + [last], trail, s)
         == Explore(names, dependsOn, last, trail, ExploreAll(names, dependsOn, deps, trail, s))
    decreases |deps|
  {
    hide Explore;
    if deps == [] {
      assert ([] + [last])[1..] == [];
    } else {
      assert (deps + [last])[1..] == deps[1..] + [last];
      var t := if deps[0] in names then Explore(names, dependsOn, deps[0], trail, s) else s;
      ExploreAllAppend(names, dependsOn, deps[1..], last, trail, t);
    }
  }

  // What the order is

  /** A service is placed ahead of one of the first `n` only if that one, or one earlier in the file, needs it. */
  ghost predicate NothingJumpsAhead(names: seq<string>, dependsOn: Graph, order: seq<string>, n: nat) {
    forall k, p, m | 0 <= k < n && k < |names| && 0 <= m <= p < |order| && order[p] == names[k] ::
      NeededBy(names, dependsOn, k, order[m])
  }

  ghost predicate AlreadyOrdered(names: seq<string>, dependsOn: Graph) {
    NoDuplicates(names) && DependenciesFirst(names, dependsOn, names)
  }

  /** The main loop up to its `i`-th service. */
  function Prefix(names: seq<string>, dependsOn: Graph, i: nat): Found
    requires i <= |names|
  {
    ExploreAll(names, dependsOn, names[..i], [], Found([], None))
  }

  lemma NextRootKeepsPlacement(before: Found, after: Found, names: seq<string>, dependsOn: Graph, i: nat)
    requires i < |names| && before.ordered <= after.ordered && Good(after, names, dependsOn, i, [])
    requires NothingJumpsAhead(names, dependsOn, before.ordered, i)
    requires forall k | 0 <= k < i :: names[k] in before.ordered
    ensures NothingJumpsAhead(names, dependsOn, after.ordered, i + 1)
  {
    forall k, p, m | 0 <= k <= i && 0 <= m <= p < |after.ordered| && after.ordered[p] == names[k]
      ensures NeededBy(names, dependsOn, k, after.ordered[m])
    {
      if k < i {
        var q :| 0 <= q < |before.ordered| && before.ordered[q] == names[k];
        assert after.ordered[q] == after.ordered[p];
        assert before.ordered[m] == after.ordered[m];
      } else {
        assert after.ordered[m] in after.ordered;
      }
    }
  }

  lemma NextRoot(s: Found, names: seq<string>, dependsOn: Graph, i: nat)
    requires 0 < i < |names| && Good(s, names, dependsOn, i - 1, [])
    ensures Good(s, names, dependsOn, i, [])
  {
    forall x | x in s.ordered ensures NeededBy(names, dependsOn, i, x) {
      var j :| 0 <= j <= i - 1 && Reaches(names, dependsOn, names[j], x);
    }
  }

  lemma PrefixStep(names: seq<string>, dependsOn: Graph, i: nat)
    requires i < |names|
    ensures Prefix(names, dependsOn, i + 1) == Explore(names, dependsOn, names[i], [], Prefix(names, dependsOn, i))
  {
    assert names[..i + 1] == names[..i] + [names[i]];
    ExploreAllAppend(names, dependsOn, names[..i], names[i], [], Found([], None));
  }

  lemma StartsGood(names: seq<string>, dependsOn: Graph)
    ensures Good(Found([], None), names, dependsOn, 0, []) && NothingJumpsAhead(names, dependsOn, [], 0)
  {
  }

  lemma {:induction false} PrefixIsGood(names: seq<string>, dependsOn: Graph, i: nat)
    requires i <= |names|
    ensures var s := Prefix(names, dependsOn, i);
      && Good(s, names, dependsOn, if i == 0 then 0 else i - 1, [])
      && (forall k | 0 <= k < i :: names[k] in s.ordered)
      && NothingJumpsAhead(names, dependsOn, s.ordered, i)
  {
    hide Good, NothingJumpsAhead, Explore, Walk, NeededBy;
    if i == 0 {
      StartsGood(names, dependsOn);
      assert names[..0] == [];
    } else {
      var before := Prefix(names, dependsOn, i - 1);
      PrefixIsGood(names, dependsOn, i - 1);
      PrefixStep(names, dependsOn, i - 1);
      if i > 1 { NextRoot(before, names, dependsOn, i - 1); }
      NeededItself(names, dependsOn, i - 1);
      ExploreKeepsGood(names, dependsOn, i - 1, names[i - 1], [], before);
      NextRootKeepsPlacement(before, Prefix(names, dependsOn, i), names, dependsOn, i - 1);
    }
  }

  lemma {:induction false} OrderedPrefixStays(names: seq<string>, dependsOn: Graph, i: nat)
    requires AlreadyOrdered(names, dependsOn) && i <= |names|
    ensures Prefix(names, dependsOn, i) == Found(names[..i], None)
  {
    if i == 0 {
      assert names[..0] == [];
    } else {
      OrderedPrefixStays(names, dependsOn, i - 1);
      PrefixStep(names, dependsOn, i - 1);
      var name, s := names[i - 1], Found(names[..i - 1], None);
      assert name !in names[..i - 1];
      forall d | d in Deps(dependsOn, name) && d in names ensures d in s.ordered {
        assert Edge(names, dependsOn, name, d);
      }
      ReadyIsAppended(names, dependsOn, Deps(dependsOn, name), [] + [name], s);
      assert names[..i] == names[..i - 1] + [name];
    }
  }

  /** A list that holds all services, each after its dependencies, and pulls nothing forward without need. */
  ghost predicate SortedWell(names: seq<string>, dependsOn: Graph, order: seq<string>) {
    && NoDuplicates(order) && (forall x :: x in order <==> x in names)
    && (NoDuplicates(names) ==> multiset(order) == multiset(names))
    && DependenciesFirst(names, dependsOn, order) && NothingJumpsAhead(names, dependsOn, order, |names|)
  }

  /**
   * A cycle is reported exactly if there is one, by a real walk that ends in a service it already passed, and then the
   * file order stays; otherwise the order is a permutation with dependencies first. Services already listed after
   * everything they depend on keep their file order.
   */
  lemma OrderIsSorted(names: seq<string>, dependsOn: Graph)
    ensures Search(names, dependsOn).cycle.Some? <==> HasCycle(names, dependsOn)
    ensures Search(names, dependsOn).cycle.Some? ==> Lasso(names, dependsOn, Search(names, dependsOn).cycle.value)
    ensures if HasCycle(names, dependsOn) then Order(names, dependsOn) == names
      else SortedWell(names, dependsOn, Order(names, dependsOn))
    ensures AlreadyOrdered(names, dependsOn) ==> Order(names, dependsOn) == names && CycleIssues(names, dependsOn) == []
  {
    hide HasCycle, Walk, Edge, NeededBy, Explore, ExploreAll, NothingJumpsAhead;
    var s := Search(names, dependsOn);
    assert names[..|names|] == names;
    PrefixIsGood(names, dependsOn, |names|);
    if s.cycle.Some? { LassoIsCycle(names, dependsOn, s.cycle.value); }
    else { OrderRefutesCycle(names, dependsOn, s.ordered); }
    if NoDuplicates(names) { SameElementsPermute(s.ordered, names); }
    if AlreadyOrdered(names, dependsOn) { OrderedPrefixStays(names, dependsOn, |names|); }
  }

  // The search, as the code does it

  datatype Mark = Visiting | Done

  class Sorter {
    const names: seq<string>
    const dependsOn: Graph
    ghost const reported: seq<Issue>     // the issues already there when the sort began
    var ordered: seq<string>
    var state: map<string, Mark>
    var cycleFound: bool
    var issues: seq<Issue>
    ghost var walk: Option<seq<string>>  // what the cycle message shows

    constructor (names: seq<string>, dependsOn: Graph, issues: seq<Issue>)
      ensures this.names == names && this.dependsOn == dependsOn && reported == issues
      ensures Valid([]) && View() == Found([], None)
    {
      this.names, this.dependsOn, this.reported := names, dependsOn, issues;
      ordered, state, cycleFound, this.issues := [], map[], false, issues;
      walk := None;
    }

    ghost function View(): Found reads this { Found(ordered, walk) }

    /**
     * The services marked `visiting` are exactly those on the trail, and those marked `done` exactly the emitted ones.
     */
    ghost predicate Valid(trail: seq<string>) reads this {
      && (forall x :: x in trail <==> x in state && state[x].Visiting?)
      && (forall x :: x in ordered <==> x in state && state[x].Done?)
      && cycleFound == walk.Some? && issues == reported + WalkIssues(walk)
    }

    method Visit(name: string, trail: seq<string>)
      requires Valid(trail) && name in names
      modifies `ordered, `state, `cycleFound, `issues, `walk
      ensures Valid(trail) && View() == Explore(names, dependsOn, name, trail, old(View()))
      decreases set x | x in names && x !in trail, 0
    {
      if name in state && state[name].Done? { return; }
      if name in state && state[name].Visiting? {
        if !cycleFound {
          cycleFound := true;
          walk := Some(trail + [name]);
          issues := issues + [Issue(Lossy, ["services"], Cycle(trail + [name]))];
        }
        return;
      }
      Narrows(names, trail, name);
      state := state[name := Visiting];
      VisitAll(Deps(dependsOn, name), trail + [name]);
      assert name in trail + [name];
      state := state[name := Done];
      ordered := ordered + [name];
      assert forall x :: x in trail + [name] <==> x in trail || x == name;
    }

    /** The loop over one service's dependencies. */
    method VisitAll(deps: seq<string>, trail: seq<string>)
      requires Valid(trail)
      modifies `ordered, `state, `cycleFound, `issues, `walk
      ensures Valid(trail) && View() == ExploreAll(names, dependsOn, deps, trail, old(View()))
      decreases set x | x in names && x !in trail, 1
    {
      hide Explore;
      var i := 0;
      assert deps[0..] == deps;
      while i < |deps|
        invariant 0 <= i <= |deps| && Valid(trail)
        invariant ExploreAll(names, dependsOn, deps, trail, old(View()))
          == ExploreAll(names, dependsOn, deps[i..], trail, View())
      {
        assert deps[i..][1..] == deps[i + 1..];
        if deps[i] in names { Visit(deps[i], trail); }
        i := i + 1;
      }
    }
  }

  /** The sort as its caller sees it. `names` may repeat; the caller passes the distinct keys of an object. */
  method TopologicalOrder(names: seq<string>, dependsOn: Graph, issues: seq<Issue>)
    returns (order: seq<string>, issues': seq<Issue>)
    ensures order == Order(names, dependsOn) && issues' == issues + CycleIssues(names, dependsOn)
  {
    hide Explore;
    var s := new Sorter(names, dependsOn, issues);
    var i := 0;
    assert names[0..] == names;
    while i < |names|
      invariant 0 <= i <= |names| && s.names == names && s.dependsOn == dependsOn && s.reported == issues && s.Valid([])
      invariant Search(names, dependsOn) == ExploreAll(names, dependsOn, names[i..], [], s.View())
    {
      assert names[i..][1..] == names[i + 1..];
      s.Visit(names[i], []);
      i := i + 1;
    }
    order := if s.cycleFound then names else s.ordered;
    issues' := s.issues;
  }
}
