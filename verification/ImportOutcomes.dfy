/** What the entries of an imported list become. */
module ImportOutcomes {
  import opened Sequences
  import opened ImportIssues

  /** One entry: what it is carried over as, if at all, and what is said about it. */
  datatype Outcome<+T> = Outcome(item: Option<T>, issues: seq<Issue>)

  function Kept<T>(outcomes: seq<Outcome<T>>): seq<T> {
    if outcomes == [] then []
    else (if outcomes[0].item.Some? then [outcomes[0].item.value] else []) + Kept(outcomes[1..])
  }

  function Said<T>(outcomes: seq<Outcome<T>>): seq<Issue> {
    if outcomes == [] then [] else outcomes[0].issues + Said(outcomes[1..])
  }

  function Skips(issues: seq<Issue>): nat {
    if issues == [] then 0 else (if issues[0].level.Unsupported? then 1 else 0) + Skips(issues[1..])
  }

  /** An entry is carried over, or it is skipped by exactly one `unsupported` issue. */
  predicate Accounted<T>(outcome: Outcome<T>) { Skips(outcome.issues) == if outcome.item.Some? then 0 else 1 }

  lemma {:induction false} SkipsAppend(a: seq<Issue>, b: seq<Issue>)
    ensures Skips(a + b) == Skips(a) + Skips(b)
  {
    if a == [] {
      assert a + b == b;
    } else {
      assert (a + b)[1..] == a[1..] + b;
      SkipsAppend(a[1..], b);
    }
  }

  lemma SkipsOne(issue: Issue)
    ensures Skips([issue]) == if issue.level.Unsupported? then 1 else 0
  {
    assert [issue][1..] == [];
  }

  /** What is kept and what is reported as skipped add up to what there was. */
  lemma {:induction false} OutcomesConserve<T>(outcomes: seq<Outcome<T>>)
    requires forall i | 0 <= i < |outcomes| :: Accounted(outcomes[i])
    ensures |Kept(outcomes)| + Skips(Said(outcomes)) == |outcomes|
  {
    if outcomes != [] {
      OutcomesConserve(outcomes[1..]);
      SkipsAppend(outcomes[0].issues, Said(outcomes[1..]));
    }
  }

  lemma OutcomesFrom<T>(outcomes: seq<Outcome<T>>, i: nat)
    requires i < |outcomes|
    ensures Kept(outcomes[i..])
      == (if outcomes[i].item.Some? then [outcomes[i].item.value] else []) + Kept(outcomes[i + 1..])
    ensures Said(outcomes[i..]) == outcomes[i].issues + Said(outcomes[i + 1..])
  {
    assert outcomes[i..][1..] == outcomes[i + 1..];
  }

  lemma NothingKept<T>()
    ensures Kept<T>([]) == [] && Said<T>([]) == []
  {
  }

  lemma {:induction false} OutcomesAppend<T>(a: seq<Outcome<T>>, b: seq<Outcome<T>>)
    ensures Kept(a + b) == Kept(a) + Kept(b) && Said(a + b) == Said(a) + Said(b)
  {
    if a == [] {
      assert a + b == b;
    } else {
      assert (a + b)[0] == a[0] && (a + b)[1..] == a[1..] + b;
      OutcomesAppend(a[1..], b);
      var item, issues := if a[0].item.Some? then [a[0].item.value] else [], a[0].issues;
      assert item + (Kept(a[1..]) + Kept(b)) == item + Kept(a[1..]) + Kept(b);
      assert issues + (Said(a[1..]) + Said(b)) == issues + Said(a[1..]) + Said(b);
    }
  }

  lemma SandwichDecides<T>(a: seq<T>, x: seq<T>, y: seq<T>, b: seq<T>)
    ensures a + x + b == a + y + b <==> x == y
  {
    assert forall z :: (a + z + b)[|a|..|a + z + b| - |b|] == z && |a + z + b| == |a| + |z| + |b|;
  }

  /** Neighbours never hide what one entry becomes or what is said about it. */
  lemma EntryDecides<T>(before: seq<Outcome<T>>, x: Outcome<T>, y: Outcome<T>, after: seq<Outcome<T>>)
    ensures (Kept(before + [x] + after) == Kept(before + [y] + after)
             && Said(before + [x] + after) == Said(before + [y] + after))
       <==> x == y
  {
    forall z ensures Kept(before + [z] + after) == Kept(before) + Kept([z]) + Kept(after)
             ensures Said(before + [z] + after) == Said(before) + Said([z]) + Said(after)
    {
      OutcomesAppend(before + [z], after);
      OutcomesAppend(before, [z]);
    }
    SandwichDecides(Kept(before), Kept([x]), Kept([y]), Kept(after));
    SandwichDecides(Said(before), Said([x]), Said([y]), Said(after));
    OutcomeOfOne(x);
    OutcomeOfOne(y);
  }

  lemma OutcomeOfOne<T>(x: Outcome<T>)
    ensures Kept([x]) == (if x.item.Some? then [x.item.value] else []) && Said([x]) == x.issues
  {
    assert [x][1..] == [];
  }
}
