/** Where the results of the single-flight refresh come from: every one of them from an answer of the token endpoint. */
module SingleFlightEndpoint {
  import opened Sequences
  import opened SingleFlight

  /** An answer that yields a token: a success that decodes, lifetime included, and carries one. */
  predicate Grants(response: Response, token: string) {
    && response.Answer? && response.status == 200 && response.decodes
    && -0x8000_0000_0000_0000 <= response.expiresIn < 0x8000_0000_0000_0000
    && response.accessToken == token && token != ""
  }

  predicate Denies(response: Response) { response.TransportError? || !Grants(response, response.accessToken) }

  /** A refresh mints a token exactly if the answer grants it. */
  lemma RefreshMintsIff(response: Response, now: int)
    ensures DoRefresh(response, now).Failed? <==> Denies(response)
    ensures forall token :: DoRefresh(response, now).Minted? && DoRefresh(response, now).token == token <==>
      Grants(response, token)
  {
    if response.Answer? { FitsIff(response.expiresIn); }
  }

  lemma FitsIff(x: int)
    ensures Int64(x) == x <==> -0x8000_0000_0000_0000 <= x < 0x8000_0000_0000_0000
  {
  }

  /** Action `a` of a run is the answer behind an outcome. */
  predicate Backs(a: Action, o: Outcome) {
    a.Respond? && match o case Minted(token, _) => Grants(a.response, token) case Failed(_) => Denies(a.response)
  }

  ghost predicate Backed(o: Outcome, run: seq<Action>) { exists i :: 0 <= i < |run| && Backs(run[i], o) }

  /** The outcome that a leader carries. */
  function Carried(pc: Pc): Option<Outcome> {
    match pc
    case RelockLead(_, o) => Some(o)
    case ClearRefreshing(_, o) => Some(o)
    case CloseChannel(_, o) => Some(o)
    case StoreError(_, o) => Some(o)
    case StoreToken(_, o) => Some(o)
    case StoreExpiry(_, o) => Some(o)
    case ClearError(_, o) => Some(o)
    case _ => None
  }

  ghost predicate AllBacked(s: State, run: seq<Action>) {
    && (forall i | 0 <= i < |s.completed| :: Backed(s.completed[i], run))
    && forall g | 0 <= g < |s.pcs| && Carried(s.pcs[g]).Some? :: Backed(Carried(s.pcs[g]).value, run)
  }

  lemma BackedStays(o: Outcome, run: seq<Action>, a: Action)
    requires Backed(o, run)
    ensures Backed(o, run + [a])
  {
    var i :| 0 <= i < |run| && Backs(run[i], o);
    assert (run + [a])[i] == run[i];
  }

  /** A step changes what one caller carries, or completes it. */
  lemma StepCarries(s: State, a: Action, s': State)
    requires Step(s, a) == Some(s')
    ensures |s'.pcs| == |s.pcs|
    ensures a.Tick? ==> s'.pcs == s.pcs
    ensures !a.Tick? ==> a.g < |s.pcs| && s'.pcs == s.pcs[a.g := s'.pcs[a.g]]
    ensures !a.Tick? && !a.Respond? && Carried(s'.pcs[a.g]).Some? ==> Carried(s'.pcs[a.g]) == Carried(s.pcs[a.g])
    ensures a.Respond? ==> Carried(s'.pcs[a.g]) == Some(DoRefresh(a.response, s.now)) && s'.completed == s.completed
    ensures s'.completed == s.completed
      || (!a.Tick? && Carried(s.pcs[a.g]).Some? && s'.completed == s.completed + [Carried(s.pcs[a.g]).value])
  {
  }

  lemma StepKeepsBacked(s: State, a: Action, s': State, run: seq<Action>)
    requires AllBacked(s, run) && Step(s, a) == Some(s')
    ensures AllBacked(s', run + [a])
  {
    hide Step, Backed, Carried;
    StepCarries(s, a, s');
    forall o | Backed(o, run) ensures Backed(o, run + [a]) { BackedStays(o, run, a); }
    if a.Respond? { AnswerBacks(s, a, run); }
  }

  lemma AnswerBacks(s: State, a: Action, run: seq<Action>)
    requires a.Respond?
    ensures Backed(DoRefresh(a.response, s.now), run + [a])
  {
    RefreshMintsIff(a.response, s.now);
    assert Backs((run + [a])[|run|], DoRefresh(a.response, s.now));
  }

  lemma {:induction false} ExecuteKeepsBacked(s: State, schedule: seq<Action>, s': State, run: seq<Action>)
    requires AllBacked(s, run) && Execute(s, schedule) == Some(s')
    ensures AllBacked(s', run + schedule)
    decreases |schedule|
  {
    hide Step;
    if schedule == [] {
      assert run + [] == run;
    } else {
      var next := Step(s, schedule[0]).value;
      StepKeepsBacked(s, schedule[0], next, run);
      ExecuteKeepsBacked(next, schedule[1..], s', run + [schedule[0]]);
      assert run + [schedule[0]] + schedule[1..] == run + schedule;
    }
  }

  /**
   * Whatever the interleaving: a token that a caller gets was granted by an answer of the endpoint during the run, and
   * a caller that gets an error owes it to an answer that granted none.
   */
  lemma ResultsComeFromAnswers(callers: nat, now: int, schedule: seq<Action>, s: State, g: nat)
    requires Execute(Init(callers, now), schedule) == Some(s) && g < |s.pcs| && s.pcs[g].Returned?
    ensures exists i :: 0 <= i < |schedule| && schedule[i].Respond? && match s.pcs[g].result
      case Token(token) => Grants(schedule[i].response, token)
      case RefreshError(_) => Denies(schedule[i].response)
      case Cancelled => false
  {
    hide Execute, Grants, Denies;
    ExecuteKeepsBacked(Init(callers, now), schedule, s, []);
    assert [] + schedule == schedule;
    assert Reachable(s);
    ResultsAreJustified(s, g);
    var k := ResultIsCompleted(s, g);
    var i :| 0 <= i < |schedule| && Backs(schedule[i], s.completed[k]);
  }

  lemma ResultIsCompleted(s: State, g: nat) returns (k: nat)
    requires g < |s.pcs| && s.pcs[g].Returned? && Justified(s.completed, s.pcs[g].role, s.pcs[g].result)
    ensures k < |s.completed| && s.pcs[g].result == ResultOf(s.completed[k])
  {
    match s.pcs[g].role
    case Hit(seen, _) => k := LastMintedIs(s.completed[..seen]);
    case Waiter(_, _, seen) => k := seen - 1;
    case Leader(ch) => k := ch;
  }

  lemma {:induction false} LastMintedIs(completed: seq<Outcome>) returns (k: nat)
    requires LastMinted(completed).Some?
    ensures k < |completed| && Some(completed[k]) == LastMinted(completed)
  {
    k := |completed| - 1;
    if !completed[k].Minted? { k := LastMintedIs(completed[..k]); }
  }
}
