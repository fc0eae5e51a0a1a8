/** What a waiter of the single-flight refresh may be given, and when that is not the outcome of its own refresh. */
module SingleFlightWaiters {
  import opened Sequences
  import opened SingleFlight

  // A waiter need not learn how the refresh it waited for ended: a later refresh can complete before it reads.

  lemma RunReaches(s: State, g: nat, pc: Pc, s': State)
    requires Reachable(s) && g < |s.pcs| && s.pcs[g] == pc && Statement(s, g) == Some(s')
    ensures Reachable(s')
  {
    assert Step(s, Run(g)) == Statement(s, g);
    StepReaches(s, Run(g));
  }

  /** A caller that finds no usable token and no refresh in flight goes on to the token endpoint. */
  lemma CallerLeads(s: State, g: nat)
    requires Reachable(s) && g < |s.pcs| && s.pcs[g] == Enter && s.mutex.None? && s.refreshing.None?
    requires s.accessTok == "" || s.expiresAt - s.now <= LEEWAY
    ensures Reachable(At(s.(refreshing := Some(s.nextChannel), nextChannel := s.nextChannel + 1, leader := Some(g)),
                         g, Refresh(s.nextChannel)))
  {
    hide Reachable;
    var ch := s.nextChannel;
    var s1 := At(s.(mutex := Some(g)), g, CheckCache);
    RunReaches(s, g, Enter, s1);
    var s2 := At(s1, g, CheckRefreshing);
    RunReaches(s1, g, CheckCache, s2);
    var s3 := At(s2, g, MakeChannel);
    RunReaches(s2, g, CheckRefreshing, s3);
    var s4 := At(s3.(refreshing := Some(ch), nextChannel := ch + 1, leader := Some(g)), g, UnlockLead(ch));
    RunReaches(s3, g, MakeChannel, s4);
    RunReaches(s4, g, UnlockLead(ch), At(s4.(mutex := None), g, Refresh(ch)));
    assert At(s4.(mutex := None), g, Refresh(ch)).pcs == s.pcs[g := Refresh(ch)];
  }

  /** A caller that finds a refresh in flight waits for it. */
  lemma CallerJoins(s: State, g: nat)
    requires Reachable(s) && g < |s.pcs| && s.pcs[g] == Enter && s.mutex.None? && s.refreshing.Some?
    requires s.accessTok == "" || s.expiresAt - s.now <= LEEWAY
    ensures Reachable(At(s, g, Select(s.refreshing.value, |s.completed|)))
  {
    hide Reachable;
    var ch, since := s.refreshing.value, |s.completed|;
    var s1 := At(s.(mutex := Some(g)), g, CheckCache);
    RunReaches(s, g, Enter, s1);
    var s2 := At(s1, g, CheckRefreshing);
    RunReaches(s1, g, CheckCache, s2);
    var s3 := At(s2, g, UnlockJoin(ch, since));
    RunReaches(s2, g, CheckRefreshing, s3);
    RunReaches(s3, g, UnlockJoin(ch, since), At(s3.(mutex := None), g, Select(ch, since)));
    assert At(s3.(mutex := None), g, Select(ch, since)).pcs == s.pcs[g := Select(ch, since)];
  }

  /** The state once the leader has clear, close, stores and unlock behind it. */
  ghost function Finish(s: State, g: nat, ch: nat, o: Outcome): State
    requires g < |s.pcs|
  {
    var t := At(s.(refreshing := None, closed := s.closed + {ch}, completed := s.completed + [o], leader := None),
                g, Returned(Leader(ch), ResultOf(o)));
    match o
    case Minted(token, expiresAt) => t.(accessTok := token, expiresAt := expiresAt, refreshErr := None)
    case Failed(error) => t.(refreshErr := Some(error))
  }

  lemma LeaderCloses(s: State, g: nat, ch: nat, o: Outcome) returns (s': State)
    requires Reachable(s) && g < |s.pcs| && s.pcs[g] == RelockLead(ch, o) && s.mutex.None?
    ensures Reachable(s')
    ensures s' == At(s.(mutex := Some(g), refreshing := None, closed := s.closed + {ch}),
                     g, if o.Failed? then StoreError(ch, o) else StoreToken(ch, o))
  {
    hide Reachable;
    var s1 := At(s.(mutex := Some(g)), g, ClearRefreshing(ch, o));
    RunReaches(s, g, RelockLead(ch, o), s1);
    var s2 := At(s1.(refreshing := None), g, CloseChannel(ch, o));
    RunReaches(s1, g, ClearRefreshing(ch, o), s2);
    s' := At(s2.(closed := s.closed + {ch}), g, if o.Failed? then StoreError(ch, o) else StoreToken(ch, o));
    RunReaches(s2, g, CloseChannel(ch, o), s');
    assert s'.pcs == s.pcs[g := s'.pcs[g]];
  }

  lemma LeaderFinishes(s: State, g: nat, response: Response)
    requires Reachable(s) && g < |s.pcs| && s.pcs[g].Refresh? && s.mutex.None?
    ensures Reachable(Finish(s, g, s.pcs[g].ch, DoRefresh(response, s.now)))
  {
    hide Reachable;
    var ch, o := s.pcs[g].ch, DoRefresh(response, s.now);
    StepReaches(s, Respond(g, response));
    hide DoRefresh;
    var s1 := LeaderCloses(At(s, g, RelockLead(ch, o)), g, ch, o);
    var s2 := LeaderStores(s1, g, ch, o);
    var s3 := At(s2.(mutex := None), g, Returned(Leader(ch), ResultOf(o)));
    RunReaches(s2, g, UnlockLeader(Leader(ch), ResultOf(o)), s3);
    assert s3.pcs == s.pcs[g := Returned(Leader(ch), ResultOf(o))];
  }

  lemma LeaderStores(s: State, g: nat, ch: nat, o: Outcome) returns (s': State)
    requires Reachable(s) && g < |s.pcs| && s.pcs[g] == if o.Failed? then StoreError(ch, o) else StoreToken(ch, o)
    ensures Reachable(s')
    ensures var t := At(s.(completed := s.completed + [o], leader := None), g, UnlockLeader(Leader(ch), ResultOf(o)));
      s' == match o
            case Minted(token, expiresAt) => t.(accessTok := token, expiresAt := expiresAt, refreshErr := None)
            case Failed(error) => t.(refreshErr := Some(error))
  {
    hide Reachable;
    match o
    case Failed(error) =>
      s' := At(s.(refreshErr := Some(error), completed := s.completed + [o], leader := None), g,
        UnlockLeader(Leader(ch), RefreshError(error)));
      RunReaches(s, g, StoreError(ch, o), s');
    case Minted(token, expiresAt) =>
      var s1 := At(s.(accessTok := token), g, StoreExpiry(ch, o));
      RunReaches(s, g, StoreToken(ch, o), s1);
      var s2 := At(s1.(expiresAt := expiresAt), g, ClearError(ch, o));
      RunReaches(s1, g, StoreExpiry(ch, o), s2);
      s' := At(s2.(refreshErr := None, completed := s.completed + [o], leader := None), g,
        UnlockLeader(Leader(ch), Token(token)));
      RunReaches(s2, g, ClearError(ch, o), s');
      assert s'.pcs == s.pcs[g := UnlockLeader(Leader(ch), Token(token))];
  }

  /**
   * Caller 0 led refresh 0 and caller 1 joined it; it has succeeded, with a lifetime too short to be served from the
   * cache.
   */
  ghost function FirstSucceeded(): State {
    State(None, "t", LEEWAY, None, None, {0}, 1, 0, [Returned(Leader(0), Token("t")), Select(0, 0), Enter],
      [Minted("t", LEEWAY)], None)
  }

  /** Refresh 1, led by caller 2, has failed. */
  ghost function SecondFailed(): State {
    State(None, "t", LEEWAY, None, Some("token request: down"), {0, 1}, 2, 0,
          [Returned(Leader(0), Token("t")), Select(0, 0), Returned(Leader(1), RefreshError("token request: down"))],
          [Minted("t", LEEWAY), Failed("token request: down")], None)
  }

  lemma InitIsReachable(callers: nat, now: int)
    ensures Reachable(Init(callers, now))
  {
    assert Execute(Init(callers, now), []) == Some(Init(callers, now));
  }

  lemma FirstSucceededIsReachable()
    ensures Reachable(FirstSucceeded())
  {
    hide Reachable;
    InitIsReachable(3, 0);
    var s := Init(3, 0);
    CallerLeads(s, 0);
    s := At(s.(refreshing := Some(0), nextChannel := 1, leader := Some(0)), 0, Refresh(0));
    CallerJoins(s, 1);
    s := At(s, 1, Select(0, 0));
    LeaderFinishes(s, 0, Answer(200, true, "t", 60));
    assert Finish(s, 0, 0, Minted("t", LEEWAY)) == FirstSucceeded();
  }

  lemma SecondFailedIsReachable()
    ensures Reachable(SecondFailed())
  {
    hide Reachable;
    FirstSucceededIsReachable();
    var s := FirstSucceeded();
    CallerLeads(s, 2);
    s := At(s.(refreshing := Some(1), nextChannel := 2, leader := Some(2)), 2, Refresh(1));
    LeaderFinishes(s, 2, TransportError("down"));
    assert "token request: " + "down" == "token request: down" && {0} + {1} == {0, 1};
    assert Finish(s, 2, 1, Failed("token request: down")) == SecondFailed();
  }

  /** A run in which a waiter fails although the refresh it waited for minted a token. */
  lemma WaiterCanMissItsOwnRefresh() returns (s: State)
    ensures Reachable(s) && |s.pcs| == 3
    ensures s.pcs[1] == Returned(Waiter(0, 0, 2), RefreshError("token request: down"))
    ensures |s.completed| == 2 && s.completed[0] == Minted("t", LEEWAY)
  {
    SecondFailedIsReachable();
    s := SecondFailed();
    var s1 := At(s, 1, Relock(0, 0));
    RunReaches(s, 1, Select(0, 0), s1);
    var s2 := At(s1.(mutex := Some(1)), 1, ReadError(0, 0));
    RunReaches(s1, 1, Relock(0, 0), s2);
    var failure := RefreshError("token request: down");
    var s3 := At(s2, 1, UnlockWaiter(Waiter(0, 0, 2), failure));
    RunReaches(s2, 1, ReadError(0, 0), s3);
    s := At(s3.(mutex := None), 1, Returned(Waiter(0, 0, 2), failure));
    RunReaches(s3, 1, UnlockWaiter(Waiter(0, 0, 2), failure), s);
  }

  /** A refresh that failed, and then one, led by caller 2, that succeeded. */
  ghost function FirstFailed(): State {
    State(None, "", 0, None, Some("token request: down"), {0}, 1, 0,
          [Returned(Leader(0), RefreshError("token request: down")), Select(0, 0), Enter],
            [Failed("token request: down")], None)
  }

  ghost function SecondSucceeded(): State {
    State(None, "t", 3600 * SECOND, None, None, {0, 1}, 2, 0,
          [Returned(Leader(0), RefreshError("token request: down")), Select(0, 0), Returned(Leader(1), Token("t"))],
          [Failed("token request: down"), Minted("t", 3600 * SECOND)], None)
  }

  lemma FirstFailedIsReachable()
    ensures Reachable(FirstFailed())
  {
    hide Reachable;
    InitIsReachable(3, 0);
    var s := Init(3, 0);
    CallerLeads(s, 0);
    s := At(s.(refreshing := Some(0), nextChannel := 1, leader := Some(0)), 0, Refresh(0));
    CallerJoins(s, 1);
    s := At(s, 1, Select(0, 0));
    LeaderFinishes(s, 0, TransportError("down"));
    assert "token request: " + "down" == "token request: down";
    assert Finish(s, 0, 0, Failed("token request: down")) == FirstFailed();
  }

  lemma SecondSucceededIsReachable()
    ensures Reachable(SecondSucceeded())
  {
    hide Reachable;
    FirstFailedIsReachable();
    var s := FirstFailed();
    CallerLeads(s, 2);
    s := At(s.(refreshing := Some(1), nextChannel := 2, leader := Some(2)), 2, Refresh(1));
    LeaderFinishes(s, 2, Answer(200, true, "t", 3600));
    assert {0} + {1} == {0, 1};
    assert Finish(s, 2, 1, Minted("t", 3600 * SECOND)) == SecondSucceeded();
  }

  /** A run in which a waiter gets a token although the refresh it waited for failed. */
  lemma WaiterCanMissAFailure() returns (s: State)
    ensures Reachable(s) && |s.pcs| == 3
    ensures s.pcs[1] == Returned(Waiter(0, 0, 2), Token("t"))
    ensures |s.completed| == 2 && s.completed[0] == Failed("token request: down")
  {
    SecondSucceededIsReachable();
    s := SecondSucceeded();
    var s1 := At(s, 1, Relock(0, 0));
    RunReaches(s, 1, Select(0, 0), s1);
    var s2 := At(s1.(mutex := Some(1)), 1, ReadError(0, 0));
    RunReaches(s1, 1, Relock(0, 0), s2);
    var s3 := At(s2, 1, ReadToken(0, 0));
    RunReaches(s2, 1, ReadError(0, 0), s3);
    var s4 := At(s3, 1, UnlockWaiter(Waiter(0, 0, 2), Token("t")));
    RunReaches(s3, 1, ReadToken(0, 0), s4);
    s := At(s4.(mutex := None), 1, Returned(Waiter(0, 0, 2), Token("t")));
    RunReaches(s4, 1, UnlockWaiter(Waiter(0, 0, 2), Token("t")), s);
  }

  // When that can happen

  /** The outcome would not be served from the cache, or not any more. */
  ghost predicate Stale(o: Outcome, now: int) { o.Minted? ==> o.expiresAt - now <= LEEWAY }

  predicate FoundStale(pc: Pc) { pc.CheckRefreshing? || pc.MakeChannel? }

  /** No refresh begins while the outcome of the one before it would still be served. */
  ghost predicate Superseded(s: State) {
    && (forall i | 0 <= i < |s.completed| - 1 :: Stale(s.completed[i], s.now))
    && (s.leader.Some? && s.completed != [] ==> Stale(s.completed[|s.completed| - 1], s.now))
    && (forall g | 0 <= g < |s.pcs| && FoundStale(s.pcs[g]) :: s.accessTok == "" || s.expiresAt - s.now <= LEEWAY)
  }

  lemma BeginsWhenStale(s: State, g: nat)
    requires Inv(s) && Superseded(s) && g < |s.pcs| && s.pcs[g].MakeChannel?
    ensures s.completed != [] ==> Stale(s.completed[|s.completed| - 1], s.now)
  {
    assert PcOk(s, g, s.pcs[g]) && FoundStale(s.pcs[g]);
    if s.leader.Some? { assert PcOk(s, s.leader.value, s.pcs[s.leader.value]); }
    if s.completed != [] { assert Legitimate(s.completed[|s.completed| - 1]); }
  }

  /** Only the holder of the mutex touches the cache, and whoever looked at it holds the mutex. */
  lemma LookersKeepCache(s: State, g: nat, s': State, h: nat)
    requires Inv(s) && g < |s.pcs| && h < |s.pcs| && Statement(s, g) == Some(s') && h != g && FoundStale(s.pcs[h])
    ensures s'.accessTok == s.accessTok && s'.expiresAt == s.expiresAt && s'.now == s.now && s'.pcs[h] == s.pcs[h]
  {
    assert PcOk(s, g, s.pcs[g]) && PcOk(s, h, s.pcs[h]);
  }

  lemma LooksFrom(s: State, g: nat, s': State)
    requires g < |s.pcs| && Statement(s, g) == Some(s') && g < |s'.pcs| && FoundStale(s'.pcs[g])
    ensures s.pcs[g].CheckCache? || s.pcs[g].CheckRefreshing?
  {
  }

  lemma CacheWasStale(s: State, g: nat, s': State)
    requires g < |s.pcs| && s.pcs[g].CheckCache? && Statement(s, g) == Some(s') && g < |s'.pcs| && FoundStale(s'.pcs[g])
    ensures s.accessTok == "" || s.expiresAt - s.now <= LEEWAY
  {
  }

  lemma LookerFoundStale(s: State, g: nat, s': State)
    requires Superseded(s) && g < |s.pcs| && Statement(s, g) == Some(s') && g < |s'.pcs| && FoundStale(s'.pcs[g])
    ensures s'.accessTok == "" || s'.expiresAt - s'.now <= LEEWAY
  {
    hide Stale, Statement;
    LooksFrom(s, g, s');
    LookingOnlyMoves(s, g, s');
    if s.pcs[g].CheckCache? { CacheWasStale(s, g, s'); } else { assert FoundStale(s.pcs[g]); }
  }

  lemma OtherLookers(s: State, g: nat, s': State, h: nat)
    requires g < |s.pcs| && Statement(s, g) == Some(s')
    ensures |s'.pcs| == |s.pcs| && (h < |s.pcs| && h != g ==> s'.pcs[h] == s.pcs[h])
  {
  }

  lemma StatementKeepsLookers(s: State, g: nat, s': State)
    requires Inv(s) && Superseded(s) && g < |s.pcs| && Statement(s, g) == Some(s')
    ensures forall h | 0 <= h < |s'.pcs| && FoundStale(s'.pcs[h]) ::
      s'.accessTok == "" || s'.expiresAt - s'.now <= LEEWAY
  {
    hide Statement, SharedOk, Inv, Stale;
    forall h | 0 <= h < |s'.pcs| && FoundStale(s'.pcs[h])
      ensures s'.accessTok == "" || s'.expiresAt - s'.now <= LEEWAY
    {
      OtherLookers(s, g, s', h);
      if h == g { LookerFoundStale(s, g, s'); } else { LookersKeepCache(s, g, s', h); }
    }
  }

  lemma StatementKeepsHistory(s: State, g: nat, s': State)
    requires Inv(s) && Superseded(s) && g < |s.pcs| && Statement(s, g) == Some(s')
    ensures forall i | 0 <= i < |s'.completed| - 1 :: Stale(s'.completed[i], s'.now)
    ensures s'.leader.Some? && s'.completed != [] ==> Stale(s'.completed[|s'.completed| - 1], s'.now)
  {
    hide Stale, SharedOk;
    assert PcOk(s, g, s.pcs[g]);
    if s.pcs[g].MakeChannel? { BeginsWhenStale(s, g); }
  }

  lemma StepKeepsSuperseded(s: State, a: Action, s': State)
    requires Inv(s) && Superseded(s) && Step(s, a) == Some(s')
    ensures Superseded(s')
  {
    hide Statement, Inv;
    match a
    case Run(g) =>
      StatementKeepsLookers(s, g, s');
      StatementKeepsHistory(s, g, s');
    case Tick(_) =>
    case Respond(g, _) =>
      forall h | 0 <= h < |s'.pcs| && FoundStale(s'.pcs[h]) ensures FoundStale(s.pcs[h]) { }
    case Cancel(g) =>
      forall h | 0 <= h < |s'.pcs| && FoundStale(s'.pcs[h]) ensures FoundStale(s.pcs[h]) { }
  }

  lemma {:induction false} ExecuteKeepsSuperseded(s: State, schedule: seq<Action>, s': State)
    requires Inv(s) && Superseded(s) && Execute(s, schedule) == Some(s')
    ensures Superseded(s')
    decreases |schedule|
  {
    hide Inv, Superseded;
    if schedule != [] {
      var next := Step(s, schedule[0]).value;
      StepKeepsInv(s, schedule[0], next);
      StepKeepsSuperseded(s, schedule[0], next);
      ExecuteKeepsSuperseded(next, schedule[1..], s');
    }
  }

  lemma ReachableSuperseded(s: State)
    requires Reachable(s)
    ensures Superseded(s)
  {
    var callers, now, schedule :| Execute(Init(callers, now), schedule) == Some(s);
    InitKeepsInv(callers, now);
    ExecuteKeepsSuperseded(Init(callers, now), schedule, s);
  }

  /**
   * A waiter that comes to read while the token of its own refresh is still good for more than a minute finds exactly
   * that token, and no error.
   */
  lemma WaiterReadsItsOwn(s: State, g: nat)
    requires Reachable(s) && g < |s.pcs| && s.pcs[g].ReadError?
    requires s.pcs[g].ch < |s.completed| ==> !Stale(s.completed[s.pcs[g].ch], s.now)
    ensures var ch := s.pcs[g].ch;
      |s.completed| == ch + 1 && s.refreshErr.None? && s.completed[ch].Minted? && s.accessTok == s.completed[ch].token
  {
    ReachableInv(s);
    ReachableSuperseded(s);
    assert PcOk(s, g, s.pcs[g]);
  }

  /**
   * So a waiter misses the outcome of its own refresh only if that refresh failed, or its token had at most a minute
   * left. Both can happen: `WaiterCanMissAFailure` and `WaiterCanMissItsOwnRefresh`.
   */
  lemma WaiterMissesOnlyStale(s: State, g: nat)
    requires Reachable(s) && g < |s.pcs| && s.pcs[g].Returned? && s.pcs[g].role.Waiter?
    ensures s.pcs[g].role.ch < |s.completed|
    ensures s.pcs[g].result != ResultOf(s.completed[s.pcs[g].role.ch]) ==> Stale(s.completed[s.pcs[g].role.ch], s.now)
  {
    ReachableSuperseded(s);
    ResultsAreJustified(s, g);
  }
}
