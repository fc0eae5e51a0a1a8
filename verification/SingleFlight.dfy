/**
 * The single-flight OAuth token refresh of the auth proxy, as a state machine.
 *
 * Each goroutine inside `getToken` is a program counter that names the statement it executes next, so every
 * interleaving of single statements is a run of `Step`. The mutex and the channels are part of the state.
 */
module SingleFlight {
  import opened Sequences

  /** What the token endpoint, or the transport to it, may answer. */
  datatype Response =
    | TransportError(reason: string)
    | Answer(status: int, decodes: bool, accessToken: string, expiresIn: int)

  /** Times are in nanoseconds, as the original computes them. */
  const SECOND := 1_000_000_000
  const LEEWAY := 60 * SECOND

  const TWO_63 := 0x8000_0000_0000_0000
  const TWO_64 := 0x1_0000_0000_0000_0000

  /** The value of `x` in 64 bits, wrapped around. */
  function Int64(x: int): int { (x + TWO_63) % TWO_64 - TWO_63 }

  /** The lifetime that is used for the one that the endpoint gives, in seconds. */
  function Lifetime(expiresIn: int): int { if expiresIn <= 0 then 3600 else expiresIn }

  datatype Outcome = Minted(token: string, expiresAt: int) | Failed(error: string)

  function DoRefresh(response: Response, now: int): Outcome {
    match response
    case TransportError(reason) => Failed("token request: " + reason)
    case Answer(status, decodes, accessToken, expiresIn) =>
      if status != 200 then Failed("token endpoint returned an error status")
      else if !decodes || Int64(expiresIn) != expiresIn then Failed("decode token response")
      else if accessToken == "" then Failed("empty access_token in response")
      else Minted(accessToken, now + Int64(Lifetime(expiresIn) * SECOND))
  }

  ghost predicate Legitimate(o: Outcome) { o.Minted? ==> o.token != "" }

  datatype Result = Token(token: string) | RefreshError(error: string) | Cancelled

  function ResultOf(o: Outcome): Result {
    match o
    case Minted(token, _) => Token(token)
    case Failed(error) => RefreshError(error)
  }

  /**
   * How a caller came by its result. A `Waiter` joined refresh number `ch` when `since` refreshes had completed
   * and read the outcome when `seen` had; a `Hit` read the cache at time `time` when `seen` had completed.
   */
  datatype Role = Hit(seen: nat, time: int) | Waiter(ch: nat, since: nat, seen: nat) | Leader(ch: nat)

  datatype Pc =
    | Enter                                             // take the mutex
    | CheckCache                                        // is the cached token usable?
    | UnlockHit(role: Role, result: Result)
    | CheckRefreshing                                   // is a refresh in flight?
    | UnlockJoin(ch: nat, since: nat)
    | Select(ch: nat, since: nat)                       // wait for the channel or the context
    | Relock(ch: nat, since: nat)                       // woken: take the mutex again
    | ReadError(ch: nat, since: nat)
    | ReadToken(ch: nat, since: nat)
    | UnlockWaiter(role: Role, result: Result)          // the deferred unlock
    | MakeChannel
    | UnlockLead(ch: nat)
    | Refresh(ch: nat)                                  // the HTTP exchange, outside the mutex
    | RelockLead(ch: nat, outcome: Outcome)
    | ClearRefreshing(ch: nat, outcome: Outcome)
    | CloseChannel(ch: nat, outcome: Outcome)
    | StoreError(ch: nat, outcome: Outcome)             // the branch on err, and its store
    | StoreToken(ch: nat, outcome: Outcome)
    | StoreExpiry(ch: nat, outcome: Outcome)
    | ClearError(ch: nat, outcome: Outcome)
    | UnlockLeader(role: Role, result: Result)
    | Returned(role: Role, result: Result)
    | GaveUp                                            // the caller's context ended first

  /** `completed` and `leader` are history: the outcomes stored so far, and who is refreshing. */
  datatype State = State(
    mutex: Option<nat>,
    accessTok: string, expiresAt: int,
    refreshing: Option<nat>, refreshErr: Option<string>,
    closed: set<nat>, nextChannel: nat,
    now: int,
    pcs: seq<Pc>,
    completed: seq<Outcome>, leader: Option<nat>)

  function Init(callers: nat, now: int): State {
    State(None, "", 0, None, None, {}, 0, now, seq(callers, _ => Enter), [], None)
  }

  datatype Action =
    | Tick(to: int)
    | Run(g: nat)                            // execute the next statement
    | Respond(g: nat, response: Response)    // the token endpoint answers
    | Cancel(g: nat)                         // the caller's context ends while it waits

  function At(s: State, g: nat, pc: Pc): State
    requires g < |s.pcs|
  {
    s.(pcs := s.pcs[g := pc])
  }

  /** One statement of goroutine `g`; None when it has to wait. */
  function Statement(s: State, g: nat): Option<State>
    requires g < |s.pcs|
  {
    match s.pcs[g]
    case Enter => if s.mutex.None? then Some(At(s.(mutex := Some(g)), g, CheckCache)) else None
    case CheckCache =>
      if s.accessTok != "" && s.expiresAt - s.now > LEEWAY
      then Some(At(s, g, UnlockHit(Hit(|s.completed|, s.now), Token(s.accessTok))))
      else Some(At(s, g, CheckRefreshing))
    case UnlockHit(role, result) => Some(At(s.(mutex := None), g, Returned(role, result)))
    case CheckRefreshing =>
      if s.refreshing.Some? then Some(At(s, g, UnlockJoin(s.refreshing.value, |s.completed|)))
      else Some(At(s, g, MakeChannel))
    case UnlockJoin(ch, since) => Some(At(s.(mutex := None), g, Select(ch, since)))
    case Select(ch, since) => if ch in s.closed then Some(At(s, g, Relock(ch, since))) else None
    case Relock(ch, since) => if s.mutex.None? then Some(At(s.(mutex := Some(g)), g, ReadError(ch, since))) else None
    case ReadError(ch, since) =>
      if s.refreshErr.Some?
      then Some(At(s, g, UnlockWaiter(Waiter(ch, since, |s.completed|), RefreshError(s.refreshErr.value))))
      else Some(At(s, g, ReadToken(ch, since)))
    case ReadToken(ch, since) => Some(At(s, g, UnlockWaiter(Waiter(ch, since, |s.completed|), Token(s.accessTok))))
    case UnlockWaiter(role, result) => Some(At(s.(mutex := None), g, Returned(role, result)))
    case MakeChannel =>
      Some(At(s.(refreshing := Some(s.nextChannel), nextChannel := s.nextChannel + 1, leader := Some(g)),
              g, UnlockLead(s.nextChannel)))
    case UnlockLead(ch) => Some(At(s.(mutex := None), g, Refresh(ch)))
    case Refresh(_) => None
    case RelockLead(ch, o) => if s.mutex.None? then Some(At(s.(mutex := Some(g)), g, ClearRefreshing(ch, o))) else None
    case ClearRefreshing(ch, o) => Some(At(s.(refreshing := None), g, CloseChannel(ch, o)))
    case CloseChannel(ch, o) =>
      Some(At(s.(closed := s.closed + {ch}), g, if o.Failed? then StoreError(ch, o) else StoreToken(ch, o)))
    case StoreError(ch, o) =>
      if o.Failed?
      then Some(At(s.(refreshErr := Some(o.error), completed := s.completed + [o], leader := None),
                   g, UnlockLeader(Leader(ch), RefreshError(o.error))))
      else None
    case StoreToken(ch, o) => if o.Minted? then Some(At(s.(accessTok := o.token), g, StoreExpiry(ch, o))) else None
    case StoreExpiry(ch, o) => if o.Minted? then Some(At(s.(expiresAt := o.expiresAt), g, ClearError(ch, o))) else None
    case ClearError(ch, o) =>
      if o.Minted?
      then Some(At(s.(refreshErr := None, completed := s.completed + [o], leader := None),
                   g, UnlockLeader(Leader(ch), Token(o.token))))
      else None
    case UnlockLeader(role, result) => Some(At(s.(mutex := None), g, Returned(role, result)))
    case Returned(_, _) => None
    case GaveUp => None
  }

  function Step(s: State, a: Action): Option<State> {
    match a
    case Tick(to) => if to >= s.now then Some(s.(now := to)) else None
    case Run(g) => if g < |s.pcs| then Statement(s, g) else None
    case Respond(g, response) =>
      if g < |s.pcs| && s.pcs[g].Refresh?
      then Some(At(s, g, RelockLead(s.pcs[g].ch, DoRefresh(response, s.now)))) else None
    case Cancel(g) => if g < |s.pcs| && s.pcs[g].Select? then Some(At(s, g, GaveUp)) else None
  }

  /** The state after a schedule, None if some action of it was not possible. */
  function Execute(s: State, schedule: seq<Action>): Option<State>
    decreases |schedule|
  {
    if schedule == [] then Some(s)
    else match Step(s, schedule[0])
         case None => None
         case Some(s') => Execute(s', schedule[1..])
  }

  ghost predicate Reachable(s: State) {
    exists callers, now, schedule :: Execute(Init(callers, now), schedule) == Some(s)
  }

  predicate HoldsMutex(pc: Pc) {
    pc.CheckCache? || pc.UnlockHit? || pc.CheckRefreshing? || pc.UnlockJoin? || pc.ReadError? || pc.ReadToken?
    || pc.UnlockWaiter? || pc.MakeChannel? || pc.UnlockLead? || pc.ClearRefreshing? || pc.CloseChannel?
    || pc.StoreError? || pc.StoreToken? || pc.StoreExpiry? || pc.ClearError? || pc.UnlockLeader?
  }

  /** Between making the channel and clearing the field: the refresh is in flight. */
  predicate InFlight(pc: Pc) { pc.UnlockLead? || pc.Refresh? || pc.RelockLead? || pc.ClearRefreshing? }

  /** From making the channel to the last store of the outcome. */
  predicate Leads(pc: Pc) {
    InFlight(pc) || pc.CloseChannel? || pc.StoreError? || pc.StoreToken? || pc.StoreExpiry? || pc.ClearError?
  }

  predicate Finished(pc: Pc) { pc.Returned? || pc.GaveUp? }

  /** The latest success among the completed refreshes. */
  function LastMinted(completed: seq<Outcome>): Option<Outcome> {
    if completed == [] then None
    else if completed[|completed| - 1].Minted? then Some(completed[|completed| - 1])
    else LastMinted(completed[..|completed| - 1])
  }

  function LastError(completed: seq<Outcome>): Option<string> {
    if completed != [] && completed[|completed| - 1].Failed? then Some(completed[|completed| - 1].error) else None
  }

  /** What a returned result says about the refreshes that had completed. */
  ghost predicate Justified(completed: seq<Outcome>, role: Role, result: Result) {
    match role
    case Hit(seen, time) =>
      && seen <= |completed|
      && LastMinted(completed[..seen]).Some?
      && var m := LastMinted(completed[..seen]).value;
         m.Minted? && result == Token(m.token) && m.token != "" && m.expiresAt - time > LEEWAY
    case Waiter(ch, since, seen) =>
      since <= ch < seen <= |completed| && result == ResultOf(completed[seen - 1])
    case Leader(ch) =>
      ch < |completed| && result == ResultOf(completed[ch])
  }

  /** What holds of goroutine `g` while it is at `pc`. */
  ghost predicate PcOk(s: State, g: nat, pc: Pc) {
    && (HoldsMutex(pc) <==> s.mutex == Some(g))
    && (Leads(pc) <==> s.leader == Some(g))
    && match pc
       case UnlockHit(role, result) => Justified(s.completed, role, result)
       case UnlockWaiter(role, result) => Justified(s.completed, role, result)
       case UnlockLeader(role, result) => Justified(s.completed, role, result)
       case Returned(role, result) => Justified(s.completed, role, result)
       case UnlockJoin(ch, since) => Awaited(s, ch, since)
       case Select(ch, since) => Awaited(s, ch, since)
       case Relock(ch, since) => Awaited(s, ch, since) && ch in s.closed
       case ReadError(ch, since) => since <= ch < |s.completed|
       case ReadToken(ch, since) => since <= ch < |s.completed| && s.refreshErr.None?
       case MakeChannel => s.refreshing.None?
       case UnlockLead(ch) => Running(s, ch)
       case Refresh(ch) => Running(s, ch)
       case RelockLead(ch, o) => Running(s, ch) && Legitimate(o)
       case ClearRefreshing(ch, o) => Running(s, ch) && Legitimate(o)
       case CloseChannel(ch, o) => ch == |s.completed| && s.refreshing.None? && ch !in s.closed && Legitimate(o)
       case StoreError(ch, o) => Storing(s, ch, o) && o.Failed?
       case StoreToken(ch, o) => Storing(s, ch, o) && o.Minted?
       case StoreExpiry(ch, o) => Storing(s, ch, o) && o.Minted? && s.accessTok == o.token
       case ClearError(ch, o) => Storing(s, ch, o) && o.Minted? && s.accessTok == o.token && s.expiresAt == o.expiresAt
       case _ => true
  }

  ghost predicate Awaited(s: State, ch: nat, since: nat) {
    since <= ch <= |s.completed| && (ch == |s.completed| ==> s.leader.Some?)
  }

  ghost predicate Running(s: State, ch: nat) {
    ch == |s.completed| && s.refreshing == Some(ch) && ch !in s.closed
  }

  ghost predicate Storing(s: State, ch: nat, o: Outcome) {
    ch == |s.completed| && s.refreshing.None? && ch in s.closed && Legitimate(o)
  }

  ghost predicate CacheOk(s: State) {
    match LastMinted(s.completed)
    case None => s.accessTok == ""
    case Some(m) => m.Minted? && s.accessTok == m.token && s.expiresAt == m.expiresAt
  }

  ghost predicate SharedOk(s: State) {
    && (s.mutex.Some? ==> s.mutex.value < |s.pcs|)
    && (s.leader.Some? ==> s.leader.value < |s.pcs|)
    && (s.refreshing.Some? ==> s.leader.Some? && s.refreshing.value == |s.completed|)
    && s.nextChannel == |s.completed| + (if s.leader.Some? then 1 else 0)
    && (forall c | c in s.closed :: c < |s.completed| || (c == |s.completed| && s.leader.Some?))
    && (forall c: nat | c < |s.completed| :: c in s.closed)
    && s.refreshErr == LastError(s.completed)
    && (forall i | 0 <= i < |s.completed| :: Legitimate(s.completed[i]))
    && (CacheOk(s) || (s.leader.Some? && (s.pcs[s.leader.value].StoreExpiry? || s.pcs[s.leader.value].ClearError?)))
  }

  ghost predicate Inv(s: State) {
    SharedOk(s) && forall g | 0 <= g < |s.pcs| :: PcOk(s, g, s.pcs[g])
  }

  lemma LegitimateRefresh(response: Response, now: int)
    ensures Legitimate(DoRefresh(response, now))
  {
  }

  /**
   * The product of the lifetime and the nanoseconds of a second is taken in 64 bits, so an expiry may lie in the past.
   */
  lemma ExpiryIsFutureIff(response: Response, now: int)
    requires DoRefresh(response, now).Minted?
    ensures DoRefresh(response, now).expiresAt > now <==> 0 < Lifetime(response.expiresIn) * SECOND % TWO_64 < TWO_63
  {
    var x := Lifetime(response.expiresIn) * SECOND;
    WrapsAround(x);
  }

  lemma WrapsAround(x: int)
    ensures Int64(x) == if x % TWO_64 < TWO_63 then x % TWO_64 else x % TWO_64 - TWO_64
  {
    var r := x % TWO_64;
    assert (x + TWO_63) % TWO_64 == if r < TWO_63 then r + TWO_63 else r - TWO_63;
  }

  /** The expiry is the one that was asked for exactly up to a bound of some 292 years, and then it is in the future. */
  lemma ExpiryIsExactIff(response: Response, now: int)
    requires DoRefresh(response, now).Minted?
    ensures DoRefresh(response, now).expiresAt
            == now + (if response.expiresIn <= 0 then 3600 else response.expiresIn) * 1_000_000_000
       <==> response.expiresIn <= 9_223_372_036
    ensures response.expiresIn <= 9_223_372_036 ==> DoRefresh(response, now).expiresAt > now
  {
    WrapsAround(Lifetime(response.expiresIn) * SECOND);
  }

  /** One second more, and the token expires in the past: it is never served from the cache. */
  lemma LongLifetimeIsPast(token: string, now: int)
    requires token != ""
    ensures DoRefresh(Answer(200, true, token, 9_223_372_037), now) == Minted(token, now - 9_223_372_036_709_551_616)
  {
  }

  lemma {:induction false} LastMintedLegitimate(completed: seq<Outcome>)
    requires forall i | 0 <= i < |completed| :: Legitimate(completed[i])
    ensures LastMinted(completed).Some? ==>
      LastMinted(completed).value.Minted? && LastMinted(completed).value.token != ""
  {
    if completed != [] { LastMintedLegitimate(completed[..|completed| - 1]); }
  }

  lemma InitKeepsInv(callers: nat, now: int)
    ensures Inv(Init(callers, now))
  {
  }

  lemma JustifiedGrows(completed: seq<Outcome>, o: Outcome, role: Role, result: Result)
    requires Justified(completed, role, result)
    ensures Justified(completed + [o], role, result)
  {
    if role.Hit? {
      assert (completed + [o])[..role.seen] == completed[..role.seen];
    }
  }

  lemma HitIsJustified(s: State)
    requires SharedOk(s) && CacheOk(s) && s.accessTok != "" && s.expiresAt - s.now > LEEWAY
    ensures Justified(s.completed, Hit(|s.completed|, s.now), Token(s.accessTok))
  {
    assert s.completed[..|s.completed|] == s.completed;
  }

  /** What one statement of `g` may do to the rest of the system. */
  ghost predicate Guarantee(s: State, s': State, g: nat) {
    && |s'.pcs| == |s.pcs| && (forall h | 0 <= h < |s.pcs| && h != g :: s'.pcs[h] == s.pcs[h])
    && (s'.mutex == s.mutex || (s.mutex.None? && s'.mutex == Some(g)) || (s.mutex == Some(g) && s'.mutex.None?))
    && (s.mutex != Some(g) || (s.leader.Some? && s.leader != Some(g)) ==>
        s' == s.(pcs := s'.pcs, mutex := s'.mutex))
    && (s'.leader == s.leader || (s.leader.None? && s'.leader == Some(g)) || (s.leader == Some(g) && s'.leader.None?))
    && ((s'.completed == s.completed && (s.leader.Some? ==> s'.leader.Some?))
        || exists o :: s'.completed == s.completed + [o])
    && s.closed <= s'.closed
  }

  lemma StatementGuarantee(s: State, g: nat, s': State)
    requires Inv(s) && g < |s.pcs| && Statement(s, g) == Some(s')
    ensures Guarantee(s, s', g)
  {
    assert PcOk(s, g, s.pcs[g]);
    if s.leader.Some? { assert PcOk(s, s.leader.value, s.pcs[s.leader.value]); }
  }

  /** A statement of one goroutine never disturbs what is known of another. */
  lemma OthersKeepOk(s: State, s': State, g: nat, h: nat)
    requires SharedOk(s) && Guarantee(s, s', g) && h < |s.pcs| && h != g && g < |s.pcs|
    requires PcOk(s, h, s.pcs[h])
    ensures PcOk(s', h, s'.pcs[h])
  {
    if s'.completed != s.completed {
      var o :| s'.completed == s.completed + [o];
      match s.pcs[h]
      case Returned(role, result) => JustifiedGrows(s.completed, o, role, result);
      case _ =>
    }
  }

  /** The statements that leave the shared fields alone, mutex apart. */
  predicate OnlyLooks(pc: Pc) { !Leads(pc) && !pc.MakeChannel? }

  predicate Reads(pc: Pc) { pc.CheckCache? || pc.ReadError? || pc.ReadToken? }

  predicate Stores(pc: Pc) { pc.StoreError? || pc.StoreToken? || pc.StoreExpiry? || pc.ClearError? }

  lemma LookingOnlyMoves(s: State, g: nat, s': State)
    requires g < |s.pcs| && Statement(s, g) == Some(s') && OnlyLooks(s.pcs[g])
    ensures g < |s'.pcs| && s' == At(s.(mutex := s'.mutex), g, s'.pcs[g]) && !Leads(s'.pcs[g])
    ensures s'.mutex.Some? ==> s'.mutex == s.mutex || s'.mutex == Some(g)
  {
  }

  lemma MovingKeepsShared(s: State, g: nat, m: Option<nat>, pc: Pc)
    requires SharedOk(s) && g < |s.pcs| && s.leader != Some(g) && (m.Some? ==> m == s.mutex || m == Some(g))
    ensures SharedOk(At(s.(mutex := m), g, pc))
  {
  }

  lemma LookingKeepsOk(s: State, g: nat, s': State)
    requires g < |s.pcs| && Inv(s) && Statement(s, g) == Some(s')
    requires OnlyLooks(s.pcs[g]) && !Reads(s.pcs[g])
    ensures PcOk(s', g, s'.pcs[g]) && SharedOk(s')
  {
    assert PcOk(s, g, s.pcs[g]);
    if s.pcs[g].Relock? && s.leader.Some? { assert PcOk(s, s.leader.value, s.pcs[s.leader.value]); }
    LookingOnlyMoves(s, g, s');
    MovingKeepsShared(s, g, s'.mutex, s'.pcs[g]);
  }

  lemma CheckingKeepsOk(s: State, g: nat, s': State)
    requires Inv(s) && g < |s.pcs| && Statement(s, g) == Some(s')
    requires s.pcs[g].CheckCache?
    ensures PcOk(s', g, s'.pcs[g]) && SharedOk(s')
  {
    hide Justified, LastMinted, Legitimate;
    assert PcOk(s, g, s.pcs[g]);
    if s.leader.Some? { assert PcOk(s, s.leader.value, s.pcs[s.leader.value]); }
    if s.leader.Some? { assert !s.pcs[s.leader.value].StoreExpiry? && !s.pcs[s.leader.value].ClearError?; }
    if s'.pcs[g].UnlockHit? { HitIsJustified(s); }
  }

  lemma ReadingKeepsOk(s: State, g: nat, s': State)
    requires Inv(s) && g < |s.pcs| && Statement(s, g) == Some(s')
    requires Reads(s.pcs[g])
    ensures PcOk(s', g, s'.pcs[g]) && SharedOk(s')
  {
    if s.pcs[g].CheckCache? {
      CheckingKeepsOk(s, g, s');
    } else {
      assert PcOk(s, g, s.pcs[g]);
      if s.leader.Some? { assert PcOk(s, s.leader.value, s.pcs[s.leader.value]); }
      if s.leader.Some? { assert !s.pcs[s.leader.value].StoreExpiry? && !s.pcs[s.leader.value].ClearError?; }
      LookingOnlyMoves(s, g, s');
      MovingKeepsShared(s, g, s'.mutex, s'.pcs[g]);
    }
  }

  lemma LeadingKeepsOk(s: State, g: nat, s': State)
    requires Inv(s) && g < |s.pcs| && Statement(s, g) == Some(s')
    requires !OnlyLooks(s.pcs[g]) && !Stores(s.pcs[g])
    ensures PcOk(s', g, s'.pcs[g]) && SharedOk(s')
  {
    LeadingKeepsPc(s, g, s');
    LeadingKeepsShared(s, g, s');
  }

  lemma LeadingKeepsPc(s: State, g: nat, s': State)
    requires Inv(s) && g < |s.pcs| && Statement(s, g) == Some(s')
    requires !OnlyLooks(s.pcs[g]) && !Stores(s.pcs[g])
    ensures |s'.pcs| == |s.pcs| && PcOk(s', g, s'.pcs[g])
  {
    hide Justified, LastMinted, LastError, Legitimate, CacheOk;
    assert PcOk(s, g, s.pcs[g]);
    if s.leader.Some? { assert PcOk(s, s.leader.value, s.pcs[s.leader.value]); }
  }

  lemma LeadingKeepsShared(s: State, g: nat, s': State)
    requires Inv(s) && g < |s.pcs| && Statement(s, g) == Some(s')
    requires !OnlyLooks(s.pcs[g]) && !Stores(s.pcs[g])
    ensures SharedOk(s')
  {
    hide Justified, LastMinted, LastError, Legitimate;
    assert PcOk(s, g, s.pcs[g]);
    if s.leader.Some? { assert PcOk(s, s.leader.value, s.pcs[s.leader.value]); }
  }

  lemma StoringKeepsOk(s: State, g: nat, s': State)
    requires Inv(s) && g < |s.pcs| && Statement(s, g) == Some(s')
    requires Stores(s.pcs[g])
    ensures PcOk(s', g, s'.pcs[g]) && SharedOk(s')
  {
    assert PcOk(s, g, s.pcs[g]);
    if s.leader.Some? { assert PcOk(s, s.leader.value, s.pcs[s.leader.value]); }
  }

  lemma StatementKeepsInv(s: State, g: nat, s': State)
    requires Inv(s) && g < |s.pcs| && Statement(s, g) == Some(s')
    ensures Inv(s')
  {
    hide PcOk, SharedOk, Guarantee, Statement;
    if Reads(s.pcs[g]) {
      ReadingKeepsOk(s, g, s');
    } else if OnlyLooks(s.pcs[g]) {
      LookingKeepsOk(s, g, s');
    } else if Stores(s.pcs[g]) {
      StoringKeepsOk(s, g, s');
    } else {
      LeadingKeepsOk(s, g, s');
    }
    StatementGuarantee(s, g, s');
    GuaranteeKeepsOthers(s, s', g);
    forall h | 0 <= h < |s'.pcs| ensures PcOk(s', h, s'.pcs[h]) {
      if h != g { OthersKeepOk(s, s', g, h); }
    }
  }

  lemma GuaranteeKeepsOthers(s: State, s': State, g: nat)
    requires Guarantee(s, s', g)
    ensures |s'.pcs| == |s.pcs|
  {
  }

  lemma TickKeepsInv(s: State, now: int)
    requires Inv(s)
    ensures Inv(s.(now := now))
  {
    var s' := s.(now := now);
    forall g | 0 <= g < |s'.pcs| ensures PcOk(s', g, s'.pcs[g]) { assert PcOk(s, g, s.pcs[g]); }
  }

  lemma StepKeepsInv(s: State, a: Action, s': State)
    requires Inv(s) && Step(s, a) == Some(s')
    ensures Inv(s')
  {
    hide Statement;
    match a
    case Run(g) => StatementKeepsInv(s, g, s');
    case Tick(to) => TickKeepsInv(s, to);
    case Respond(g, response) =>
      LegitimateRefresh(response, s.now);
      assert PcOk(s, g, s.pcs[g]);
      OutsideMoveKeepsInv(s, g, s'.pcs[g]);
    case Cancel(g) =>
      assert PcOk(s, g, s.pcs[g]);
      OutsideMoveKeepsInv(s, g, GaveUp);
  }

  /** A move that neither holds the mutex nor changes who leads leaves all else as it is. */
  lemma OutsideMoveKeepsInv(s: State, g: nat, pc: Pc)
    requires Inv(s) && g < |s.pcs| && PcOk(At(s, g, pc), g, pc)
    requires !s.pcs[g].StoreExpiry? && !s.pcs[g].ClearError?
    ensures Inv(At(s, g, pc))
  {
    var s' := At(s, g, pc);
    forall h | 0 <= h < |s'.pcs| ensures PcOk(s', h, s'.pcs[h]) { assert PcOk(s, h, s.pcs[h]); }
  }

  lemma {:induction false} ExecuteKeepsInv(s: State, schedule: seq<Action>, s': State)
    requires Inv(s) && Execute(s, schedule) == Some(s')
    ensures Inv(s')
    decreases |schedule|
  {
    if schedule != [] {
      var next := Step(s, schedule[0]).value;
      StepKeepsInv(s, schedule[0], next);
      ExecuteKeepsInv(next, schedule[1..], s');
    }
  }

  lemma ReachableInv(s: State)
    requires Reachable(s)
    ensures Inv(s)
  {
    var callers, now, schedule :| Execute(Init(callers, now), schedule) == Some(s);
    InitKeepsInv(callers, now);
    ExecuteKeepsInv(Init(callers, now), schedule, s);
  }

  // Main results: every interleaving of any number of callers.

  /** One refresh at a time, and the field is set exactly while one leader owns it. */
  lemma SingleRefreshInFlight(s: State, g: nat, h: nat)
    requires Reachable(s) && g < |s.pcs| && h < |s.pcs|
    ensures HoldsMutex(s.pcs[g]) && HoldsMutex(s.pcs[h]) ==> g == h
    ensures InFlight(s.pcs[g]) && InFlight(s.pcs[h]) ==> g == h
    ensures InFlight(s.pcs[g]) ==> s.refreshing == Some(s.pcs[g].ch)
    ensures s.refreshing.Some? ==>
      exists k | 0 <= k < |s.pcs| :: InFlight(s.pcs[k]) && s.refreshing == Some(s.pcs[k].ch)
  {
    ReachableInv(s);
    assert PcOk(s, g, s.pcs[g]) && PcOk(s, h, s.pcs[h]);
    if s.refreshing.Some? {
      var k := s.leader.value;
      assert PcOk(s, k, s.pcs[k]);
      assert InFlight(s.pcs[k]);
    }
  }

  /**
   * A waiter's channel is closed, or is the one in flight, or is about to be closed by the leader that holds the mutex.
   */
  lemma NoWaiterIsStranded(s: State, g: nat)
    requires Reachable(s) && g < |s.pcs| && s.pcs[g].Select?
    ensures s.pcs[g].ch in s.closed || s.refreshing == Some(s.pcs[g].ch)
         || (s.mutex.Some? && s.mutex.value < |s.pcs| && s.pcs[s.mutex.value].CloseChannel?
           && s.pcs[s.mutex.value].ch == s.pcs[g].ch)
  {
    ReachableInv(s);
    assert PcOk(s, g, s.pcs[g]);
    if s.leader.Some? { assert PcOk(s, s.leader.value, s.pcs[s.leader.value]); }
  }

  /**
   * Every returned result reports a refresh that really ended that way: a leader its own, a waiter the latest one
   * completed when it read, which completed after it joined; and no caller is ever given an empty token.
   */
  lemma ResultsAreJustified(s: State, g: nat)
    requires Reachable(s) && g < |s.pcs| && s.pcs[g].Returned?
    ensures Justified(s.completed, s.pcs[g].role, s.pcs[g].result)
    ensures s.pcs[g].result.Token? ==> s.pcs[g].result.token != ""
    ensures s.pcs[g].result.Token? && s.pcs[g].role.Waiter? ==>
      exists i :: s.pcs[g].role.since <= i < |s.completed| && s.completed[i].Minted?
        && s.completed[i].token == s.pcs[g].result.token
    ensures s.pcs[g].role.Waiter? && s.pcs[g].role.seen == s.pcs[g].role.ch + 1 ==>
      s.pcs[g].result == ResultOf(s.completed[s.pcs[g].role.ch])
  {
    ReachableInv(s);
    assert PcOk(s, g, s.pcs[g]);
    match s.pcs[g].role
    case Waiter(ch, since, seen) => assert Legitimate(s.completed[seen - 1]);
    case Leader(ch) => assert Legitimate(s.completed[ch]);
    case Hit(_, _) =>
  }

  /** How many statements a caller still has before it at most. */
  function Rank(pc: Pc): nat {
    match pc
    case Enter => 13
    case CheckCache => 12
    case CheckRefreshing => 11
    case MakeChannel => 10
    case UnlockLead(_) => 9
    case Refresh(_) => 8
    case RelockLead(_, _) => 7
    case ClearRefreshing(_, _) => 6
    case CloseChannel(_, _) => 5
    case StoreToken(_, _) => 4
    case StoreExpiry(_, _) => 3
    case ClearError(_, _) => 2
    case StoreError(_, _) => 2
    case UnlockJoin(_, _) => 6
    case Select(_, _) => 5
    case Relock(_, _) => 4
    case ReadError(_, _) => 3
    case ReadToken(_, _) => 2
    case UnlockHit(_, _) => 1
    case UnlockWaiter(_, _) => 1
    case UnlockLeader(_, _) => 1
    case Returned(_, _) => 0
    case GaveUp => 0
  }

  function TotalRank(pcs: seq<Pc>): nat {
    if pcs == [] then 0 else Rank(pcs[0]) + TotalRank(pcs[1..])
  }

  /** The number of actions other than the passing of time. */
  function Work(schedule: seq<Action>): nat {
    if schedule == [] then 0 else (if schedule[0].Tick? then 0 else 1) + Work(schedule[1..])
  }

  lemma {:induction false} TotalRankUpdate(pcs: seq<Pc>, g: nat, pc: Pc)
    requires g < |pcs|
    ensures TotalRank(pcs[g := pc]) == TotalRank(pcs) - Rank(pcs[g]) + Rank(pc)
  {
    if g == 0 {
      assert pcs[0 := pc][1..] == pcs[1..];
    } else {
      TotalRankUpdate(pcs[1..], g - 1, pc);
      assert pcs[g := pc][1..] == pcs[1..][g - 1 := pc];
    }
  }

  lemma StatementLowersRank(s: State, g: nat)
    requires g < |s.pcs| && Statement(s, g).Some?
    ensures var s' := Statement(s, g).value;
      |s'.pcs| == |s.pcs| && Rank(s'.pcs[g]) < Rank(s.pcs[g]) && s'.pcs == s.pcs[g := s'.pcs[g]]
  {
    hide Statement, Rank;
    StatementMovesOne(s, g);
    StatementLowersOwn(s, g);
  }

  lemma StatementMovesOne(s: State, g: nat)
    requires g < |s.pcs| && Statement(s, g).Some?
    ensures var s' := Statement(s, g).value; |s'.pcs| == |s.pcs| && s'.pcs == s.pcs[g := s'.pcs[g]]
  {
  }

  lemma StatementLowersOwn(s: State, g: nat)
    requires g < |s.pcs| && Statement(s, g).Some?
    ensures var s' := Statement(s, g).value; |s'.pcs| == |s.pcs| && Rank(s'.pcs[g]) < Rank(s.pcs[g])
  {
    hide Statement, Rank;
    if OnlyLooks(s.pcs[g]) { LookingLowersOwn(s, g); } else { LeadingLowersOwn(s, g); }
  }

  lemma LookingLowersOwn(s: State, g: nat)
    requires g < |s.pcs| && Statement(s, g).Some? && OnlyLooks(s.pcs[g])
    ensures var s' := Statement(s, g).value; |s'.pcs| == |s.pcs| && Rank(s'.pcs[g]) < Rank(s.pcs[g])
  {
  }

  lemma LeadingLowersOwn(s: State, g: nat)
    requires g < |s.pcs| && Statement(s, g).Some? && !OnlyLooks(s.pcs[g])
    ensures var s' := Statement(s, g).value; |s'.pcs| == |s.pcs| && Rank(s'.pcs[g]) < Rank(s.pcs[g])
  {
  }

  lemma StepLowersRank(s: State, a: Action)
    requires Step(s, a).Some?
    ensures |Step(s, a).value.pcs| == |s.pcs|
    ensures TotalRank(Step(s, a).value.pcs) + (if a.Tick? then 0 else 1) <= TotalRank(s.pcs)
  {
    hide Statement, TotalRank, DoRefresh;
    match a
    case Tick(_) =>
    case Run(g) =>
      StatementLowersRank(s, g);
      hide Rank;
      TotalRankUpdate(s.pcs, g, Statement(s, g).value.pcs[g]);
    case Respond(g, response) => TotalRankUpdate(s.pcs, g, RelockLead(s.pcs[g].ch, DoRefresh(response, s.now)));
    case Cancel(g) => TotalRankUpdate(s.pcs, g, GaveUp);
  }

  /** No schedule, however unfair, keeps the callers busy for ever. */
  lemma {:induction false} EverySchedulesWorkIsBounded(s: State, schedule: seq<Action>)
    requires Execute(s, schedule).Some?
    ensures Work(schedule) + TotalRank(Execute(s, schedule).value.pcs) <= TotalRank(s.pcs)
    decreases |schedule|
  {
    if schedule != [] {
      StepLowersRank(s, schedule[0]);
      EverySchedulesWorkIsBounded(Step(s, schedule[0]).value, schedule[1..]);
    }
  }

  /** There is no deadlock: while a caller is unfinished, some caller can move or is at the token endpoint. */
  lemma SomeoneCanMove(s: State, g: nat)
    requires Reachable(s) && g < |s.pcs| && !Finished(s.pcs[g])
    ensures exists h | 0 <= h < |s.pcs| :: Statement(s, h).Some? || s.pcs[h].Refresh?
  {
    ReachableInv(s);
    var h := if s.mutex.Some? then s.mutex.value
             else if s.pcs[g].Select? && s.pcs[g].ch !in s.closed then s.leader.value
             else g;
    assert PcOk(s, g, s.pcs[g]) && PcOk(s, h, s.pcs[h]);
    assert Statement(s, h).Some? || s.pcs[h].Refresh?;
  }

  lemma {:induction false} ExecuteThen(s: State, schedule: seq<Action>, a: Action)
    requires Execute(s, schedule).Some?
    ensures Execute(s, schedule + [a]) == Step(Execute(s, schedule).value, a)
    decreases |schedule|
  {
    if schedule == [] {
      assert Execute(s, [a]) == Step(s, a) by { assert [a][1..] == []; }
    } else {
      assert (schedule + [a])[1..] == schedule[1..] + [a];
      ExecuteThen(Step(s, schedule[0]).value, schedule[1..], a);
    }
  }

  lemma StepReaches(s: State, a: Action)
    requires Reachable(s) && Step(s, a).Some?
    ensures Reachable(Step(s, a).value)
  {
    var callers, now, schedule :| Execute(Init(callers, now), schedule) == Some(s);
    ExecuteThen(Init(callers, now), schedule, a);
    assert Execute(Init(callers, now), schedule + [a]) == Some(Step(s, a).value);
  }

  /** From every reachable state the callers can all be run to their end, whatever the token endpoint answers. */
  lemma {:induction false} EveryoneCanFinish(s: State, response: Response) returns (schedule: seq<Action>, s': State)
    requires Reachable(s)
    ensures Execute(s, schedule) == Some(s') && |s'.pcs| == |s.pcs|
    ensures forall g | 0 <= g < |s'.pcs| :: Finished(s'.pcs[g])
    ensures forall a | a in schedule :: a.Run? || (a.Respond? && a.response == response)
    decreases TotalRank(s.pcs)
  {
    hide Statement;
    if g :| 0 <= g < |s.pcs| && !Finished(s.pcs[g]) {
      SomeoneCanMove(s, g);
      var h :| 0 <= h < |s.pcs| && (Statement(s, h).Some? || s.pcs[h].Refresh?);
      var a := if s.pcs[h].Refresh? then Respond(h, response) else Run(h);
      StepReaches(s, a);
      StepLowersRank(s, a);
      schedule, s' := EveryoneCanFinish(Step(s, a).value, response);
      assert ([a] + schedule)[1..] == schedule;
      schedule := [a] + schedule;
    } else {
      schedule, s' := [], s;
    }
  }
}
