/** The sidecar's bounded store of agent turns, each with its own message queue. */
module AgentTurns {
  import opened Sequences
  import opened MessageQueue

  const MAX_TURNS := 20
  const MAX_CONCURRENT := 5

  datatype Status = Running | Completed | Failed | Cancelled | TimedOut

  datatype Message = Message(content: string, sessionId: string)

  datatype Turn = Turn(
    id: string, status: Status, sessionId: Option<string>,
    createdAt: int, completedAt: Option<int>, durationMs: Option<int>, errorMessage: Option<string>,
    queue: Queue<Message>)

  /** The turns in the order of their creation. */
  datatype Store = Store(turns: seq<Turn>, totalProcessed: nat)

  function NewTurn(id: string, message: string, sessionId: Option<string>, now: int): Turn {
    Turn(id, Running, sessionId, now, None, None, None, Empty<Message>().Push(Message(message, "")))
  }

  function Finish(t: Turn, status: Status, now: int): Turn {
    t.(status := status, completedAt := Some(now), durationMs := Some(now - t.createdAt), queue := t.queue.Close())
  }

  function Lookup(turns: seq<Turn>, id: string): Option<Turn> {
    if turns == [] then None else if turns[0].id == id then Some(turns[0]) else Lookup(turns[1..], id)
  }

  /** `t` in the place of the turn with its id. */
  function Update(turns: seq<Turn>, t: Turn): seq<Turn> {
    if turns == [] then [] else [if turns[0].id == t.id then t else turns[0]] + Update(turns[1..], t)
  }

  function Drop(turns: seq<Turn>, id: string): seq<Turn> {
    if turns == [] then [] else if turns[0].id == id then turns[1..] else [turns[0]] + Drop(turns[1..], id)
  }

  /** Removes terminal turns from the front until `n` are gone. */
  function EvictFirst(turns: seq<Turn>, n: nat): seq<Turn> {
    if turns == [] || n == 0 then turns
    else if turns[0].status.Running? then [turns[0]] + EvictFirst(turns[1..], n)
    else EvictFirst(turns[1..], n - 1)
  }

  function Evict(turns: seq<Turn>): seq<Turn> {
    if |turns| <= MAX_TURNS then turns else EvictFirst(turns, |turns| - MAX_TURNS)
  }

  function ActiveTurns(turns: seq<Turn>): seq<Turn> {
    if turns == [] then [] else (if turns[0].status.Running? then [turns[0]] else []) + ActiveTurns(turns[1..])
  }

  function TerminalTurns(turns: seq<Turn>): seq<Turn> {
    if turns == [] then [] else (if turns[0].status.Running? then [] else [turns[0]]) + TerminalTurns(turns[1..])
  }

  predicate CanAccept(s: Store) { |ActiveTurns(s.turns)| < MAX_CONCURRENT }

  datatype Op =
    | Create(id: string, message: string, sessionId: Option<string>, now: int)
    | Transition(id: string, status: Status, now: int)
    | Fail(id: string, error: string, now: int)
    | PushMessage(id: string, text: string)
    | Consume(id: string)                          // the runner calls `next()` on the turn's queue
    | SetSession(id: string, session: string)      // the runner learns which session the turn belongs to
    | Delete(id: string, now: int)
    | Remove(id: string)

  /** New ids are fresh, and the transition methods all lead to a terminal status. */
  predicate Possible(s: Store, op: Op) {
    match op
    case Create(id, _, _, _) => Lookup(s.turns, id).None?
    case Transition(_, status, _) => !status.Running?
    case _ => true
  }

  /** What an operation does to the turn that it names. */
  function OnTurn(t: Turn, op: Op): Turn {
    match op
    case Transition(_, status, now) => if t.status.Running? then Finish(t, status, now) else t
    case Fail(_, error, now) =>
      if t.status.Running? then Finish(t, Failed, now).(errorMessage := Some(error)) else t
    case PushMessage(_, text) =>
      if t.status.Running? then t.(queue := t.queue.Push(Message(text, SessionOf(t)))) else t
    case Consume(_) => t.(queue := t.queue.Next())
    case SetSession(_, session) => t.(sessionId := Some(session))
    case Delete(_, now) =>
      if t.status.Running? then Finish(t, Cancelled, now) else t.(queue := t.queue.Close())
    case _ => t
  }

  function Apply(s: Store, op: Op): Store {
    match op
    case Create(id, message, sessionId, now) =>
      Store(Evict(s.turns + [NewTurn(id, message, sessionId, now)]), s.totalProcessed + 1)
    case Remove(id) => s.(turns := Drop(s.turns, id))
    case _ =>
      match Lookup(s.turns, op.id)
      case None => s
      case Some(t) => s.(turns := Update(s.turns, OnTurn(t, op)))
  }

  function SessionOf(t: Turn): string { match t.sessionId case Some(id) => id case None => "" }

  // Eviction

  /** There is a point before which eviction keeps the active turns only and after which it keeps everything. */
  lemma {:induction false} EvictionCutsAtOnePoint(turns: seq<Turn>, n: nat) returns (cut: nat)
    ensures cut <= |turns|
    ensures EvictFirst(turns, n) == ActiveTurns(turns[..cut]) + turns[cut..]
    ensures |TerminalTurns(turns[..cut])| == if n < |TerminalTurns(turns)| then n else |TerminalTurns(turns)|
  {
    if turns == [] || n == 0 {
      cut := 0;
    } else {
      var rest := turns[1..];
      cut := EvictionCutsAtOnePoint(rest, if turns[0].status.Running? then n else n - 1);
      assert turns[..cut + 1][1..] == rest[..cut] && turns[cut + 1..] == rest[cut..];
      cut := cut + 1;
    }
  }

  lemma ActiveFirst(turns: seq<Turn>)
    ensures turns == [] ==> ActiveTurns(turns) == [] && TerminalTurns(turns) == []
    ensures turns != [] && turns[0].status.Running? ==>
      ActiveTurns(turns) == [turns[0]] + ActiveTurns(turns[1..]) && TerminalTurns(turns) == TerminalTurns(turns[1..])
    ensures turns != [] && !turns[0].status.Running? ==>
      ActiveTurns(turns) == ActiveTurns(turns[1..]) && TerminalTurns(turns) == [turns[0]] + TerminalTurns(turns[1..])
  {
  }

  /** Eviction never touches an active turn and takes the oldest terminal ones, as many as are wanted and there are. */
  lemma {:induction false} EvictionSpares(turns: seq<Turn>, n: nat)
    ensures var kept, terminal := EvictFirst(turns, n), TerminalTurns(turns);
      var gone := if n < |terminal| then n else |terminal|;
      && ActiveTurns(kept) == ActiveTurns(turns)
      && TerminalTurns(kept) == terminal[gone..]
      && |kept| == |turns| - gone
  {
    hide ActiveTurns, TerminalTurns;
    ActiveFirst(turns);
    if turns != [] && n > 0 {
      var kept := EvictFirst(turns, n);
      EvictionSpares(turns[1..], if turns[0].status.Running? then n else n - 1);
      if turns[0].status.Running? {
        assert kept[1..] == EvictFirst(turns[1..], n);
        ActiveFirst(kept);
      }
    }
  }

  // Runs

  ghost predicate TurnOk(t: Turn) {
    && t.queue.Valid()
    && (t.status.Running? <==> !t.queue.closed)
    && (t.status.Running? <==> t.completedAt.None?)
    && (t.durationMs == match t.completedAt { case None => None case Some(at) => Some(at - t.createdAt) })
    && (t.errorMessage.Some? ==> t.status.Failed?)
  }

  ghost predicate StoreOk(s: Store) {
    && (forall i | 0 <= i < |s.turns| :: TurnOk(s.turns[i]))
    && (forall i, j | 0 <= i < j < |s.turns| :: s.turns[i].id != s.turns[j].id)
  }

  ghost predicate Execution(states: seq<Store>, ops: seq<Op>) {
    && |states| == |ops| + 1 && states[0] == Store([], 0)
    && forall i | 0 <= i < |ops| :: Possible(states[i], ops[i]) && states[i + 1] == Apply(states[i], ops[i])
  }

  /** The server asks `canAcceptTurn` before each creation. */
  ghost predicate Gated(states: seq<Store>, ops: seq<Op>)
    requires |states| == |ops| + 1
  {
    forall i | 0 <= i < |ops| && ops[i].Create? :: CanAccept(states[i])
  }

  lemma {:induction false} LookupFinds(turns: seq<Turn>, id: string)
    ensures Lookup(turns, id).Some? ==> Lookup(turns, id).value in turns && Lookup(turns, id).value.id == id
    ensures Lookup(turns, id).None? ==> forall i | 0 <= i < |turns| :: turns[i].id != id
  {
    if turns != [] { LookupFinds(turns[1..], id); }
  }

  lemma {:induction false} UpdateAt(turns: seq<Turn>, t: Turn)
    ensures |Update(turns, t)| == |turns|
    ensures forall i | 0 <= i < |turns| :: Update(turns, t)[i] == if turns[i].id == t.id then t else turns[i]
  {
    if turns != [] { UpdateAt(turns[1..], t); }
  }

  lemma {:induction false} DropAt(turns: seq<Turn>, id: string, k: nat)
    requires k < |turns| && turns[k].id == id && forall i | 0 <= i < k :: turns[i].id != id
    ensures Drop(turns, id) == turns[..k] + turns[k + 1..]
  {
    if k > 0 {
      var rest := turns[1..];
      assert forall i | 0 <= i < k - 1 :: rest[i] == turns[i + 1];
      DropAt(rest, id, k - 1);
      assert turns[..k] == [turns[0]] + rest[..k - 1] && turns[k + 1..] == rest[k..];
    }
  }

  lemma {:induction false} DropMissing(turns: seq<Turn>, id: string)
    requires forall i | 0 <= i < |turns| :: turns[i].id != id
    ensures Drop(turns, id) == turns
  {
    if turns != [] { DropMissing(turns[1..], id); }
  }

  /** What the eviction walk will end with, `kept` entries into the map. */
  ghost function Evicting(turns: seq<Turn>, kept: nat): seq<Turn>
    requires kept <= |turns| && |turns| >= MAX_TURNS
  {
    turns[..kept] + EvictFirst(turns[kept..], |turns| - MAX_TURNS)
  }

  lemma EvictionBegins(turns: seq<Turn>)
    requires |turns| > MAX_TURNS
    ensures Evicting(turns, 0) == Evict(turns)
  {
    assert turns[0..] == turns;
  }

  /** One step of the walk: an active turn is passed, a terminal one goes. */
  lemma EvictionStep(turns: seq<Turn>, kept: nat)
    requires kept < |turns| && |turns| > MAX_TURNS
    ensures turns[kept].status.Running? ==> Evicting(turns, kept) == Evicting(turns, kept + 1)
    ensures !turns[kept].status.Running? ==>
      Evicting(turns, kept) == Evicting(turns[..kept] + turns[kept + 1..], kept)
  {
    assert turns[kept..] == [turns[kept]] + turns[kept + 1..] && turns[..kept + 1] == turns[..kept] + [turns[kept]];
    var less := turns[..kept] + turns[kept + 1..];
    assert less[..kept] == turns[..kept] && less[kept..] == turns[kept + 1..];
  }

  lemma EvictionEnds(turns: seq<Turn>, kept: nat)
    requires kept <= |turns| && |turns| >= MAX_TURNS && (|turns| == MAX_TURNS || kept == |turns|)
    ensures Evicting(turns, kept) == turns
  {
    assert turns[..kept] + turns[kept..] == turns;
  }

  lemma {:induction false} UpdateTwice(turns: seq<Turn>, t: Turn, u: Turn)
    requires t.id == u.id
    ensures Update(Update(turns, t), u) == Update(turns, u)
  {
    if turns != [] { UpdateTwice(turns[1..], t, u); }
  }

  /** `part` consists of entries of `whole`, in order. */
  ghost predicate Subsequence(part: seq<Turn>, whole: seq<Turn>) {
    if part == [] then true
    else whole != [] && ((part[0] == whole[0] && Subsequence(part[1..], whole[1..])) || Subsequence(part, whole[1..]))
  }

  lemma {:induction false} SubsequenceKeepsOk(part: seq<Turn>, whole: seq<Turn>)
    requires Subsequence(part, whole)
    requires forall i | 0 <= i < |whole| :: TurnOk(whole[i])
    requires forall i, j | 0 <= i < j < |whole| :: whole[i].id != whole[j].id
    ensures forall i | 0 <= i < |part| :: TurnOk(part[i]) && part[i] in whole
    ensures forall i, j | 0 <= i < j < |part| :: part[i].id != part[j].id
    decreases |whole|
  {
    hide TurnOk;
    if part != [] {
      var rest := whole[1..];
      forall i | 0 <= i < |rest| ensures rest[i] == whole[i + 1] { }
      if part[0] == whole[0] && Subsequence(part[1..], rest) {
        SubsequenceKeepsOk(part[1..], rest);
        forall i | 0 < i < |part| ensures part[i] == part[1..][i - 1] && part[i] in rest { }
      } else {
        SubsequenceKeepsOk(part, rest);
      }
    }
  }

  lemma {:induction false} SubsequenceReflexive(turns: seq<Turn>)
    ensures Subsequence(turns, turns)
  {
    if turns != [] { SubsequenceReflexive(turns[1..]); }
  }

  lemma {:induction false} EvictFirstSubsequence(turns: seq<Turn>, n: nat)
    ensures Subsequence(EvictFirst(turns, n), turns)
  {
    if turns == [] || n == 0 {
      SubsequenceReflexive(turns);
    } else {
      EvictFirstSubsequence(turns[1..], if turns[0].status.Running? then n else n - 1);
    }
  }

  lemma {:induction false} DropSubsequence(turns: seq<Turn>, id: string)
    ensures Subsequence(Drop(turns, id), turns)
  {
    if turns != [] {
      if turns[0].id == id { SubsequenceReflexive(turns[1..]); } else { DropSubsequence(turns[1..], id); }
    }
  }

  /** Everything but the queue and the session is the same. */
  predicate SameRecord(t: Turn, u: Turn) { t.(queue := u.queue, sessionId := u.sessionId) == u }

  lemma OnTurnKeepsOk(t: Turn, op: Op)
    requires TurnOk(t) && (op.Transition? ==> !op.status.Running?)
    ensures TurnOk(OnTurn(t, op)) && OnTurn(t, op).id == t.id
    ensures !t.status.Running? ==>
      SameRecord(OnTurn(t, op), t) && (OnTurn(t, op).sessionId == t.sessionId || op.SetSession?)
  {
    PerformKeepsValid(t.queue, CloseOp);
    PerformKeepsValid(t.queue, NextOp);
    match op
    case PushMessage(_, text) => PerformKeepsValid(t.queue, PushOp(Message(text, SessionOf(t))));
    case _ =>
  }

  lemma NewTurnIsOk(id: string, message: string, sessionId: Option<string>, now: int)
    ensures TurnOk(NewTurn(id, message, sessionId, now)) && NewTurn(id, message, sessionId, now).id == id
  {
  }

  lemma CreateKeepsOk(s: Store, op: Op)
    requires StoreOk(s) && op.Create? && Possible(s, op)
    ensures StoreOk(Apply(s, op))
    ensures var turns := s.turns + [NewTurn(op.id, op.message, op.sessionId, op.now)];
      && (forall t | t in Apply(s, op).turns :: t in turns)
      && (forall i, j | 0 <= i < j < |turns| :: turns[i].id != turns[j].id)
  {
    NewTurnIsOk(op.id, op.message, op.sessionId, op.now);
    hide TurnOk, Subsequence, NewTurn;
    LookupFinds(s.turns, op.id);
    var turns := s.turns + [NewTurn(op.id, op.message, op.sessionId, op.now)];
    if |turns| > MAX_TURNS {
      EvictFirstSubsequence(turns, |turns| - MAX_TURNS);
      SubsequenceKeepsOk(EvictFirst(turns, |turns| - MAX_TURNS), turns);
    }
  }

  lemma ApplyKeepsOk(s: Store, op: Op)
    requires StoreOk(s) && Possible(s, op)
    ensures StoreOk(Apply(s, op))
  {
    match op
    case Create(_, _, _, _) => CreateKeepsOk(s, op);
    case Remove(id) => RemoveKeepsOk(s, id);
    case _ => ChangeKeepsOk(s, op);
  }

  lemma RemoveKeepsOk(s: Store, id: string)
    requires StoreOk(s)
    ensures StoreOk(Apply(s, Remove(id)))
  {
    hide TurnOk, Subsequence, Drop;
    DropSubsequence(s.turns, id);
    SubsequenceKeepsOk(Drop(s.turns, id), s.turns);
  }

  lemma ChangeKeepsOk(s: Store, op: Op)
    requires StoreOk(s) && Possible(s, op) && !op.Create? && !op.Remove?
    ensures StoreOk(Apply(s, op))
  {
    hide TurnOk, OnTurn, Lookup, Update;
    LookupFinds(s.turns, op.id);
    if Lookup(s.turns, op.id).Some? {
      var t := Lookup(s.turns, op.id).value;
      OnTurnKeepsOk(t, op);
      UpdateAt(s.turns, OnTurn(t, op));
    }
  }

  /** In every reachable store each turn is terminal exactly when its queue is closed and its completion is recorded. */
  lemma {:induction false} ReachableStoresAreOk(states: seq<Store>, ops: seq<Op>, i: nat)
    requires Execution(states, ops) && i < |states|
    ensures StoreOk(states[i])
  {
    if i > 0 {
      ReachableStoresAreOk(states, ops, i - 1);
      ApplyKeepsOk(states[i - 1], ops[i - 1]);
    }
  }

  /** A terminal turn keeps its status, completion time and error for as long as it is stored. */
  lemma TerminalIsFinal(s: Store, op: Op, i: nat, j: nat)
    requires StoreOk(s) && Possible(s, op) && i < |s.turns| && !s.turns[i].status.Running?
    requires j < |Apply(s, op).turns| && Apply(s, op).turns[j].id == s.turns[i].id
    ensures SameRecord(Apply(s, op).turns[j], s.turns[i])
    ensures Apply(s, op).turns[j].sessionId == s.turns[i].sessionId || op.SetSession?
  {
    hide TurnOk, OnTurn, Subsequence, Evict, NewTurn;
    match op
    case Create(_, _, _, _) =>
      CreateKeepsOk(s, op);
      var turns := s.turns + [NewTurn(op.id, op.message, op.sessionId, op.now)];
      var t := Apply(s, op).turns[j];
      assert t in Apply(s, op).turns;
      assert t in turns;
      var k :| 0 <= k < |turns| && turns[k] == t;
      assert turns[i] == s.turns[i];
    case Remove(id) =>
      DropSubsequence(s.turns, id);
      SubsequenceKeepsOk(Drop(s.turns, id), s.turns);
    case _ => UpdateKeepsTerminal(s, op, i, j);
  }

  lemma UpdateKeepsTerminal(s: Store, op: Op, i: nat, j: nat)
    requires StoreOk(s) && Possible(s, op) && !op.Create? && !op.Remove?
    requires i < |s.turns| && !s.turns[i].status.Running?
    requires j < |Apply(s, op).turns| && Apply(s, op).turns[j].id == s.turns[i].id
    ensures SameRecord(Apply(s, op).turns[j], s.turns[i])
    ensures Apply(s, op).turns[j].sessionId == s.turns[i].sessionId || op.SetSession?
  {
    hide TurnOk, OnTurn;
    LookupFinds(s.turns, op.id);
    if Lookup(s.turns, op.id).Some? {
      var t := Lookup(s.turns, op.id).value;
      OnTurnKeepsOk(t, op);
      UpdateAt(s.turns, OnTurn(t, op));
    }
  }

  lemma {:induction false} ActiveConcat(turns: seq<Turn>, more: seq<Turn>)
    ensures ActiveTurns(turns + more) == ActiveTurns(turns) + ActiveTurns(more)
    ensures TerminalTurns(turns + more) == TerminalTurns(turns) + TerminalTurns(more)
  {
    hide ActiveTurns, TerminalTurns;
    ActiveFirst(turns);
    if turns == [] {
      assert turns + more == more;
    } else {
      ActiveFirst(turns + more);
      ActiveConcat(turns[1..], more);
      assert (turns + more)[1..] == turns[1..] + more;
    }
  }

  lemma ActiveStep(turns: seq<Turn>, i: nat)
    ensures i < |turns| ==>
      |ActiveTurns(turns[..i + 1])| == |ActiveTurns(turns[..i])| + if turns[i].status.Running? then 1 else 0
    ensures ActiveTurns(turns[..0]) == []
  {
    if i < |turns| {
      assert turns[..i + 1] == turns[..i] + [turns[i]] && [turns[i]][1..] == [];
      ActiveConcat(turns[..i], [turns[i]]);
    }
  }

  lemma {:induction false} ActiveAndTerminal(turns: seq<Turn>)
    ensures |ActiveTurns(turns)| + |TerminalTurns(turns)| == |turns|
  {
    if turns != [] { ActiveAndTerminal(turns[1..]); }
  }

  lemma {:induction false} UpdateActive(turns: seq<Turn>, t: Turn)
    requires t.status.Running? ==> forall i | 0 <= i < |turns| && turns[i].id == t.id :: turns[i].status.Running?
    ensures |ActiveTurns(Update(turns, t))| <= |ActiveTurns(turns)|
  {
    if turns != [] { UpdateActive(turns[1..], t); }
  }

  lemma {:induction false} DropActive(turns: seq<Turn>, id: string)
    ensures |ActiveTurns(Drop(turns, id))| <= |ActiveTurns(turns)| && |Drop(turns, id)| <= |turns|
  {
    if turns != [] { DropActive(turns[1..], id); }
  }

  /** How large a creation leaves the store: over the limit only by active turns that cannot be evicted. */
  lemma CreateSize(s: Store, op: Op)
    requires op.Create?
    ensures |ActiveTurns(Apply(s, op).turns)| == |ActiveTurns(s.turns)| + 1
    ensures |Apply(s, op).turns| ==
      if |s.turns| < MAX_TURNS then |s.turns| + 1
      else if |ActiveTurns(s.turns)| < MAX_TURNS then MAX_TURNS
      else |ActiveTurns(s.turns)| + 1
  {
    var t := NewTurn(op.id, op.message, op.sessionId, op.now);
    ActiveConcat(s.turns, [t]);
    ActiveAndTerminal(s.turns + [t]);
    if |s.turns| >= MAX_TURNS { EvictionSpares(s.turns + [t], |s.turns| + 1 - MAX_TURNS); }
  }

  lemma ApplyKeepsBounds(s: Store, op: Op)
    requires StoreOk(s) && Possible(s, op) && (op.Create? ==> CanAccept(s))
    requires |ActiveTurns(s.turns)| <= MAX_CONCURRENT && |s.turns| <= MAX_TURNS
    ensures |ActiveTurns(Apply(s, op).turns)| <= MAX_CONCURRENT && |Apply(s, op).turns| <= MAX_TURNS
  {
    hide TurnOk, OnTurn;
    match op
    case Create(_, _, _, _) => CreateSize(s, op);
    case Remove(id) => DropActive(s.turns, id);
    case _ =>
      LookupFinds(s.turns, op.id);
      if Lookup(s.turns, op.id).Some? {
        var t := Lookup(s.turns, op.id).value;
        OnTurnKeepsOk(t, op);
        UpdateAt(s.turns, OnTurn(t, op));
        UpdateActive(s.turns, OnTurn(t, op));
      }
  }

  /** Creations gated by `canAcceptTurn` keep at most five turns active and at most twenty stored. */
  lemma {:induction false} GatedStoresAreBounded(states: seq<Store>, ops: seq<Op>, i: nat)
    requires Execution(states, ops) && Gated(states, ops) && i < |states|
    ensures |ActiveTurns(states[i].turns)| <= 5 && |states[i].turns| <= 20
  {
    if i > 0 {
      GatedStoresAreBounded(states, ops, i - 1);
      ReachableStoresAreOk(states, ops, i - 1);
      ApplyKeepsBounds(states[i - 1], ops[i - 1]);
    }
  }

  /** A follow-up to a running turn is really accepted by its queue; to any other turn it changes nothing. */
  lemma PushedMessageIsAccepted(t: Turn, op: Op)
    requires TurnOk(t) && op.PushMessage?
    ensures Delivered(OnTurn(t, op).queue.replies) + OnTurn(t, op).queue.queue
         == Delivered(t.queue.replies) + t.queue.queue
            + if t.status.Running? then [Message(op.text, SessionOf(t))] else []
  {
    PerformConserves(t.queue, PushOp(Message(op.text, SessionOf(t))));
  }

  // The objects

  class InternalTurn {
    const id: string
    const createdAt: int
    const messageQueue: AsyncMessageQueue<Message>
    var sessionId: Option<string>
    var status: Status
    var completedAt: Option<int>
    var durationMs: Option<int>
    var errorMessage: Option<string>

    constructor (id: string, sessionId: Option<string>, now: int, messageQueue: AsyncMessageQueue<Message>)
      ensures this.messageQueue == messageQueue && this.id == id
      ensures View() == Turn(id, Running, sessionId, now, None, None, None, messageQueue.View())
    {
      this.id, this.createdAt, this.messageQueue := id, now, messageQueue;
      this.sessionId := sessionId;
      status, completedAt, durationMs, errorMessage := Running, None, None, None;
    }

    function View(): Turn
      reads this, messageQueue
    {
      Turn(id, status, sessionId, createdAt, completedAt, durationMs, errorMessage, messageQueue.View())
    }

    /** What `transitionTurn` and `deleteTurn` do to a running turn. */
    method MarkFinished(newStatus: Status, now: int)
      requires messageQueue.View().Valid()
      modifies this, messageQueue
      ensures View() == Finish(old(View()), newStatus, now)
    {
      status := newStatus;
      completedAt := Some(now);
      durationMs := Some(now - createdAt);
      messageQueue.Close();
    }

    /** The body of `deleteTurn` once the turn is found. */
    method CloseOff(now: int)
      requires messageQueue.View().Valid()
      modifies this, messageQueue
      ensures View() == OnTurn(old(View()), Delete(id, now))
    {
      messageQueue.Close();
      if status.Running? {
        status := Cancelled;
        completedAt := Some(now);
        durationMs := Some(now - createdAt);
      }
    }
  }

  method FindKey(keys: seq<string>, key: string, ghost at: nat) returns (k: nat)
    requires NoDuplicates(keys) && at < |keys| && keys[at] == key
    ensures k == at
  {
    k := 0;
    while keys[k] != key
      invariant 0 <= k <= at
      decreases |keys| - k
    {
      k := k + 1;
    }
  }

  /** A list of distinct keys without the one at position `at`. */
  lemma WithoutKey(keys: seq<string>, at: nat)
    requires NoDuplicates(keys) && at < |keys|
    ensures NoDuplicates(keys[..at] + keys[at + 1..])
    ensures forall key :: key in keys[..at] + keys[at + 1..] <==> key in keys && key != keys[at]
    ensures forall i | 0 <= i < |keys| && i != at :: keys[i] != keys[at]
  {
    var less := keys[..at] + keys[at + 1..];
    forall i | 0 <= i < |less| ensures less[i] == keys[if i < at then i else i + 1] { }
    forall key | key in keys && key != keys[at] ensures key in less {
      var i :| 0 <= i < |keys| && keys[i] == key;
      assert less[if i < at then i else i - 1] == key;
    }
  }

  class TurnStore {
    var turns: map<string, InternalTurn>
    var order: seq<string>               // the map's keys in insertion order
    var totalProcessed: nat

    constructor ()
      ensures Valid() && View() == Store([], 0)
    {
      turns, order, totalProcessed := map[], [], 0;
    }

    ghost function Objects(): set<object>
      reads this
    {
      (set id | id in turns :: turns[id]) + (set id | id in turns :: turns[id].messageQueue)
    }

    /** Distinct keys hold distinct objects, each under its own id. */
    ghost predicate Shaped()
      reads this
    {
      && NoDuplicates(order)
      && (forall id :: id in order <==> id in turns)
      && (forall id | id in turns :: turns[id].id == id)
      && (forall a, b | a in turns && b in turns && a != b :: turns[a].messageQueue != turns[b].messageQueue)
    }

    ghost predicate Valid()
      reads this, Objects()
    {
      Shaped() && StoreOk(View())
    }

    ghost function View(): Store
      requires Shaped()
      reads this, Objects()
    {
      var keys, objects := order, turns;
      Store(seq(|keys|, i requires 0 <= i < |keys| && keys[i] in objects
                          reads if 0 <= i < |keys| && keys[i] in objects
                                then {objects[keys[i]] as object, objects[keys[i]].messageQueue as object} else {}
                          => objects[keys[i]].View()),
            totalProcessed)
    }

    lemma ViewAgrees()
      requires Shaped()
      ensures |View().turns| == |order|
      ensures forall i | 0 <= i < |order| ::
        order[i] in turns && View().turns[i] == turns[order[i]].View() && View().turns[i].id == order[i]
    {
      forall i | 0 <= i < |order| ensures order[i] in turns { assert order[i] in order; }
    }

    lemma LookupAgrees(id: string)
      requires Shaped()
      ensures id in turns ==> Lookup(View().turns, id) == Some(turns[id].View())
      ensures id !in turns ==> Lookup(View().turns, id) == None
    {
      ViewAgrees();
      LookupFinds(View().turns, id);
      if id in turns {
        assert id in order;
        var i :| 0 <= i < |order| && order[i] == id;
        assert View().turns[i].id == id;
        var t := Lookup(View().turns, id).value;
        var j :| 0 <= j < |order| && View().turns[j] == t;
        assert order[j] == order[i];
      }
    }

    /** After a change to the object of `id` alone the view is the old one with that turn updated. */
    lemma OneTurnChanged(before: Store, id: string)
      requires Shaped() && id in turns && |before.turns| == |order| && before.totalProcessed == totalProcessed
      requires forall i | 0 <= i < |order| :: before.turns[i].id == order[i]
      requires forall i | 0 <= i < |order| && order[i] != id ::
        order[i] in turns && turns[order[i]].View() == before.turns[i]
      ensures View() == before.(turns := Update(before.turns, turns[id].View()))
    {
      ViewAgrees();
      UpdateAt(before.turns, turns[id].View());
      assert View().turns == Update(before.turns, turns[id].View());
    }

    method TransitionTurn(id: string, newStatus: Status, now: int) returns (ok: bool)
      requires Valid() && !newStatus.Running?
      modifies Objects()
      ensures Valid() && View() == Apply(old(View()), Transition(id, newStatus, now))
      ensures ok <==> Lookup(old(View()).turns, id).Some? && Lookup(old(View()).turns, id).value.status.Running?
      ensures turns == old(turns) && order == old(order)
      ensures ok ==> id in turns && turns[id].View() == Finish(Lookup(old(View()).turns, id).value, newStatus, now)
    {
      ghost var before := View();
      ViewAgrees();
      LookupAgrees(id);
      ApplyKeepsOk(before, Transition(id, newStatus, now));
      if id !in turns { return false; }
      var turn := turns[id];
      if !turn.status.Running? {
        OneTurnChanged(before, id);
        return false;
      }
      turn.MarkFinished(newStatus, now);
      OneTurnChanged(before, id);
      ok := true;
    }

    method FailTurn(id: string, error: string, now: int) returns (ok: bool)
      requires Valid()
      modifies Objects()
      ensures Valid() && View() == Apply(old(View()), Fail(id, error, now))
      ensures ok <==> Lookup(old(View()).turns, id).Some? && Lookup(old(View()).turns, id).value.status.Running?
    {
      hide StoreOk, NoDuplicates;
      ghost var before := View();
      LookupAgrees(id);
      ApplyKeepsOk(before, Fail(id, error, now));
      ok := TransitionTurn(id, Failed, now);
      if ok {
        ghost var middle := View();
        ViewAgrees();
        turns[id].errorMessage := Some(error);
        OneTurnChanged(middle, id);
        UpdateTwice(before.turns, Finish(Lookup(before.turns, id).value, Failed, now), turns[id].View());
      }
    }

    method PushMessage(id: string, text: string) returns (ok: bool)
      requires Valid()
      modifies Objects()
      ensures Valid() && View() == Apply(old(View()), Op.PushMessage(id, text))
      ensures ok <==> Lookup(old(View()).turns, id).Some? && Lookup(old(View()).turns, id).value.status.Running?
    {
      ghost var before := View();
      ViewAgrees();
      LookupAgrees(id);
      ApplyKeepsOk(before, Op.PushMessage(id, text));
      hide StoreOk;
      if id !in turns { return false; }
      var turn := turns[id];
      if !turn.status.Running? {
        OneTurnChanged(before, id);
        return false;
      }
      turn.messageQueue.Push(Message(text, match turn.sessionId case Some(session) => session case None => ""));
      OneTurnChanged(before, id);
      ok := true;
    }

    /** The runner takes the next message of a turn. */
    method Consume(id: string)
      requires Valid()
      modifies Objects()
      ensures Valid() && View() == Apply(old(View()), Op.Consume(id))
    {
      ghost var before := View();
      ViewAgrees();
      LookupAgrees(id);
      ApplyKeepsOk(before, Op.Consume(id));
      if id in turns {
        var promise := turns[id].messageQueue.Next();
        OneTurnChanged(before, id);
      }
    }

    /** The runner records the session of the turn it runs; later follow-ups carry it. */
    method SetSession(id: string, session: string)
      requires Valid()
      modifies Objects()
      ensures Valid() && View() == Apply(old(View()), Op.SetSession(id, session))
    {
      ghost var before := View();
      ViewAgrees();
      LookupAgrees(id);
      ApplyKeepsOk(before, Op.SetSession(id, session));
      if id in turns {
        turns[id].sessionId := Some(session);
        OneTurnChanged(before, id);
      }
    }

    method DeleteTurn(id: string, now: int) returns (ok: bool)
      requires Valid()
      modifies Objects()
      ensures Valid() && View() == Apply(old(View()), Delete(id, now))
      ensures ok <==> Lookup(old(View()).turns, id).Some?
    {
      ghost var before := View();
      ViewAgrees();
      LookupAgrees(id);
      ApplyKeepsOk(before, Delete(id, now));
      if id !in turns { return false; }
      var turn := turns[id];
      turn.CloseOff(now);
      OneTurnChanged(before, id);
      ok := true;
    }

    lemma OneTurnGone(before: Store, keys: seq<string>, at: nat)
      requires Shaped() && at < |keys| == |before.turns| && order == keys[..at] + keys[at + 1..]
        && before.totalProcessed == totalProcessed
      requires forall i | 0 <= i < |keys| && i != at :: keys[i] in turns && turns[keys[i]].View() == before.turns[i]
      ensures View() == before.(turns := before.turns[..at] + before.turns[at + 1..])
    {
      ViewAgrees();
      forall i | 0 <= i < |order| ensures order[i] == keys[if i < at then i else i + 1] { }
      assert View().turns == before.turns[..at] + before.turns[at + 1..];
    }

    /** `Map.delete`: the key and its place in the order go. */
    method DeleteKey(id: string, ghost at: nat)
      requires Shaped() && at < |order| && order[at] == id
      modifies this
      ensures Shaped() && order == old(order)[..at] + old(order)[at + 1..] && turns == old(turns) - {id}
      ensures View() == old(View()).(turns := old(View()).turns[..at] + old(View()).turns[at + 1..])
    {
      hide NoDuplicates;
      ghost var before := View();
      ViewAgrees();
      var k := FindKey(order, id, at);
      WithoutKey(order, k);
      order := order[..k] + order[k + 1..];
      turns := turns - {id};
      assert Shaped();
      OneTurnGone(before, old(order), at);
    }

    method RemoveTurn(id: string)
      requires Valid()
      modifies this
      ensures Valid() && View() == Apply(old(View()), Remove(id))
    {
      ghost var before := View();
      ViewAgrees();
      LookupAgrees(id);
      ApplyKeepsOk(before, Remove(id));
      hide StoreOk, Objects;
      if id in turns {
        ghost var at :| 0 <= at < |order| && order[at] == id;
        DropAt(before.turns, id, at);
        DeleteKey(id, at);
      } else {
        DropMissing(before.turns, id);
      }
    }

    method CanAcceptTurn() returns (ok: bool)
      requires Valid()
      ensures ok == CanAccept(View())
    {
      hide ActiveTurns;
      var active := 0;
      ghost var all := View().turns;
      ViewAgrees();
      var i := 0;
      ActiveStep(all, 0);
      while i < |order|
        invariant 0 <= i <= |order|
        invariant active == |ActiveTurns(all[..i])|
      {
        ActiveStep(all, i);
        if turns[order[i]].status.Running? { active := active + 1; }
        i := i + 1;
      }
      assert all[..|order|] == all;
      assert |ActiveTurns(all)| == active;
      assert View().turns == all;
      ok := active < MAX_CONCURRENT;
    }

    /** Deletes while it walks the map in insertion order; `kept` counts the entries it has passed and left. */
    method EvictOldTurns()
      requires Shaped()
      modifies this
      ensures Shaped() && View() == old(View()).(turns := Evict(old(View()).turns))
    {
      hide Evicting, NoDuplicates;
      SizesAgree();
      if |turns| <= MAX_TURNS { return; }
      ghost var before, now := View(), View().turns;
      EvictionBegins(now);
      hide Evict;
      var kept := 0;
      while kept < |order| && |turns| > MAX_TURNS
        invariant Shaped() && View() == before.(turns := now)
        invariant 0 <= kept <= |now| == |order| == |turns| && |now| >= MAX_TURNS
        invariant Evicting(now, kept) == Evict(before.turns)
        decreases |now| - kept
      {
        kept := EvictNext(kept);
        SizesAgree();
        now := View().turns;
      }
      EvictionEnds(now, kept);
    }

    /** The body of the eviction loop. */
    method EvictNext(kept: nat) returns (kept': nat)
      requires Shaped() && kept < |order| == |View().turns| && |order| > MAX_TURNS
      modifies this
      ensures Shaped() && kept' <= |View().turns| && |View().turns| >= MAX_TURNS
      ensures |View().turns| - kept' < |old(order)| - kept
      ensures View().totalProcessed == old(View()).totalProcessed
      ensures Evicting(View().turns, kept') == Evicting(old(View()).turns, kept)
    {
      hide Evicting, NoDuplicates;
      ViewAgrees();
      EvictionStep(View().turns, kept);
      var id := order[kept];
      if turns[id].status.Running? {
        kept' := kept + 1;
      } else {
        DeleteKey(id, kept);
        kept' := kept;
      }
    }

    lemma SizesAgree()
      requires Shaped()
      ensures |turns| == |order| == |View().turns|
    {
      ViewAgrees();
      NoDuplicatesCardinality(order);
      assert turns.Keys == set id | id in order;
    }

    /** `id` is a fresh random id; `message` already carries the optional context. */
    method CreateTurn(id: string, message: string, sessionId: Option<string>, now: int) returns (turn: InternalTurn)
      requires Valid() && id !in turns
      modifies this
      ensures Valid() && View() == Apply(old(View()), Create(id, message, sessionId, now))
      ensures fresh(turn) && fresh(turn.messageQueue)
    {
      ghost var before := View();
      hide StoreOk, Evict, NewTurn;
      LookupAgrees(id);
      turn := MakeTurn(id, message, sessionId, now);
      ghost var added := before.turns + [NewTurn(id, message, sessionId, now)];
      AddTurn(turn);
      assert View() == Store(added, before.totalProcessed + 1);
      EvictOldTurns();
      ghost var after := View();
      assert after == Apply(before, Create(id, message, sessionId, now));
      assert StoreOk(after) by { CreateKeepsOk(before, Create(id, message, sessionId, now)); }
    }

    static method MakeTurn(id: string, message: string, sessionId: Option<string>, now: int)
      returns (turn: InternalTurn)
      ensures fresh(turn) && fresh(turn.messageQueue) && turn.id == id
      ensures turn.View() == NewTurn(id, message, sessionId, now)
    {
      var messageQueue := new AsyncMessageQueue<Message>();
      EmptyIsValid<Message>();
      messageQueue.Push(Message(message, ""));
      turn := new InternalTurn(id, sessionId, now, messageQueue);
    }

    method AddTurn(turn: InternalTurn)
      requires Shaped() && turn.id !in turns && forall id | id in turns :: turns[id].messageQueue != turn.messageQueue
      modifies this
      ensures Shaped() && View() == Store(old(View()).turns + [turn.View()], old(View()).totalProcessed + 1)
      ensures turns == old(turns)[turn.id := turn]
    {
      ghost var before := View();
      ViewAgrees();
      NoDuplicatesAppend(order, turn.id);
      hide NoDuplicates;
      turns := turns[turn.id := turn];
      order := order + [turn.id];
      totalProcessed := totalProcessed + 1;
      OneTurnAdded(before, turn.View());
    }

    lemma OneTurnAdded(before: Store, t: Turn)
      requires Shaped() && |order| == |before.turns| + 1 && before.totalProcessed + 1 == totalProcessed
      requires forall i | 0 <= i < |before.turns| :: order[i] in turns && turns[order[i]].View() == before.turns[i]
      requires order[|before.turns|] in turns && turns[order[|before.turns|]].View() == t
      ensures View() == Store(before.turns + [t], before.totalProcessed + 1)
    {
      ViewAgrees();
      assert View().turns == before.turns + [t];
    }
  }
}
