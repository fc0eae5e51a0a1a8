/** What a stored turn tells: all of it is determined by the operations that named it since its creation. */
module AgentTurnHistory {
  import opened Sequences
  import opened MessageQueue
  import opened AgentTurns

  predicate Ends(op: AgentTurns.Op, id: string) { (op.Transition? || op.Fail? || op.Delete?) && op.id == id }

  /** The operation that ended the turn. */
  function FirstEnd(ops: seq<AgentTurns.Op>, id: string): Option<AgentTurns.Op> {
    if ops == [] then None
    else
      var before, op := FirstEnd(ops[..|ops| - 1], id), ops[|ops| - 1];
      if before.None? && Ends(op, id) then Some(op) else before
  }

  /** The session that the turn belongs to by now. */
  function Session(create: AgentTurns.Op, ops: seq<AgentTurns.Op>, id: string): Option<string>
    requires create.Create?
  {
    if ops == [] then create.sessionId
    else
      var op := ops[|ops| - 1];
      if op.SetSession? && op.id == id then Some(op.session) else Session(create, ops[..|ops| - 1], id)
  }

  /** The message that the turn was created with, then the ones pushed while it ran, each with the session by then. */
  function Messages(create: AgentTurns.Op, ops: seq<AgentTurns.Op>, id: string): seq<Message>
    requires create.Create?
  {
    if ops == [] then [Message(create.message, "")]
    else
      var before, op := ops[..|ops| - 1], ops[|ops| - 1];
      Messages(create, before, id) +
      if op.PushMessage? && op.id == id && FirstEnd(before, id).None?
      then [Message(op.text, match Session(create, before, id) case Some(session) => session case None => "")] else []
  }

  /** How often the runner has asked for a message. */
  function Asked(ops: seq<AgentTurns.Op>, id: string): nat {
    if ops == [] then 0
    else Asked(ops[..|ops| - 1], id) + if ops[|ops| - 1].Consume? && ops[|ops| - 1].id == id then 1 else 0
  }

  ghost predicate Tells(t: Turn, create: AgentTurns.Op, ops: seq<AgentTurns.Op>) {
    && create.Create? && t.id == create.id && t.createdAt == create.now
    && EndTells(t, FirstEnd(ops, t.id))
    && t.sessionId == Session(create, ops, t.id)
    && Delivered(t.queue.replies) + t.queue.queue == Messages(create, ops, t.id)
    && |t.queue.replies| == Asked(ops, t.id)
  }

  /** A turn runs until it is ended, and then records by what and when. */
  predicate EndTells(t: Turn, end: Option<AgentTurns.Op>) {
    match end
    case None => t.status == Running && t.completedAt == None && t.durationMs == None && t.errorMessage == None
    case Some(op) =>
      && (op.Transition? || op.Fail? || op.Delete?)
      && t.status == (if op.Transition? then op.status else if op.Fail? then Failed else Cancelled)
      && t.completedAt == Some(op.now) && t.durationMs == Some(op.now - t.createdAt)
      && t.errorMessage == if op.Fail? then Some(op.error) else None
  }

  // A creation

  lemma NewTurnTells(op: AgentTurns.Op)
    requires op.Create?
    ensures Tells(NewTurn(op.id, op.message, op.sessionId, op.now), op, [])
  {
    assert Delivered<Message>([]) == [];
  }

  lemma {:induction false} EvictKeepsLast(turns: seq<Turn>, n: nat)
    requires turns != [] && turns[|turns| - 1].status.Running?
    ensures var kept := EvictFirst(turns, n); kept != [] && kept[|kept| - 1] == turns[|turns| - 1]
  {
    if n > 0 && |turns| > 1 {
      var rest := turns[1..];
      assert rest[|rest| - 1] == turns[|turns| - 1];
      EvictKeepsLast(rest, if turns[0].status.Running? then n else n - 1);
    } else if n > 0 {
      assert turns[1..] == [];
    }
  }

  /** A creation stores a running turn last, with its message as the only one. */
  lemma CreationTells(s: Store, op: AgentTurns.Op)
    requires op.Create?
    ensures var turns := Apply(s, op).turns;
      && turns != [] && Tells(turns[|turns| - 1], op, [])
      && turns[|turns| - 1].status == Running
      && Delivered(turns[|turns| - 1].queue.replies) + turns[|turns| - 1].queue.queue == [Message(op.message, "")]
    ensures Apply(s, op).totalProcessed == s.totalProcessed + 1
  {
    hide EvictFirst, Delivered;
    var turns := s.turns + [NewTurn(op.id, op.message, op.sessionId, op.now)];
    NewTurnTells(op);
    if |turns| > MAX_TURNS { EvictKeepsLast(turns, |turns| - MAX_TURNS); }
  }

  // One more operation

  lemma OthersTell(t: Turn, create: AgentTurns.Op, ops: seq<AgentTurns.Op>, op: AgentTurns.Op)
    requires Tells(t, create, ops) && (op.id != t.id || op.Remove? || op.Create?)
    ensures Tells(t, create, ops + [op])
  {
    assert (ops + [op])[..|ops|] == ops;
  }

  lemma EndStillTells(t: Turn, op: AgentTurns.Op, end: Option<AgentTurns.Op>)
    requires TurnOk(t) && EndTells(t, end) && op.id == t.id && !op.Create? && !op.Remove?
    requires op.Transition? ==> !op.status.Running?
    ensures EndTells(OnTurn(t, op), if end.None? && Ends(op, t.id) then Some(op) else end)
    ensures OnTurn(t, op).id == t.id && OnTurn(t, op).createdAt == t.createdAt
    ensures OnTurn(t, op).sessionId == if op.SetSession? then Some(op.session) else t.sessionId
  {
  }

  lemma QueueStillTells(t: Turn, op: AgentTurns.Op)
    requires TurnOk(t) && !op.Create? && !op.Remove?
    ensures var q, q' := t.queue, OnTurn(t, op).queue;
      && Delivered(q'.replies) + q'.queue == Delivered(q.replies) + q.queue
        + (if op.PushMessage? && t.status.Running? then [Message(op.text, SessionOf(t))] else [])
      && |q'.replies| == |q.replies| + if op.Consume? then 1 else 0
  {
    hide Delivered;
    PerformConserves(t.queue, CloseOp);
    PerformConserves(t.queue, NextOp);
    if op.PushMessage? { PerformConserves(t.queue, PushOp(Message(op.text, SessionOf(t)))); }
    var all := Delivered(t.queue.replies) + t.queue.queue;
    assert all + [] == all;
  }

  lemma OneMoreTells(t: Turn, create: AgentTurns.Op, ops: seq<AgentTurns.Op>, op: AgentTurns.Op)
    requires TurnOk(t) && Tells(t, create, ops) && op.id == t.id && !op.Create? && !op.Remove?
    requires op.Transition? ==> !op.status.Running?
    ensures Tells(OnTurn(t, op), create, ops + [op])
  {
    hide TurnOk, OnTurn, EndTells, Delivered;
    assert (ops + [op])[..|ops|] == ops;
    EndStillTells(t, op, FirstEnd(ops, t.id));
    QueueStillTells(t, op);
    RunsUntilEnded(t, FirstEnd(ops, t.id));
    SessionIs(t);
  }

  lemma RunsUntilEnded(t: Turn, end: Option<AgentTurns.Op>)
    requires EndTells(t, end) && TurnOk(t)
    ensures t.status.Running? <==> end.None?
  {
  }

  lemma SessionIs(t: Turn)
    ensures SessionOf(t) == match t.sessionId case Some(session) => session case None => ""
  {
  }

  // Runs

  predicate Creates(op: AgentTurns.Op, id: string) { op.Create? && op.id == id }

  /** Where a turn of the next store comes from. */
  lemma ComesFrom(s: Store, op: AgentTurns.Op, j: nat) returns (i: nat)
    requires StoreOk(s) && Possible(s, op) && j < |Apply(s, op).turns|
    ensures var t := Apply(s, op).turns[j];
      if Creates(op, t.id) then t == NewTurn(op.id, op.message, op.sessionId, op.now)
      else
        && i < |s.turns| && s.turns[i].id == t.id
        && t == if op.id == t.id && !op.Remove? then OnTurn(s.turns[i], op) else s.turns[i]
    ensures op.Remove? ==> Apply(s, op).turns[j].id != op.id
  {
    hide TurnOk, OnTurn, NewTurn, Evict;
    var t := Apply(s, op).turns[j];
    i := 0;
    match op
    case Create(_, _, _, _) =>
      var created := NewTurn(op.id, op.message, op.sessionId, op.now);
      CreateKeepsOk(s, op);
      NewTurnIsOk(op.id, op.message, op.sessionId, op.now);
      LookupFinds(s.turns, op.id);
      assert t in s.turns + [created];
      if t != created { i :| 0 <= i < |s.turns| && s.turns[i] == t; }
    case Remove(id) => i := StaysAfterRemove(s, id, j);
    case _ => i := StaysAfterChange(s, op, j);
  }

  lemma StaysAfterRemove(s: Store, id: string, j: nat) returns (i: nat)
    requires StoreOk(s) && j < |Drop(s.turns, id)|
    ensures i < |s.turns| && s.turns[i] == Drop(s.turns, id)[j] && s.turns[i].id != id
  {
    hide TurnOk;
    if exists k :: 0 <= k < |s.turns| && s.turns[k].id == id {
      var k :| 0 <= k < |s.turns| && s.turns[k].id == id;
      DropAt(s.turns, id, k);
      i := if j < k then j else j + 1;
    } else {
      DropMissing(s.turns, id);
      i := j;
    }
  }

  lemma StaysAfterChange(s: Store, op: AgentTurns.Op, j: nat) returns (i: nat)
    requires StoreOk(s) && Possible(s, op) && !op.Create? && !op.Remove? && j < |Apply(s, op).turns|
    ensures i < |s.turns| && s.turns[i].id == Apply(s, op).turns[j].id
    ensures Apply(s, op).turns[j] == if op.id == s.turns[i].id then OnTurn(s.turns[i], op) else s.turns[i]
  {
    hide TurnOk, OnTurn;
    i := j;
    LookupFinds(s.turns, op.id);
    if Lookup(s.turns, op.id).Some? {
      var t := Lookup(s.turns, op.id).value;
      OnTurnKeepsOk(t, op);
      UpdateAt(s.turns, OnTurn(t, op));
    }
  }

  /**
   * Every stored turn of every run: there is the creation it comes from, and its status, times, error and session, the
   * messages delivered and queued are those that the operations on it since then call for.
   */
  lemma {:induction false} TurnTellsItsHistory(states: seq<Store>, ops: seq<AgentTurns.Op>, i: nat, j: nat)
    returns (c: nat)
    requires Execution(states, ops) && i < |states| && j < |states[i].turns|
    ensures c < i && Tells(states[i].turns[j], ops[c], ops[c + 1..i])
    ensures forall k | c < k < i :: !Creates(ops[k], states[i].turns[j].id)
  {
    hide Tells, TurnOk, OnTurn, NewTurn;
    var s, op, t := states[i - 1], ops[i - 1], states[i].turns[j];
    ReachableStoresAreOk(states, ops, i - 1);
    var from := ComesFrom(s, op, j);
    if Creates(op, t.id) {
      c := i - 1;
      NewTurnTells(op);
      assert ops[c + 1..i] == [];
    } else {
      c := TurnTellsItsHistory(states, ops, i - 1, from);
      assert ops[c + 1..i] == ops[c + 1..i - 1] + [op];
      SameId(s.turns[from], ops[c], ops[c + 1..i - 1]);
      if op.id == t.id && !op.Remove? { OneMoreTells(s.turns[from], ops[c], ops[c + 1..i - 1], op); }
      else { OthersTell(s.turns[from], ops[c], ops[c + 1..i - 1], op); }
    }
  }

  lemma SameId(t: Turn, create: AgentTurns.Op, ops: seq<AgentTurns.Op>)
    requires Tells(t, create, ops)
    ensures create.Create? && create.id == t.id
  {
  }
}
