/** The bucket-handle cache of the NATS bus: a map behind a read-write lock, checked again under the write lock. */
module KvCache {
  import opened Sequences

  type Bucket = string
  type Handle = nat

  datatype Result = Opened(handle: Handle) | OpenFailed

  /** Where a caller of `kv` is. */
  datatype Pc =
    | ReadLock
    | ReadCheck
    | ReadUnlockHit(handle: Handle)
    | ReadUnlockMiss
    | WriteLock
    | WriteWait                           // announced: no reader gets in any more, those inside are waited for
    | WriteCheck
    | Open                                // the round trip to JetStream, under the write lock
    | Store(handle: Handle)
    | WriteUnlock(result: Result)         // the deferred unlock
    | Returned(result: Result)

  datatype Caller = Caller(bucket: Bucket, pc: Pc)

  datatype SuccessfulOpen = SuccessfulOpen(bucket: Bucket, handle: Handle)

  /** A `sync.RWMutex`: a writer that waits keeps new readers and other writers out. */
  datatype RWMutex = RWMutex(readers: set<nat>, waiting: Option<nat>, writer: Option<nat>)

  /** `opens` is history: the successful opens so far. */
  datatype State = State(kvMu: RWMutex, kvCache: map<Bucket, Handle>, callers: seq<Caller>, opens: seq<SuccessfulOpen>)

  function Init(buckets: seq<Bucket>): State {
    State(RWMutex({}, None, None), map[], seq(|buckets|, i requires 0 <= i < |buckets| => Caller(buckets[i], ReadLock)),
      [])
  }

  datatype Action = Run(g: nat) | OpenReply(g: nat, handle: Handle) | OpenError(g: nat)

  function At(s: State, g: nat, pc: Pc): State
    requires g < |s.callers|
  {
    s.(callers := s.callers[g := Caller(s.callers[g].bucket, pc)])
  }

  function Statement(s: State, g: nat): Option<State>
    requires g < |s.callers|
  {
    var b := s.callers[g].bucket;
    match s.callers[g].pc
    case ReadLock =>
      if s.kvMu.writer.None? && s.kvMu.waiting.None?
      then Some(At(s.(kvMu := s.kvMu.(readers := s.kvMu.readers + {g})), g, ReadCheck)) else None
    case ReadCheck => Some(At(s, g, if b in s.kvCache then ReadUnlockHit(s.kvCache[b]) else ReadUnlockMiss))
    case ReadUnlockHit(h) => Some(At(s.(kvMu := s.kvMu.(readers := s.kvMu.readers - {g})), g, Returned(Opened(h))))
    case ReadUnlockMiss => Some(At(s.(kvMu := s.kvMu.(readers := s.kvMu.readers - {g})), g, WriteLock))
    case WriteLock =>
      if s.kvMu.writer.None? && s.kvMu.waiting.None?
      then Some(At(s.(kvMu := s.kvMu.(waiting := Some(g))), g, WriteWait)) else None
    case WriteWait =>
      if s.kvMu.readers == {} then Some(At(s.(kvMu := s.kvMu.(waiting := None, writer := Some(g))), g, WriteCheck))
        else None
    case WriteCheck => Some(At(s, g, if b in s.kvCache then WriteUnlock(Opened(s.kvCache[b])) else Open))
    case Open => None
    case Store(h) => Some(At(s.(kvCache := s.kvCache[b := h]), g, WriteUnlock(Opened(h))))
    case WriteUnlock(result) => Some(At(s.(kvMu := s.kvMu.(writer := None)), g, Returned(result)))
    case Returned(_) => None
  }

  /** The handles that JetStream returns are arbitrary; two opens might even return equal ones. */
  function Step(s: State, a: Action): Option<State> {
    if a.g >= |s.callers| then None
    else match a
         case Run(g) => Statement(s, g)
         case OpenReply(g, h) =>
           if s.callers[g].pc.Open?
           then Some(At(s.(opens := s.opens + [SuccessfulOpen(s.callers[g].bucket, h)]), g, Store(h))) else None
         case OpenError(g) => if s.callers[g].pc.Open? then Some(At(s, g, WriteUnlock(OpenFailed))) else None
  }

  function Execute(s: State, schedule: seq<Action>): Option<State>
    decreases |schedule|
  {
    if schedule == [] then Some(s)
    else match Step(s, schedule[0])
         case None => None
         case Some(s') => Execute(s', schedule[1..])
  }

  ghost predicate Reachable(s: State) {
    exists buckets, schedule :: Execute(Init(buckets), schedule) == Some(s)
  }

  predicate Reads(pc: Pc) { pc.ReadCheck? || pc.ReadUnlockHit? || pc.ReadUnlockMiss? }
  predicate Writes(pc: Pc) { pc.WriteCheck? || pc.Open? || pc.Store? || pc.WriteUnlock? }

  ghost predicate Cached(s: State, b: Bucket, h: Handle) { b in s.kvCache && s.kvCache[b] == h }

  ghost predicate CallerOk(s: State, g: nat, c: Caller) {
    && (Reads(c.pc) <==> g in s.kvMu.readers)
    && (Writes(c.pc) <==> s.kvMu.writer == Some(g))
    && (c.pc.WriteWait? <==> s.kvMu.waiting == Some(g))
    && match c.pc
       case ReadUnlockHit(h) => Cached(s, c.bucket, h)
       case Open => c.bucket !in s.kvCache
       case Store(h) => c.bucket !in s.kvCache && s.opens != [] && s.opens[|s.opens| - 1] == SuccessfulOpen(c.bucket, h)
       case WriteUnlock(Opened(h)) => Cached(s, c.bucket, h)
       case Returned(Opened(h)) => Cached(s, c.bucket, h)
       case _ => true
  }

  predicate Storing(s: State) {
    s.kvMu.writer.Some? && s.kvMu.writer.value < |s.callers| && s.callers[s.kvMu.writer.value].pc.Store?
  }

  /** The opens that are in the cache: all but one that is just being stored. */
  function Stored(s: State): seq<SuccessfulOpen> {
    if Storing(s) && s.opens != [] then s.opens[..|s.opens| - 1] else s.opens
  }

  ghost predicate SharedOk(s: State) {
    && (s.kvMu.writer.Some? ==> s.kvMu.writer.value < |s.callers| && s.kvMu.readers == {} && s.kvMu.waiting.None?)
    && (s.kvMu.waiting.Some? ==> s.kvMu.waiting.value < |s.callers|)
    && (forall g | g in s.kvMu.readers :: g < |s.callers|)
    && (forall i, j | 0 <= i < j < |s.opens| :: s.opens[i].bucket != s.opens[j].bucket)
    && (forall i | 0 <= i < |Stored(s)| :: Cached(s, Stored(s)[i].bucket, Stored(s)[i].handle))
    && (forall b | b in s.kvCache :: SuccessfulOpen(b, s.kvCache[b]) in Stored(s))
  }

  ghost predicate Inv(s: State) {
    SharedOk(s) && forall g | 0 <= g < |s.callers| :: CallerOk(s, g, s.callers[g])
  }

  lemma StoreKeepsShared(s: State, g: nat)
    requires Inv(s) && g < |s.callers| && s.callers[g].pc.Store?
    ensures Statement(s, g).Some? && SharedOk(Statement(s, g).value)
  {
    var Caller(b, pc) := s.callers[g];
    assert CallerOk(s, g, s.callers[g]);
    var before, last, s' := Stored(s), SuccessfulOpen(b, pc.handle), Statement(s, g).value;
    assert s.opens == before + [last];
    assert Stored(s') == s.opens && s'.kvCache == s.kvCache[b := pc.handle];
    hide CallerOk, Stored, Statement;
    forall i | 0 <= i < |s.opens| ensures Cached(s', s.opens[i].bucket, s.opens[i].handle) {
      if i < |before| { assert Cached(s, before[i].bucket, before[i].handle); }
    }
    forall c | c in s'.kvCache ensures SuccessfulOpen(c, s'.kvCache[c]) in s.opens {
      if c != b {
        assert SuccessfulOpen(c, s.kvCache[c]) in before;
      } else {
        assert s.opens[|before|] == last;
      }
    }
  }

  lemma OpenKeepsShared(s: State, g: nat, h: Handle)
    requires Inv(s) && g < |s.callers| && s.callers[g].pc.Open?
    ensures SharedOk(Step(s, OpenReply(g, h)).value)
  {
    assert CallerOk(s, g, s.callers[g]);
    assert Stored(s) == s.opens;
    assert Stored(Step(s, OpenReply(g, h)).value) == s.opens;
    assert forall i | 0 <= i < |s.opens| :: Cached(s, s.opens[i].bucket, s.opens[i].handle);
  }

  lemma OtherStepsKeepShared(s: State, a: Action, s': State)
    requires Inv(s) && Step(s, a) == Some(s') && !a.OpenReply? && !s.callers[a.g].pc.Store?
    ensures SharedOk(s')
  {
    assert CallerOk(s, a.g, s.callers[a.g]);
    assert s'.opens == s.opens && s'.kvCache == s.kvCache;
    assert s.kvMu.writer.Some? && s.kvMu.writer.value < |s.callers| ==>
      CallerOk(s, s.kvMu.writer.value, s.callers[s.kvMu.writer.value]);
    assert Stored(s') == Stored(s);
  }

  lemma StepKeepsShared(s: State, a: Action, s': State)
    requires Inv(s) && Step(s, a) == Some(s')
    ensures SharedOk(s')
  {
    hide SharedOk;
    if a.OpenReply? {
      OpenKeepsShared(s, a.g, a.handle);
    } else if s.callers[a.g].pc.Store? {
      StoreKeepsShared(s, a.g);
    } else {
      OtherStepsKeepShared(s, a, s');
    }
  }

  lemma StepKeepsCallers(s: State, a: Action, s': State, h: nat)
    requires Inv(s) && Step(s, a) == Some(s') && h < |s.callers|
    ensures CallerOk(s', h, s'.callers[h])
  {
    if h == a.g { MoverIsOk(s, a, s'); } else { OthersAreOk(s, a, s', h); }
  }

  lemma MoverIsOk(s: State, a: Action, s': State)
    requires Inv(s) && Step(s, a) == Some(s')
    ensures CallerOk(s', a.g, s'.callers[a.g])
  {
    hide Stored;
    assert CallerOk(s, a.g, s.callers[a.g]);
  }

  lemma OthersAreOk(s: State, a: Action, s': State, h: nat)
    requires Inv(s) && Step(s, a) == Some(s') && h < |s.callers| && h != a.g
    ensures CallerOk(s', h, s'.callers[h])
  {
    hide Stored;
    assert CallerOk(s, a.g, s.callers[a.g]) && CallerOk(s, h, s.callers[h]);
  }

  lemma {:induction false} ExecuteKeepsInv(s: State, schedule: seq<Action>, s': State)
    requires Inv(s) && Execute(s, schedule) == Some(s')
    ensures Inv(s')
    decreases |schedule|
  {
    if schedule != [] {
      var a := schedule[0];
      var next := Step(s, a).value;
      StepKeepsShared(s, a, next);
      forall h | 0 <= h < |next.callers| ensures CallerOk(next, h, next.callers[h]) {
        StepKeepsCallers(s, a, next, h);
      }
      ExecuteKeepsInv(next, schedule[1..], s');
    }
  }

  lemma ReachableInv(s: State)
    requires Reachable(s)
    ensures Inv(s)
  {
    var buckets, schedule :| Execute(Init(buckets), schedule) == Some(s);
    ExecuteKeepsInv(Init(buckets), schedule, s);
  }

  // Main results: every interleaving of any number of callers.

  /** A bucket is opened successfully at most once. */
  lemma OneOpenPerBucket(s: State, i: nat, j: nat)
    requires Reachable(s) && i < j < |s.opens|
    ensures s.opens[i].bucket != s.opens[j].bucket
  {
    ReachableInv(s);
  }

  /** All callers of a bucket that get a handle get the one that its only open produced. */
  lemma SameHandleForAll(s: State, g: nat, h: nat)
    requires Reachable(s) && g < |s.callers| && h < |s.callers| && s.callers[g].bucket == s.callers[h].bucket
    requires s.callers[g].pc.Returned? && s.callers[g].pc.result.Opened?
    requires s.callers[h].pc.Returned? && s.callers[h].pc.result.Opened?
    ensures s.callers[g].pc.result == s.callers[h].pc.result
    ensures SuccessfulOpen(s.callers[g].bucket, s.callers[g].pc.result.handle) in s.opens
  {
    ReachableInv(s);
    assert CallerOk(s, g, s.callers[g]) && CallerOk(s, h, s.callers[h]);
  }

  /** Only successful opens are ever cached, and a cached handle is never replaced: a failed open leaves no trace. */
  lemma CacheHoldsOnlySuccesses(s: State, a: Action, b: Bucket)
    requires Reachable(s)
    ensures b in s.kvCache ==> SuccessfulOpen(b, s.kvCache[b]) in s.opens
    ensures b in s.kvCache && Step(s, a).Some? ==> Cached(Step(s, a).value, b, s.kvCache[b])
    ensures a.OpenError? && Step(s, a).Some? ==>
      Step(s, a).value.kvCache == s.kvCache && Step(s, a).value.opens == s.opens
  {
    ReachableInv(s);
    if a.g < |s.callers| { assert CallerOk(s, a.g, s.callers[a.g]); }
  }

  /** There is no deadlock: while a caller has not returned, some caller can move or is waiting for JetStream. */
  lemma SomeoneCanMove(s: State, g: nat)
    requires Reachable(s) && g < |s.callers| && !s.callers[g].pc.Returned?
    ensures exists h | 0 <= h < |s.callers| :: Statement(s, h).Some? || s.callers[h].pc.Open?
  {
    ReachableInv(s);
    var h := g;
    if s.kvMu.writer.Some? {
      h := s.kvMu.writer.value;
    } else if s.kvMu.waiting.Some? && s.kvMu.readers != {} {
      h :| h in s.kvMu.readers;
    } else if s.kvMu.waiting.Some? {
      h := s.kvMu.waiting.value;
    }
    assert CallerOk(s, h, s.callers[h]) && CallerOk(s, g, s.callers[g]);
    assert Statement(s, h).Some? || s.callers[h].pc.Open?;
  }

  // Who is told of a failure

  predicate HasFailed(pc: Pc) { (pc.WriteUnlock? || pc.Returned?) && pc.result.OpenFailed? }

  ghost predicate FailuresMatch(s: State, run: seq<Action>) {
    forall g: nat | g < |s.callers| :: HasFailed(s.callers[g].pc) <==> OpenError(g) in run
  }

  lemma StepMovesOne(s: State, a: Action, s': State)
    requires Step(s, a) == Some(s')
    ensures a.g < |s.callers| && s'.callers == s.callers[a.g := s'.callers[a.g]]
    ensures HasFailed(s'.callers[a.g].pc) <==> HasFailed(s.callers[a.g].pc) || a.OpenError?
  {
  }

  lemma {:induction false} ExecuteMatches(s: State, schedule: seq<Action>, s': State, run: seq<Action>)
    requires FailuresMatch(s, run) && Execute(s, schedule) == Some(s')
    ensures FailuresMatch(s', run + schedule)
    decreases |schedule|
  {
    hide Step, HasFailed;
    if schedule == [] {
      assert run + [] == run;
    } else {
      var a, next := schedule[0], Step(s, schedule[0]).value;
      StepMovesOne(s, a, next);
      forall g: nat | g < |next.callers| ensures HasFailed(next.callers[g].pc) <==> OpenError(g) in run + [a] {
        assert OpenError(g) in run + [a] <==> OpenError(g) in run || a == OpenError(g);
      }
      ExecuteMatches(next, schedule[1..], s', run + [a]);
      assert run + [a] + schedule[1..] == run + schedule;
    }
  }

  /** A caller is told of a failure exactly if its own open failed; every other caller that returns has a handle. */
  lemma FailsOnItsOwnOpenOnly(buckets: seq<Bucket>, schedule: seq<Action>, s: State, g: nat)
    requires Execute(Init(buckets), schedule) == Some(s) && g < |s.callers| && s.callers[g].pc.Returned?
    ensures s.callers[g].pc.result.OpenFailed? <==> OpenError(g) in schedule
  {
    ExecuteMatches(Init(buckets), schedule, s, []);
    assert [] + schedule == schedule;
  }
}
