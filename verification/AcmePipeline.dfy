/**
 * The ACME client's signed requests as a state machine, cut at every `await`: the single-slot nonce cache, the promise
 * chain that serialises signed requests, the bounded badNonce retry and unsigned reads that refill the slot.
 */
module AcmePipeline {
  import opened Sequences

  /** How a signed request's promise ends. `badNonce` marks a rejection with the badNonce problem type. */
  datatype Outcome = Resolved | Rejected(badNonce: bool) | Broken

  datatype Pc =
    | Queued(after: Option<nat>)                   // chained onto the promise of that request
    | AwaitDirectory(attempts: nat)                // looking up the newNonce resource
    | AwaitHead(attempts: nat)
    | HoldNonce(attempts: nat, nonce: string)      // getNonce has returned, nothing is signed yet
    | AwaitPost(attempts: nat)
    | AwaitBody(attempts: nat, status: int)        // headers are in, the body is being parsed
    | Settled(outcome: Outcome)

  datatype GetPc = AwaitGet | AwaitGetBody | GetDone

  datatype Post = Post(request: nat, nonce: string)

  datatype Body = BadNonceProblem | OtherProblem | NoProblem

  /** What came back to a request, `sent` being the number of POSTs that had gone out by then. */
  datatype Reply = Reply(request: nat, status: int, body: Body, sent: nat)

  /**
   * `signedChain` is the request whose promise the next one is chained onto. `issued`, `posts` and `replies` are
   * history: every nonce the server sent, every POST in the order they went out, every reply that was read.
   */
  datatype State = State(
    slot: Option<string>, signedChain: Option<nat>, requests: seq<Pc>, gets: seq<GetPc>,
    issued: set<string>, posts: seq<Post>, replies: seq<Reply>)

  const INITIAL := State(None, None, [], [], {}, [], [])

  datatype Action =
    | Submit                                              // a caller of signedRequest
    | CallGet                                             // a caller of rawGet
    | Start(k: nat)                                       // the chain reaches request k
    | DirectoryReady(k: nat)
    | HeadReply(k: nat, nonce: string)                    // "" stands for a missing header
    | Send(k: nat)                                        // sign and POST
    | PostReply(k: nat, status: int, nonce: string)
    | BodyParsed(k: nat, body: Body)
    | Fails(k: nat)                                       // whatever request k awaits, or its signing, throws
    | GetReply(g: nat, nonce: string)
    | GetEnds(g: nat)                                     // the body is read, or the exchange failed

  function At(s: State, k: nat, pc: Pc): State
    requires k < |s.requests|
  {
    s.(requests := s.requests[k := pc])
  }

  /** The synchronous part of `getNonce`: empty the slot, or go and ask for a nonce. */
  function TakeNonce(s: State, k: nat, attempts: nat): State
    requires k < |s.requests|
  {
    if s.slot.Some? then At(s.(slot := None), k, HoldNonce(attempts, s.slot.value))
    else At(s, k, AwaitDirectory(attempts))
  }

  /** The server is assumed never to issue one nonce twice. */
  predicate Fresh(s: State, nonce: string) { nonce == "" || nonce !in s.issued }

  function UpdateNonce(s: State, nonce: string): State {
    if nonce == "" then s else s.(slot := Some(nonce), issued := s.issued + {nonce})
  }

  function Decide(s: State, k: nat, attempts: nat, status: int, body: Body, maxRetries: int): State
    requires k < |s.requests|
  {
    if status == 400 && body == BadNonceProblem && attempts < maxRetries then TakeNonce(s, k, attempts + 1)
    else if status >= 400 then At(s, k, Settled(Rejected(status == 400 && body == BadNonceProblem)))
    else At(s, k, Settled(Resolved))
  }

  function Answered(s: State, k: nat, status: int, body: Body): State {
    s.(replies := s.replies + [Reply(k, status, body, |s.posts|)])
  }

  predicate Running(pc: Pc) { !pc.Queued? && !pc.Settled? }

  /** The call of `signedRequest`: the new request waits for the tail of the chain and becomes the tail. */
  function Submitted(s: State): State {
    s.(requests := s.requests + [Queued(s.signedChain)], signedChain := Some(|s.requests|))
  }

  predicate Free(s: State, after: Option<nat>) {
    after.Some? ==> after.value < |s.requests| && s.requests[after.value].Settled?
  }

  /** One atomic stretch of the event loop; None when the action cannot happen here. */
  function Step(s: State, a: Action, maxRetries: int): Option<State> {
    match a
    case Submit => Some(Submitted(s))
    case CallGet => Some(s.(gets := s.gets + [AwaitGet]))
    case GetReply(g, nonce) =>
      if g < |s.gets| && s.gets[g].AwaitGet? && Fresh(s, nonce)
      then Some(UpdateNonce(s, nonce).(gets := s.gets[g := AwaitGetBody])) else None
    case GetEnds(g) => if g < |s.gets| && !s.gets[g].GetDone? then Some(s.(gets := s.gets[g := GetDone])) else None
    case _ => if a.k < |s.requests| then Advance(s, a, s.requests[a.k], maxRetries) else None
  }

  function Advance(s: State, a: Action, pc: Pc, maxRetries: int): Option<State>
    requires !a.Submit? && !a.CallGet? && !a.GetReply? && !a.GetEnds?
    requires a.k < |s.requests|
  {
    var k := a.k;
    match a
    case Start(_) =>
      if pc.Queued? && Free(s, pc.after) then Some(TakeNonce(s, k, 0)) else None
    case DirectoryReady(_) => if pc.AwaitDirectory? then Some(At(s, k, AwaitHead(pc.attempts))) else None
    case HeadReply(_, nonce) =>
      if !pc.AwaitHead? || !Fresh(s, nonce) then None
      else if nonce == "" then Some(At(s, k, Settled(Broken)))
      else Some(At(s.(issued := s.issued + {nonce}), k, HoldNonce(pc.attempts, nonce)))
    case Send(_) =>
      if pc.HoldNonce? then Some(At(s.(posts := s.posts + [Post(k, pc.nonce)]), k, AwaitPost(pc.attempts))) else None
    case PostReply(_, status, nonce) =>
      if pc.AwaitPost? && Fresh(s, nonce)
      then Some(At(UpdateNonce(s, nonce), k, AwaitBody(pc.attempts, status))) else None
    case BodyParsed(_, body) =>
      if pc.AwaitBody?
      then Some(Decide(Answered(s, k, pc.status, body), k, pc.attempts, pc.status, body, maxRetries)) else None
    case Fails(_) => if Running(pc) then Some(At(s, k, Settled(Broken))) else None
  }

  function Execute(s: State, schedule: seq<Action>, maxRetries: int): Option<State>
    decreases |schedule|
  {
    if schedule == [] then Some(s)
    else match Step(s, schedule[0], maxRetries)
         case None => None
         case Some(s') => Execute(s', schedule[1..], maxRetries)
  }

  ghost predicate Reachable(s: State, maxRetries: int) {
    exists schedule :: Execute(INITIAL, schedule, maxRetries) == Some(s)
  }

  function PostCount(posts: seq<Post>, k: nat): nat {
    if posts == [] then 0
    else PostCount(posts[..|posts| - 1], k) + if posts[|posts| - 1].request == k then 1 else 0
  }

  function Retries(maxRetries: int): nat { if maxRetries > 0 then maxRetries else 0 }

  ghost predicate Used(s: State, nonce: string) { exists i :: 0 <= i < |s.posts| && s.posts[i].nonce == nonce }

  ghost predicate Spendable(s: State, nonce: string) { nonce in s.issued && !Used(s, nonce) }

  /** The progress of a request and the POSTs it has made agree. */
  ghost predicate Counted(pc: Pc, sent: nat, maxRetries: int) {
    match pc
    case Queued(_) => sent == 0
    case AwaitDirectory(attempts) => sent == attempts <= Retries(maxRetries)
    case AwaitHead(attempts) => sent == attempts <= Retries(maxRetries)
    case HoldNonce(attempts, _) => sent == attempts <= Retries(maxRetries)
    case AwaitPost(attempts) => sent == attempts + 1 <= Retries(maxRetries) + 1
    case AwaitBody(attempts, _) => sent == attempts + 1 <= Retries(maxRetries) + 1
    case Settled(outcome) =>
      && sent <= Retries(maxRetries) + 1
      && (!outcome.Broken? ==> sent >= 1)
      && (outcome == Rejected(true) ==> sent == Retries(maxRetries) + 1)
  }

  /** Everything before a request that has left the queue is settled. */
  ghost predicate Serial(requests: seq<Pc>) {
    forall j, k | 0 <= j < k < |requests| && !requests[k].Queued? :: requests[j].Settled?
  }

  /** Each waiting request hangs on the one submitted just before it, and the tail is the last one submitted. */
  ghost predicate Chained(s: State) {
    && s.signedChain == Before(|s.requests|)
    && forall k | 0 <= k < |s.requests| && s.requests[k].Queued? :: s.requests[k].after == Before(k)
  }

  function Before(k: nat): Option<nat> { if k == 0 then None else Some(k - 1) }

  ghost predicate NoncesOk(s: State) {
    && (forall i | 0 <= i < |s.posts| :: s.posts[i].nonce in s.issued)
    && (forall i, j | 0 <= i < j < |s.posts| :: s.posts[i].nonce != s.posts[j].nonce)
    && (s.slot.Some? ==> Spendable(s, s.slot.value))
    && (forall k | 0 <= k < |s.requests| && s.requests[k].HoldNonce? ::
          Spendable(s, s.requests[k].nonce) && s.slot != Some(s.requests[k].nonce))
  }

  ghost predicate PostsInOrder(s: State) {
    && (forall i | 0 <= i < |s.posts| :: s.posts[i].request < |s.requests| && !s.requests[s.posts[i].request].Queued?)
    && (forall i, j | 0 <= i < j < |s.posts| :: s.posts[i].request <= s.posts[j].request)
  }

  ghost predicate AllCounted(s: State, maxRetries: int) {
    forall k | 0 <= k < |s.requests| :: Counted(s.requests[k], PostCount(s.posts, k), maxRetries)
  }

  // What a request was told

  predicate IsBadNonce(r: Reply) { r.status == 400 && r.body.BadNonceProblem? }

  function LastReply(replies: seq<Reply>, k: nat): Option<Reply> {
    if replies == [] then None
    else if replies[|replies| - 1].request == k then Some(replies[|replies| - 1])
    else LastReply(replies[..|replies| - 1], k)
  }

  /** The progress of a request and the last reply to it agree; `sent` is the number of POSTs so far. */
  ghost predicate Told(pc: Pc, last: Option<Reply>, sent: nat) {
    match pc
    case Queued(_) => last.None?
    case AwaitPost(_) => true
    case AwaitBody(_, _) => true
    case Settled(Resolved) => last.Some? && last.value.status < 400
    case Settled(Rejected(badNonce)) =>
      last.Some? && last.value.status >= 400 && (badNonce <==> IsBadNonce(last.value))
    case Settled(Broken) => true
    case _ => if pc.attempts == 0 then last.None? else last.Some? && IsBadNonce(last.value) && last.value.sent == sent
  }

  ghost predicate AllTold(s: State) {
    forall k | 0 <= k < |s.requests| :: Told(s.requests[k], LastReply(s.replies, k), |s.posts|)
  }

  /** Some badNonce reply to the request of POST `j` came after POST `i` and before POST `j`. */
  ghost predicate SentBack(s: State, i: nat, j: nat)
    requires j < |s.posts|
  {
    exists r :: 0 <= r < |s.replies| && s.replies[r].request == s.posts[j].request && IsBadNonce(s.replies[r])
      && i < s.replies[r].sent <= j
  }

  ghost predicate RetriesEarned(s: State) {
    forall i, j | 0 <= i < j < |s.posts| && s.posts[i].request == s.posts[j].request :: SentBack(s, i, j)
  }

  /** Each reply answers the POST that went out last by then, none is answered twice, and none is left unanswered. */
  ghost predicate Answering(s: State) {
    && (forall r | 0 <= r < |s.replies| :: Answers(s, s.replies[r]))
    && (forall q, r | 0 <= q < r < |s.replies| :: s.replies[q].sent < s.replies[r].sent)
    && (forall k, r | 0 <= k < |s.requests| && Awaiting(s.requests[k]) && 0 <= r < |s.replies| ::
          s.replies[r].sent < |s.posts|)
  }

  predicate Awaiting(pc: Pc) { pc.AwaitPost? || pc.AwaitBody? }

  ghost predicate Answers(s: State, r: Reply) { 0 < r.sent <= |s.posts| && s.posts[r.sent - 1].request == r.request }

  /** No POST of a request that was fulfilled or rejected went out after the last reply to it. */
  ghost predicate LastAnswered(s: State) {
    forall k | 0 <= k < |s.requests| && s.requests[k].Settled? && !s.requests[k].outcome.Broken? ::
      NoPostSince(s, k, LastReply(s.replies, k))
  }

  ghost predicate NoPostSince(s: State, k: nat, last: Option<Reply>) {
    last.Some? ==> forall i | 0 <= i < |s.posts| && s.posts[i].request == k :: i < last.value.sent
  }

  ghost predicate RepliesOk(s: State) {
    && (forall r | 0 <= r < |s.replies| :: s.replies[r].request < |s.requests|)
    && AllTold(s) && RetriesEarned(s) && Answering(s) && LastAnswered(s)
  }

  ghost predicate Inv(s: State, maxRetries: int) {
    Chained(s) && Serial(s.requests) && NoncesOk(s) && PostsInOrder(s) && AllCounted(s, maxRetries) && RepliesOk(s)
  }

  lemma AdvanceKeepsSerial(s: State, a: Action, maxRetries: int, s': State)
    requires !a.Submit? && !a.CallGet? && !a.GetReply? && !a.GetEnds? && a.k < |s.requests|
    requires Chained(s) && Serial(s.requests) && Advance(s, a, s.requests[a.k], maxRetries) == Some(s')
    ensures Chained(s') && Serial(s'.requests) && |s'.requests| == |s.requests|
      && s'.requests == s.requests[a.k := s'.requests[a.k]]
    ensures !s'.requests[a.k].Queued?
    ensures forall k | 0 <= k < |s.requests| && k != a.k :: s.requests[k].Queued? || s.requests[k].Settled?
  {
    var k := a.k;
    if k > 0 && s.requests[k].Queued? {
      assert s.requests[k].after == Before(k) && s.requests[k - 1].Settled?;
    }
    forall j | 0 <= j < |s.requests| && j != k ensures s.requests[j].Queued? || s.requests[j].Settled? {
      if j < k && k > 0 {
        if s.requests[k].Queued? && j < k - 1 { assert !s.requests[k - 1].Queued?; }
      }
    }
  }

  lemma AdvanceKeepsNonces(s: State, a: Action, maxRetries: int, s': State)
    requires !a.Submit? && !a.CallGet? && !a.GetReply? && !a.GetEnds? && a.k < |s.requests|
    requires Inv(s, maxRetries) && Advance(s, a, s.requests[a.k], maxRetries) == Some(s')
    ensures NoncesOk(s')
  {
    hide Chained, Serial, PostsInOrder, AllCounted, Counted, RepliesOk, PostCount;
    AdvanceKeepsSerial(s, a, maxRetries, s');
  }

  lemma AdvancePosts(s: State, a: Action, maxRetries: int, s': State)
    requires !a.Submit? && !a.CallGet? && !a.GetReply? && !a.GetEnds? && a.k < |s.requests|
    requires Advance(s, a, s.requests[a.k], maxRetries) == Some(s')
    ensures s'.posts == s.posts
         || (s.requests[a.k].HoldNonce? && s'.posts == s.posts + [Post(a.k, s.requests[a.k].nonce)])
  {
  }

  lemma AdvanceKeepsOrder(s: State, a: Action, maxRetries: int, s': State)
    requires !a.Submit? && !a.CallGet? && !a.GetReply? && !a.GetEnds? && a.k < |s.requests|
    requires Inv(s, maxRetries) && Advance(s, a, s.requests[a.k], maxRetries) == Some(s')
    ensures PostsInOrder(s')
  {
    AdvanceKeepsSerial(s, a, maxRetries, s');
    AdvancePosts(s, a, maxRetries, s');
    hide Advance;
    forall i | 0 <= i < |s.posts| ensures s'.posts[i] == s.posts[i] {}
    if s'.posts != s.posts {
      forall i | 0 <= i < |s.posts| ensures s.posts[i].request <= a.k { }
    }
  }

  lemma PostCountAppend(posts: seq<Post>, post: Post, k: nat)
    ensures PostCount(posts + [post], k) == PostCount(posts, k) + if post.request == k then 1 else 0
  {
    assert (posts + [post])[..|posts|] == posts;
  }

  lemma AdvanceCountsOwn(s: State, a: Action, maxRetries: int, s': State, sent: nat)
    requires !a.Submit? && !a.CallGet? && !a.GetReply? && !a.GetEnds? && a.k < |s.requests| == |s'.requests|
    requires Counted(s.requests[a.k], sent, maxRetries) && Advance(s, a, s.requests[a.k], maxRetries) == Some(s')
    ensures Counted(s'.requests[a.k], if s.requests[a.k].HoldNonce? && a.Send? then sent + 1 else sent, maxRetries)
    ensures s'.posts
         == if s.requests[a.k].HoldNonce? && a.Send? then s.posts + [Post(a.k, s.requests[a.k].nonce)] else s.posts
  {
  }

  lemma AdvanceKeepsCounts(s: State, a: Action, maxRetries: int, s': State)
    requires !a.Submit? && !a.CallGet? && !a.GetReply? && !a.GetEnds? && a.k < |s.requests|
    requires Inv(s, maxRetries) && Advance(s, a, s.requests[a.k], maxRetries) == Some(s')
    ensures AllCounted(s', maxRetries)
  {
    AdvanceKeepsSerial(s, a, maxRetries, s');
    AdvanceCountsOwn(s, a, maxRetries, s', PostCount(s.posts, a.k));
    hide Advance, Chained, Serial, NoncesOk, PostsInOrder;
    forall k | 0 <= k < |s'.requests| ensures Counted(s'.requests[k], PostCount(s'.posts, k), maxRetries) {
      assert Counted(s.requests[k], PostCount(s.posts, k), maxRetries);
      if s'.posts != s.posts { PostCountAppend(s.posts, s'.posts[|s.posts|], k); }
    }
  }

  lemma LastReplyAppend(replies: seq<Reply>, r: Reply, k: nat)
    ensures LastReply(replies + [r], k) == if r.request == k then Some(r) else LastReply(replies, k)
  {
    assert (replies + [r])[..|replies|] == replies;
  }

  lemma {:induction false} LastReplyIn(replies: seq<Reply>, k: nat)
    ensures LastReply(replies, k).Some? ==>
      exists r :: 0 <= r < |replies| && replies[r] == LastReply(replies, k).value && replies[r].request == k
    ensures LastReply(replies, k).None? ==> forall r | 0 <= r < |replies| :: replies[r].request != k
  {
    if replies != [] { LastReplyIn(replies[..|replies| - 1], k); }
  }

  lemma AdvanceReplies(s: State, a: Action, maxRetries: int, s': State)
    requires !a.Submit? && !a.CallGet? && !a.GetReply? && !a.GetEnds? && a.k < |s.requests| == |s'.requests|
    requires Advance(s, a, s.requests[a.k], maxRetries) == Some(s')
    ensures s'.replies == if a.BodyParsed? then s.replies + [Reply(a.k, s.requests[a.k].status, a.body, |s.posts|)]
      else s.replies
  {
  }

  lemma AdvanceToldOwn(s: State, a: Action, maxRetries: int, s': State, last: Option<Reply>)
    requires !a.Submit? && !a.CallGet? && !a.GetReply? && !a.GetEnds? && a.k < |s.requests| == |s'.requests|
    requires Told(s.requests[a.k], last, |s.posts|) && Advance(s, a, s.requests[a.k], maxRetries) == Some(s')
    ensures Told(s'.requests[a.k],
                 if a.BodyParsed? then Some(Reply(a.k, s.requests[a.k].status, a.body, |s.posts|)) else last,
                 |s'.posts|)
  {
  }

  /** Requests that wait or are done do not care how many POSTs have gone out. */
  lemma ToldAtRest(pc: Pc, last: Option<Reply>, sent: nat, more: nat)
    requires Told(pc, last, sent) && (pc.Queued? || pc.Settled?)
    ensures Told(pc, last, more)
  {
  }

  lemma AdvanceKeepsTold(s: State, a: Action, maxRetries: int, s': State)
    requires !a.Submit? && !a.CallGet? && !a.GetReply? && !a.GetEnds? && a.k < |s.requests|
    requires Inv(s, maxRetries) && Advance(s, a, s.requests[a.k], maxRetries) == Some(s')
    ensures AllTold(s') && |s'.requests| == |s.requests|
    ensures forall r | 0 <= r < |s'.replies| :: s'.replies[r].request < |s'.requests|
  {
    AdvanceKeepsSerial(s, a, maxRetries, s');
    AdvanceReplies(s, a, maxRetries, s');
    AdvancePosts(s, a, maxRetries, s');
    AdvanceToldOwn(s, a, maxRetries, s', LastReply(s.replies, a.k));
    hide Advance, Chained, Serial, NoncesOk, PostsInOrder, AllCounted, RetriesEarned, Told;
    forall k | 0 <= k < |s'.requests| ensures Told(s'.requests[k], LastReply(s'.replies, k), |s'.posts|) {
      if s'.replies != s.replies { LastReplyAppend(s.replies, s'.replies[|s.replies|], k); }
      if k != a.k { ToldAtRest(s.requests[k], LastReply(s.replies, k), |s.posts|, |s'.posts|); }
    }
  }

  lemma {:induction false} PostIsCounted(posts: seq<Post>, i: nat)
    requires i < |posts|
    ensures PostCount(posts, posts[i].request) > 0
  {
    if i < |posts| - 1 { PostIsCounted(posts[..|posts| - 1], i); }
  }

  lemma SentBackStays(s: State, s': State, i: nat, j: nat)
    requires s.posts <= s'.posts && s.replies <= s'.replies && j < |s.posts| && SentBack(s, i, j)
    ensures SentBack(s', i, j)
  {
    var r :| 0 <= r < |s.replies| && s.replies[r].request == s.posts[j].request && IsBadNonce(s.replies[r])
      && i < s.replies[r].sent <= j;
    assert s'.replies[r] == s.replies[r] && s'.posts[j] == s.posts[j];
  }

  /** A request that is about to POST again was sent back after all its earlier POSTs. */
  lemma RetryIsEarned(s: State, s': State, k: nat, maxRetries: int, i: nat)
    requires k < |s.requests| && s.requests[k].HoldNonce? && i < |s.posts| && s.posts[i].request == k
    requires Counted(s.requests[k], PostCount(s.posts, k), maxRetries)
    requires Told(s.requests[k], LastReply(s.replies, k), |s.posts|)
    requires s'.replies == s.replies && s'.posts == s.posts + [Post(k, s.requests[k].nonce)]
    ensures SentBack(s', i, |s.posts|)
  {
    PostIsCounted(s.posts, i);
    LastReplyIn(s.replies, k);
  }

  lemma AdvanceKeepsEarned(s: State, a: Action, maxRetries: int, s': State)
    requires !a.Submit? && !a.CallGet? && !a.GetReply? && !a.GetEnds? && a.k < |s.requests|
    requires Inv(s, maxRetries) && Advance(s, a, s.requests[a.k], maxRetries) == Some(s')
    ensures RetriesEarned(s')
  {
    AdvancePosts(s, a, maxRetries, s');
    AdvanceKeepsSerial(s, a, maxRetries, s');
    AdvanceReplies(s, a, maxRetries, s');
    assert s.requests[a.k].HoldNonce? ==> s'.replies == s.replies;
    hide Advance, Chained, Serial, NoncesOk, PostsInOrder, SentBack, Told, Counted;
    assert Counted(s.requests[a.k], PostCount(s.posts, a.k), maxRetries);
    assert Told(s.requests[a.k], LastReply(s.replies, a.k), |s.posts|);
    forall i, j | 0 <= i < j < |s'.posts| && s'.posts[i].request == s'.posts[j].request ensures SentBack(s', i, j) {
      if j < |s.posts| { SentBackStays(s, s', i, j); }
      else { RetryIsEarned(s, s', a.k, maxRetries, i); }
    }
  }

  /** While a request awaits its reply, the last POST is its own. */
  lemma LastPostIsOwn(s: State, k: nat, maxRetries: int)
    requires Serial(s.requests) && PostsInOrder(s) && k < |s.requests| && Awaiting(s.requests[k])
    requires Counted(s.requests[k], PostCount(s.posts, k), maxRetries)
    ensures s.posts != [] && s.posts[|s.posts| - 1].request == k
  {
    hide PostCount;
    forall i | 0 <= i < |s.posts| ensures s.posts[i].request <= k { }
    if forall i | 0 <= i < |s.posts| :: s.posts[i].request < k { PostCountBounded(s.posts, k); }
  }

  lemma AnswersStay(s: State, s': State, r: Reply)
    requires s.posts <= s'.posts && Answers(s, r)
    ensures Answers(s', r)
  {
  }

  /** A reply that answers the last POST, which nothing has answered so far. */
  lemma OneMoreAnswer(s: State, s': State, r: Reply)
    requires Answering(s) && s'.posts == s.posts && s'.replies == s.replies + [r]
    requires forall q | 0 <= q < |s.replies| :: s.replies[q].sent < |s.posts|
    requires r.sent == |s.posts| > 0 && s.posts[|s.posts| - 1].request == r.request
    requires forall k | 0 <= k < |s'.requests| :: !Awaiting(s'.requests[k])
    ensures Answering(s')
  {
    assert Answers(s', r);
    forall q | 0 <= q < |s.replies| ensures Answers(s', s.replies[q]) { AnswersStay(s, s', s.replies[q]); }
  }

  lemma AnsweringStays(s: State, s': State)
    requires Answering(s) && s.posts <= s'.posts && s'.replies == s.replies
    requires |s'.posts| > |s.posts|
      || forall k | 0 <= k < |s'.requests| && Awaiting(s'.requests[k]) :: k < |s.requests| && Awaiting(s.requests[k])
    ensures Answering(s')
  {
    forall q | 0 <= q < |s.replies| ensures Answers(s', s.replies[q]) && s.replies[q].sent <= |s.posts| {
      AnswersStay(s, s', s.replies[q]);
    }
  }

  lemma CountedAt(s: State, k: nat, maxRetries: int)
    requires AllCounted(s, maxRetries) && k < |s.requests|
    ensures Counted(s.requests[k], PostCount(s.posts, k), maxRetries)
  {
  }

  lemma AdvanceKeepsAnswering(s: State, a: Action, maxRetries: int, s': State)
    requires !a.Submit? && !a.CallGet? && !a.GetReply? && !a.GetEnds? && a.k < |s.requests|
    requires Inv(s, maxRetries) && Advance(s, a, s.requests[a.k], maxRetries) == Some(s')
    ensures Answering(s')
  {
    hide Advance, Chained, Serial, NoncesOk, PostsInOrder, AllCounted, Counted, AllTold, RetriesEarned, LastAnswered,
      Answering;
    AdvancePosts(s, a, maxRetries, s');
    AdvanceKeepsSerial(s, a, maxRetries, s');
    AdvanceReplies(s, a, maxRetries, s');
    AdvanceAwaits(s, a, maxRetries, s');
    if a.BodyParsed? {
      CountedAt(s, a.k, maxRetries);
      LastPostIsOwn(s, a.k, maxRetries);
      Unanswered(s, a.k);
      OneMoreAnswer(s, s', s'.replies[|s.replies|]);
    } else {
      AnsweringStays(s, s');
    }
  }

  lemma Unanswered(s: State, k: nat)
    requires Answering(s) && k < |s.requests| && Awaiting(s.requests[k])
    ensures forall q | 0 <= q < |s.replies| :: s.replies[q].sent < |s.posts|
  {
  }

  lemma AdvanceAwaits(s: State, a: Action, maxRetries: int, s': State)
    requires !a.Submit? && !a.CallGet? && !a.GetReply? && !a.GetEnds? && a.k < |s.requests| == |s'.requests|
    requires Advance(s, a, s.requests[a.k], maxRetries) == Some(s')
    ensures Awaiting(s'.requests[a.k]) ==> Awaiting(s.requests[a.k]) || |s'.posts| > |s.posts|
    ensures a.BodyParsed? ==> s.requests[a.k].AwaitBody? && !Awaiting(s'.requests[a.k]) && s'.posts == s.posts
    ensures s'.requests[a.k].Settled? && !s'.requests[a.k].outcome.Broken? ==> a.BodyParsed?
    ensures !s.requests[a.k].Settled?
  {
  }

  lemma AdvanceKeepsLastAnswered(s: State, a: Action, maxRetries: int, s': State)
    requires !a.Submit? && !a.CallGet? && !a.GetReply? && !a.GetEnds? && a.k < |s.requests|
    requires Inv(s, maxRetries) && Advance(s, a, s.requests[a.k], maxRetries) == Some(s')
    ensures LastAnswered(s')
  {
    AdvancePosts(s, a, maxRetries, s');
    AdvanceKeepsSerial(s, a, maxRetries, s');
    AdvanceReplies(s, a, maxRetries, s');
    AdvanceAwaits(s, a, maxRetries, s');
    hide Advance, Chained, Serial, NoncesOk, PostsInOrder, AllCounted, AllTold, RetriesEarned, Answering;
    forall k | 0 <= k < |s'.requests| && s'.requests[k].Settled? && !s'.requests[k].outcome.Broken?
      ensures NoPostSince(s', k, LastReply(s'.replies, k))
    {
      if s'.replies != s.replies { LastReplyAppend(s.replies, s'.replies[|s.replies|], k); }
      if k != a.k { assert NoPostSince(s, k, LastReply(s.replies, k)); }
    }
  }

  /** Unsigned reads touch the slot only. */
  lemma ReadKeepsInv(s: State, a: Action, maxRetries: int, s': State)
    requires a.CallGet? || a.GetReply? || a.GetEnds?
    requires Inv(s, maxRetries) && Step(s, a, maxRetries) == Some(s')
    ensures Inv(s', maxRetries)
  {
    hide Advance, Counted, Told, Serial, LastReply, PostCount, Answering, NoPostSince, SentBack, Spendable;
    if a.GetReply? { RefillKeepsNonces(s, a.nonce, s'); } else { SameNonces(s, s'); }
    AnsweringStays(s, s');
    forall i, j | 0 <= i < j < |s.posts| && s.posts[i].request == s.posts[j].request ensures SentBack(s', i, j) {
      SentBackStays(s, s', i, j);
    }
    SincePosts(s, s');
  }

  lemma SameNonces(s: State, s': State)
    requires NoncesOk(s) && s' == s.(gets := s'.gets)
    ensures NoncesOk(s')
  {
  }

  lemma StepKeepsInv(s: State, a: Action, maxRetries: int, s': State)
    requires Inv(s, maxRetries) && Step(s, a, maxRetries) == Some(s')
    ensures Inv(s', maxRetries)
  {
    hide Advance, Chained, Serial, NoncesOk, PostsInOrder, AllCounted, AllTold, RetriesEarned, Answering, LastAnswered;
    match a
    case Submit => SubmitKeepsInv(s, maxRetries);
    case CallGet => ReadKeepsInv(s, a, maxRetries, s');
    case GetReply(_, _) => ReadKeepsInv(s, a, maxRetries, s');
    case GetEnds(_) => ReadKeepsInv(s, a, maxRetries, s');
    case _ =>
      AdvanceKeepsSerial(s, a, maxRetries, s');
      AdvanceKeepsNonces(s, a, maxRetries, s');
      AdvanceKeepsOrder(s, a, maxRetries, s');
      AdvanceKeepsCounts(s, a, maxRetries, s');
      AdvanceKeepsTold(s, a, maxRetries, s');
      AdvanceKeepsEarned(s, a, maxRetries, s');
      AdvanceKeepsAnswering(s, a, maxRetries, s');
      AdvanceKeepsLastAnswered(s, a, maxRetries, s');
  }

  lemma {:induction false} PostCountBounded(posts: seq<Post>, k: nat)
    requires forall i | 0 <= i < |posts| :: posts[i].request < k
    ensures PostCount(posts, k) == 0
  {
    if posts != [] { PostCountBounded(posts[..|posts| - 1], k); }
  }

  lemma SubmitKeepsInv(s: State, maxRetries: int)
    requires Inv(s, maxRetries)
    ensures Inv(Submitted(s), maxRetries)
  {
    var s' := Submitted(s);
    SubmitKeepsReplies(s, maxRetries);
    hide RepliesOk, PostCount;
    PostCountBounded(s.posts, |s.requests|);
    forall k | 0 <= k < |s'.requests| ensures Counted(s'.requests[k], PostCount(s'.posts, k), maxRetries) {
      if k < |s.requests| { assert Counted(s.requests[k], PostCount(s.posts, k), maxRetries); }
    }
  }

  lemma SubmitKeepsReplies(s: State, maxRetries: int)
    requires Inv(s, maxRetries)
    ensures RepliesOk(Submitted(s))
  {
    hide LastReply, PostCount, Chained, Serial, NoncesOk, PostsInOrder, AllCounted, SentBack, Answering, NoPostSince;
    var s' := Submitted(s);
    LastReplyIn(s.replies, |s.requests|);
    AnsweringStays(s, s');
    forall i, j | 0 <= i < j < |s.posts| && s.posts[i].request == s.posts[j].request ensures SentBack(s', i, j) {
      SentBackStays(s, s', i, j);
    }
    forall k | 0 <= k < |s'.requests| ensures Told(s'.requests[k], LastReply(s'.replies, k), |s'.posts|) {
      if k < |s.requests| { assert Told(s.requests[k], LastReply(s.replies, k), |s.posts|); }
    }
    SincePosts(s, s');
  }

  lemma SincePosts(s: State, s': State)
    requires s'.posts == s.posts
    ensures forall k: nat, last :: NoPostSince(s', k, last) == NoPostSince(s, k, last)
  {
  }

  /** An unsigned read may overwrite the slot at any moment: a nonce is lost, never doubled. */
  lemma RefillKeepsNonces(s: State, nonce: string, s': State)
    requires NoncesOk(s) && Fresh(s, nonce)
    requires s'.requests == s.requests && s'.posts == s.posts
    requires s'.slot == UpdateNonce(s, nonce).slot && s'.issued == UpdateNonce(s, nonce).issued
    ensures NoncesOk(s')
  {
  }

  lemma {:induction false} ExecuteKeepsInv(s: State, schedule: seq<Action>, maxRetries: int, s': State)
    requires Inv(s, maxRetries) && Execute(s, schedule, maxRetries) == Some(s')
    ensures Inv(s', maxRetries)
    decreases |schedule|
  {
    if schedule != [] {
      var next := Step(s, schedule[0], maxRetries).value;
      StepKeepsInv(s, schedule[0], maxRetries, next);
      ExecuteKeepsInv(next, schedule[1..], maxRetries, s');
    }
  }

  lemma ReachableInv(s: State, maxRetries: int)
    requires Reachable(s, maxRetries)
    ensures Inv(s, maxRetries)
  {
    var schedule :| Execute(INITIAL, schedule, maxRetries) == Some(s);
    ExecuteKeepsInv(INITIAL, schedule, maxRetries, s);
  }

  // Main results: every interleaving of any number of signed requests and unsigned reads.

  /** No nonce is ever spent twice, and every nonce spent came from the server. */
  lemma NonceSpentOnce(s: State, maxRetries: int, i: nat, j: nat)
    requires Reachable(s, maxRetries) && i < j < |s.posts|
    ensures s.posts[i].nonce != s.posts[j].nonce && s.posts[i].nonce in s.issued && s.posts[j].nonce in s.issued
  {
    ReachableInv(s, maxRetries);
  }

  /** What is cached or in hand is issued, unspent and nowhere else. */
  lemma HeldNoncesAreSpendable(s: State, maxRetries: int, k: nat)
    requires Reachable(s, maxRetries) && k < |s.requests|
    ensures s.slot.Some? ==> Spendable(s, s.slot.value)
    ensures s.requests[k].HoldNonce? ==>
      Spendable(s, s.requests[k].nonce) && s.slot != Some(s.requests[k].nonce)
      && forall j | 0 <= j < |s.requests| && j != k :: !s.requests[j].HoldNonce?
  {
    ReachableInv(s, maxRetries);
  }

  /** Signed requests never overlap and their POSTs go out in submission order. */
  lemma RequestsAreSerial(s: State, maxRetries: int, j: nat, k: nat)
    requires Reachable(s, maxRetries) && j < k < |s.requests|
    ensures !s.requests[k].Queued? ==> s.requests[j].Settled?
    ensures forall x, y | 0 <= x < y < |s.posts| :: s.posts[x].request <= s.posts[y].request
  {
    ReachableInv(s, maxRetries);
  }

  /** A request makes at most one POST per allowed retry and one more; only a spent budget rejects it with badNonce. */
  lemma RetriesAreBounded(s: State, maxRetries: int, k: nat)
    requires Reachable(s, maxRetries) && k < |s.requests|
    ensures PostCount(s.posts, k) <= Retries(maxRetries) + 1
    ensures s.requests[k] == Settled(Rejected(true)) ==> PostCount(s.posts, k) == Retries(maxRetries) + 1
    ensures s.requests[k] == Settled(Resolved) ==> PostCount(s.posts, k) >= 1
  {
    ReachableInv(s, maxRetries);
    assert Counted(s.requests[k], PostCount(s.posts, k), maxRetries);
  }

  /**
   * A request is fulfilled only by a reply that is no error and rejected only by one that is: the reply to its last
   * POST. It is told of a bad nonce exactly if that was the server's last word.
   */
  lemma OutcomeIsTheReply(s: State, maxRetries: int, k: nat)
    requires Reachable(s, maxRetries) && k < |s.requests|
    requires s.requests[k].Settled? && !s.requests[k].outcome.Broken?
    ensures exists r :: 0 <= r < |s.replies| && IsLastWord(s, k, s.replies[r]) && match s.requests[k].outcome
      case Resolved => s.replies[r].status < 400
      case Rejected(badNonce) => s.replies[r].status >= 400 && (badNonce <==> IsBadNonce(s.replies[r]))
      case Broken => false
  {
    hide Chained, Serial, NoncesOk, PostsInOrder, AllCounted, RetriesEarned, Answers, NoPostSince, IsLastWord;
    ReachableInv(s, maxRetries);
    var last := LastReply(s.replies, k);
    assert Told(s.requests[k], last, |s.posts|);
    LastReplyIn(s.replies, k);
    assert NoPostSince(s, k, last);
    var r :| 0 <= r < |s.replies| && s.replies[r] == last.value && s.replies[r].request == k;
    assert Answers(s, s.replies[r]);
    LastWordHolds(s, k, s.replies[r]);
  }

  lemma LastWordHolds(s: State, k: nat, r: Reply)
    requires r.request == k && Answers(s, r) && NoPostSince(s, k, Some(r))
    ensures IsLastWord(s, k, r)
  {
  }

  /** The reply answers a POST of the request, after which the request made no other. */
  ghost predicate IsLastWord(s: State, k: nat, r: Reply) {
    && r.request == k && 0 < r.sent <= |s.posts| && s.posts[r.sent - 1].request == k
    && forall i | r.sent <= i < |s.posts| :: s.posts[i].request != k
  }

  /** A request POSTs again only after the server has turned down its nonce, once for each repetition. */
  lemma RetriesFollowBadNonce(s: State, maxRetries: int, i: nat, j: nat)
    requires Reachable(s, maxRetries) && i < j < |s.posts| && s.posts[i].request == s.posts[j].request
    ensures exists r :: (0 <= r < |s.replies| && s.replies[r].request == s.posts[j].request
      && s.replies[r].status == 400 && s.replies[r].body == BadNonceProblem && i < s.replies[r].sent <= j)
  {
    ReachableInv(s, maxRetries);
    hide Chained, Serial, NoncesOk, PostsInOrder, AllCounted, AllTold, Answering, LastAnswered;
    assert SentBack(s, i, j);
  }

  /** Replies and POSTs match: each reply answers its own POST, in order. */
  lemma RepliesAnswerPosts(s: State, maxRetries: int, q: nat, r: nat)
    requires Reachable(s, maxRetries) && q < r < |s.replies|
    ensures 0 < s.replies[q].sent < s.replies[r].sent <= |s.posts|
    ensures s.posts[s.replies[r].sent - 1].request == s.replies[r].request
  {
    ReachableInv(s, maxRetries);
    hide Chained, Serial, NoncesOk, PostsInOrder, AllCounted, AllTold, RetriesEarned, LastAnswered;
    assert Answers(s, s.replies[q]) && Answers(s, s.replies[r]);
  }

  /**
   * Whatever happens, a nonce that a reply brings is cached, a cached nonce leaves the slot only for a newer one or
   * into the hand of a request that is about to sign, and no nonce is asked for while one is cached.
   */
  lemma SlotIsUsed(s: State, a: Action, maxRetries: int, s': State)
    requires Step(s, a, maxRetries) == Some(s')
    ensures (a.PostReply? || a.GetReply?) && a.nonce != "" ==> s'.slot == Some(a.nonce) && a.nonce in s'.issued
    ensures !((a.PostReply? || a.GetReply?) && a.nonce != "") && s'.slot != s.slot ==>
      && s.slot.Some? && s'.slot.None? && (a.Start? || a.BodyParsed?)
      && s'.requests[a.k].HoldNonce? && s'.requests[a.k].nonce == s.slot.value
    ensures forall k | 0 <= k < |s.requests| && s'.requests[k].AwaitDirectory? && !s.requests[k].AwaitDirectory? ::
      s.slot.None?
    ensures a.HeadReply? && a.nonce != "" ==> s'.requests[a.k].HoldNonce? && s'.requests[a.k].nonce == a.nonce
  {
  }

  /** The settling of a request, however it ends, lets the next one start; and no request is ever stuck. */
  lemma NothingBlocks(s: State, maxRetries: int, k: nat)
    requires Reachable(s, maxRetries) && k < |s.requests| && !s.requests[k].Settled?
    ensures k > 0 && s.requests[k - 1].Settled? ==> s.requests[k].Queued? ==> Step(s, Start(k), maxRetries).Some?
    ensures exists j, a :: 0 <= j <= k && Moves(a, j) && Step(s, a, maxRetries).Some?
  {
    hide NoncesOk, PostsInOrder, AllCounted, RepliesOk, Step, Moves;
    ReachableInv(s, maxRetries);
    var j := FirstUnsettled(s.requests, k);
    if s.requests[j].Queued? { QueuedIsFree(s, j); }
    var a := UnsettledMoves(s, maxRetries, j);
    if k > 0 && s.requests[k - 1].Settled? && s.requests[k].Queued? {
      QueuedIsFree(s, k);
      StartsWhenFree(s, maxRetries, k);
    }
  }

  lemma QueuedIsFree(s: State, k: nat)
    requires Chained(s) && k < |s.requests| && s.requests[k].Queued? && (k > 0 ==> s.requests[k - 1].Settled?)
    ensures Free(s, s.requests[k].after)
  {
  }

  lemma StartsWhenFree(s: State, maxRetries: int, k: nat)
    requires k < |s.requests| && s.requests[k].Queued? && Free(s, s.requests[k].after)
    ensures Step(s, Start(k), maxRetries).Some?
  {
  }

  lemma UnsettledMoves(s: State, maxRetries: int, j: nat) returns (a: Action)
    requires j < |s.requests| && !s.requests[j].Settled?
    requires s.requests[j].Queued? ==> Free(s, s.requests[j].after)
    ensures Moves(a, j) && Step(s, a, maxRetries).Some?
  {
    a := match s.requests[j]
      case Queued(_) => Start(j)
      case AwaitDirectory(_) => DirectoryReady(j)
      case AwaitHead(_) => HeadReply(j, "")
      case HoldNonce(_, _) => Send(j)
      case AwaitPost(_) => PostReply(j, 200, "")
      case AwaitBody(_, _) => BodyParsed(j, NoProblem)
      case Settled(_) => Start(j);
  }

  /** Actions of request `k` other than its failing. */
  predicate Moves(a: Action, k: nat) {
    a == Start(k) || a == DirectoryReady(k) || (a.HeadReply? && a.k == k) || a == Send(k)
    || (a.PostReply? && a.k == k) || (a.BodyParsed? && a.k == k)
  }

  function FirstUnsettled(requests: seq<Pc>, k: nat): (j: nat)
    requires k < |requests| && !requests[k].Settled?
    ensures j <= k && !requests[j].Settled? && forall i | 0 <= i < j :: requests[i].Settled?
  {
    if !requests[0].Settled? then 0 else 1 + FirstUnsettled(requests[1..], k - 1)
  }

  /** An upper bound on the actions a request can still take part in. */
  function Rank(pc: Pc, maxRetries: int): nat {
    match pc
    case Queued(_) => 6 * Retries(maxRetries) + 6
    case AwaitDirectory(attempts) => 6 * Remaining(attempts, maxRetries) + 5
    case AwaitHead(attempts) => 6 * Remaining(attempts, maxRetries) + 4
    case HoldNonce(attempts, _) => 6 * Remaining(attempts, maxRetries) + 3
    case AwaitPost(attempts) => 6 * Remaining(attempts, maxRetries) + 2
    case AwaitBody(attempts, _) => 6 * Remaining(attempts, maxRetries) + 1
    case Settled(_) => 0
  }

  function Remaining(attempts: nat, maxRetries: int): nat {
    if attempts < Retries(maxRetries) then Retries(maxRetries) - attempts else 0
  }

  function TotalRank(requests: seq<Pc>, maxRetries: int): nat {
    if requests == [] then 0
    else TotalRank(requests[..|requests| - 1], maxRetries) + Rank(requests[|requests| - 1], maxRetries)
  }

  lemma {:induction false} TotalRankUpdate(requests: seq<Pc>, k: nat, pc: Pc, maxRetries: int)
    requires k < |requests|
    ensures TotalRank(requests[k := pc], maxRetries)
         == TotalRank(requests, maxRetries) - Rank(requests[k], maxRetries) + Rank(pc, maxRetries)
  {
    var n := |requests| - 1;
    if k < n {
      assert requests[k := pc][..n] == requests[..n][k := pc];
      TotalRankUpdate(requests[..n], k, pc, maxRetries);
    } else {
      assert requests[k := pc][..n] == requests[..n];
    }
  }

  lemma AdvanceLowersRank(s: State, a: Action, maxRetries: int)
    requires !a.Submit? && !a.CallGet? && !a.GetReply? && !a.GetEnds? && a.k < |s.requests|
    requires Advance(s, a, s.requests[a.k], maxRetries).Some?
    ensures var s' := Advance(s, a, s.requests[a.k], maxRetries).value;
      && s'.requests == s.requests[a.k := s'.requests[a.k]]
      && Rank(s'.requests[a.k], maxRetries) < Rank(s.requests[a.k], maxRetries)
  {
  }

  function Submissions(schedule: seq<Action>): nat {
    if schedule == [] then 0 else (if schedule[0].Submit? then 1 else 0) + Submissions(schedule[1..])
  }

  /** The actions that belong to signed requests. */
  function RequestWork(schedule: seq<Action>): nat {
    if schedule == [] then 0
    else (if schedule[0].Submit? || schedule[0].CallGet? || schedule[0].GetReply? || schedule[0].GetEnds? then 0 else 1)
         + RequestWork(schedule[1..])
  }

  /** Whatever the server answers, each submitted request takes part in at most `6 * retries + 6` actions. */
  lemma {:induction false} WorkIsBounded(s: State, schedule: seq<Action>, maxRetries: int)
    requires Execute(s, schedule, maxRetries).Some?
    ensures RequestWork(schedule) + TotalRank(Execute(s, schedule, maxRetries).value.requests, maxRetries)
         <= TotalRank(s.requests, maxRetries) + Submissions(schedule) * (6 * Retries(maxRetries) + 6)
    decreases |schedule|
  {
    hide Step, TotalRank;
    if schedule != [] {
      var a, rest, perRequest := schedule[0], schedule[1..], 6 * Retries(maxRetries) + 6;
      var s' := Step(s, a, maxRetries).value;
      WorkIsBounded(s', rest, maxRetries);
      StepRank(s, a, maxRetries);
      assert a.Submit? ==> Submissions(schedule) * perRequest == perRequest + Submissions(rest) * perRequest;
    }
  }

  lemma StepRank(s: State, a: Action, maxRetries: int)
    requires Step(s, a, maxRetries).Some?
    ensures TotalRank(Step(s, a, maxRetries).value.requests, maxRetries)
      <= TotalRank(s.requests, maxRetries)
         + (if a.Submit? then 6 * Retries(maxRetries) + 6
            else if a.CallGet? || a.GetReply? || a.GetEnds? then 0 else -1)
  {
    hide Advance;
    match a
    case Submit => assert (s.requests + [Queued(s.signedChain)])[..|s.requests|] == s.requests;
    case CallGet =>
    case GetReply(_, _) =>
    case GetEnds(_) =>
    case _ =>
      AdvanceLowersRank(s, a, maxRetries);
      TotalRankUpdate(s.requests, a.k, Step(s, a, maxRetries).value.requests[a.k], maxRetries);
  }
}
