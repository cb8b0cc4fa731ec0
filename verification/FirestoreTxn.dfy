/**
 A Firestore transaction: the SDK's thread runs a service loop inside each
 attempt, taking one request at a time from a slot that Dart's calls fill. The
 steps interleave in every way the locks allow; wakeups may be spurious, posts
 may find no memory, and the SDK may retry as often as it likes.
 */
module FirestoreTxn {
  import opened Bytes

  datatype Request = GetRequest(path: Octets) | CommitRequest(writes: Octets) | AbortRequest

  datatype Kind = NoRequest | GetKind | CommitKind | AbortKind

  /** TxnState, but for its lock and the SDK's handle. A reply port belongs to
      one request and is named by the request's number. */
  datatype Slot = Slot(req: Kind, path: Octets, port: nat, writes: Octets, attempt: nat)

  /** The critical section of fdb_fs_txn_get, _commit and _abort. */
  function Filled(s: Slot, r: Request, number: nat): Slot {
    match r
    case GetRequest(p) => s.(req := GetKind, path := p, port := number)
    case CommitRequest(w) => s.(req := CommitKind, writes := w)
    case AbortRequest => s.(req := AbortKind)
  }

  /** The request the service loop reads from a filled slot. */
  function Seen(s: Slot): Request {
    match s.req
    case GetKind => GetRequest(s.path)
    case CommitKind => CommitRequest(s.writes)
    case _ => AbortRequest
  }

  /** What the loop leaves behind when it takes a request. */
  function Emptied(s: Slot): Slot {
    s.(req := NoRequest, writes := if s.req == CommitKind then [] else s.writes)
  }

  class TxnState {
    var req: Kind
    var getPath: Octets
    var getPort: nat
    var writes: Octets
    var attempt: nat

    function Abs(): Slot
      reads this
    {
      Slot(req, getPath, getPort, writes, attempt)
    }

    constructor ()
      ensures Abs() == Slot(NoRequest, [], 0, [], 0)
    {
      req, getPath, getPort, writes, attempt := NoRequest, [], 0, [], 0;
    }

    method BeginAttempt()
      modifies this
      ensures Abs() == old(Abs()).(attempt := old(attempt) + 1)
    {
      attempt := attempt + 1;
    }

    method Get(path: Octets, port: nat)
      modifies this
      ensures Abs() == Filled(old(Abs()), GetRequest(path), port)
    {
      getPath := path;
      getPort := port;
      req := GetKind;
    }

    method Commit(w: Octets, port: nat)
      modifies this
      ensures Abs() == Filled(old(Abs()), CommitRequest(w), port)
    {
      writes := w;
      req := CommitKind;
    }

    method Abort(port: nat)
      modifies this
      ensures Abs() == Filled(old(Abs()), AbortRequest, port)
    {
      req := AbortKind;
    }

    /** One turn of the service loop, with a request in the slot. */
    method Take() returns (r: Request, reply: nat)
      requires req != NoRequest
      modifies this
      ensures r == Seen(old(Abs())) && reply == old(getPort) && Abs() == Emptied(old(Abs()))
    {
      reply := getPort;
      if req == GetKind {
        r := GetRequest(getPath);
        req := NoRequest;
      } else if req == AbortKind {
        r := AbortRequest;
        req := NoRequest;
      } else {
        r := CommitRequest(writes);
        writes := [];
        req := NoRequest;
      }
    }
  }

  // ---- the interleaving --------------------------------------------------------------

  datatype Event = Attempt(n: nat) | Terminal(seq_: int)

  datatype Holder = Free | Thread | Caller(n: nat)

  /** Where the SDK's thread is; Idle is between attempts. */
  datatype Pc =
    | Idle | WantBegin | Beginning | Checking | Blocked | WantWake | Using
    | Reading(port: nat) | WantLock | Applying | Returning | Erased(error: nat) | Over

  datatype CallPc = Entered | Locked | Wrote | Unlocked | Notified

  /** A request a call carries, the attempt its caller took it to belong to, and
      how far the call is. */
  datatype Call = Call(req: Request, attempt: nat, at: CallPc)

  /** A request the loop took, and the attempt that took it. */
  datatype Use = Use(req: Request, attempt: nat)

  datatype State = State(
    slot: Slot, holder: Holder, pc: Pc,
    calls: seq<Call>,      // accepted requests, numbered as they were issued
    uses: seq<Use>,        // requests taken by the loop, in order
    posts: seq<Event>,     // what reached the transaction's port
    replies: seq<nat>,     // requests whose reply was posted
    registered: bool,      // the id is in g_txns
    refused: nat)          // requests that did not find the id

  const INIT := State(Slot(NoRequest, [], 0, [], 0), Free, Idle, [], [], [], [], true, 0)

  datatype Action =
    | Begin
    | Run
    | Post(hasMemory: bool)
    | Spurious
    | Issue(req: Request)
    | Move(n: nat)
    | Complete(error: nat)

  /** The number of an end is 0 exactly for a completion without an error. */
  function EndOf(error: nat): Event {
    Terminal(if error == 0 then 0 else -1)
  }

  predicate Ended(s: State) {
    s.posts != [] && s.posts[|s.posts| - 1].Terminal?
  }

  /** The client keeps one request outstanding and ends each attempt with one
      commit or abort: it issues a request only during an attempt it was told
      of, and not before the last get was replied to. */
  predicate MayIssue(s: State) {
    && s.posts != [] && s.posts[|s.posts| - 1].Attempt?
    && (s.calls == []
        || s.calls[|s.calls| - 1].attempt < s.posts[|s.posts| - 1].n
        || (s.calls[|s.calls| - 1].req.GetRequest? && |s.calls| - 1 in s.replies))
  }

  /** One step, or None when it cannot be taken. Once the terminal event is out
      a request may come at any time. */
  function Step(s: State, a: Action): Option<State> {
    match a
    case Begin => if s.pc == Idle then Some(s.(pc := WantBegin)) else None
    case Run => RunThread(s)
    case Post(ok) => PostStep(s, ok)
    case Spurious => if s.pc == Blocked then Some(s.(pc := WantWake)) else None
    case Issue(r) =>
      if MayIssue(s) then
        if s.registered then Some(s.(calls := s.calls + [Call(r, s.posts[|s.posts| - 1].n, Entered)]))
        else Some(s.(refused := s.refused + 1))
      else if Ended(s) then
        if s.registered then Some(s.(calls := s.calls + [Call(r, 0, Entered)]))
        else Some(s.(refused := s.refused + 1))
      else None
    case Move(n) => if n < |s.calls| then MoveCall(s, n) else None
    case Complete(error) => if s.pc == Idle then Some(s.(pc := Erased(error), registered := false)) else None
  }

  function RunThread(s: State): Option<State> {
    match s.pc
    case WantBegin =>
      if s.holder == Free then
        Some(s.(pc := Beginning, holder := Thread, slot := s.slot.(attempt := s.slot.attempt + 1)))
      else None
    case Checking => if s.slot.req != NoRequest then Some(s.(pc := Using)) else Some(s.(pc := Blocked, holder := Free))
    case WantWake => if s.holder == Free then Some(s.(pc := Checking, holder := Thread)) else None
    case Using =>
      var used := s.(slot := Emptied(s.slot), uses := s.uses + [Use(Seen(s.slot), s.slot.attempt)], holder := Free);
      if s.slot.req == GetKind then Some(used.(pc := Reading(s.slot.port)))
      else if s.slot.req == AbortKind then Some(used.(pc := Idle))
      else Some(used.(pc := Applying))
    case WantLock => if s.holder == Free then Some(s.(pc := Checking, holder := Thread)) else None
    case Applying => if s.holder == Free then Some(s.(pc := Returning, holder := Thread)) else None
    case Returning => Some(s.(pc := Idle, holder := Free))
    case _ => None
  }

  /** A post: of an attempt, of a reply, or of the end, which comes only after
      the id was erased. */
  function PostStep(s: State, ok: bool): Option<State> {
    match s.pc
    case Beginning => Some(s.(pc := Checking, posts := if ok then s.posts + [Attempt(s.slot.attempt)] else s.posts))
    case Reading(port) => Some(s.(pc := WantLock, replies := if ok then s.replies + [port] else s.replies))
    case Erased(error) =>
      Some(s.(pc := Over, posts := if ok then s.posts + [EndOf(error)] else s.posts))
    case _ => None
  }

  function MoveCall(s: State, n: nat): Option<State>
    requires n < |s.calls|
  {
    var c := s.calls[n];
    match c.at
    case Entered =>
      if s.holder == Free then Some(s.(holder := Caller(n), calls := s.calls[n := c.(at := Locked)])) else None
    case Locked => Some(s.(slot := Filled(s.slot, c.req, n), calls := s.calls[n := c.(at := Wrote)]))
    case Wrote => Some(s.(holder := Free, calls := s.calls[n := c.(at := Unlocked)]))
    case Unlocked =>
      Some(s.(pc := if s.pc == Blocked then WantWake else s.pc, calls := s.calls[n := c.(at := Notified)]))
    case Notified => None
  }

  /** The state after a run, if every step of it could be taken. */
  function After(run: seq<Action>): Option<State> {
    if run == [] then Some(INIT)
    else
      match After(run[..|run| - 1])
      case None => None
      case Some(s) => Step(s, run[|run| - 1])
  }

  // ---- what every step keeps ------------------------------------------------------------

  predicate HoldsLock(pc: Pc) {
    pc == Beginning || pc == Checking || pc == Using || pc == Returning
  }

  /** Inside an attempt whose loop is still taking requests. */
  predicate Serving(pc: Pc) {
    pc == Checking || pc == Blocked || pc == WantWake || pc == Using || pc == WantLock
  }

  predicate Between(pc: Pc) {
    pc == Idle || pc == WantBegin || pc.Erased? || pc == Over
  }

  function Ladder(k: nat): (r: seq<Event>)
    ensures |r| == k
    ensures k > 0 ==> r[k - 1] == Attempt(k)
  {
    seq(k, (i: nat) => Attempt(i + 1))
  }

  /** The attempts posted are 1, 2, 3, …, and only the end comes after them. */
  predicate TraceOk(s: State) {
    if s.pc == Over && Ended(s) then
      |s.posts| == s.slot.attempt + 1 && s.posts[..s.slot.attempt] == Ladder(s.slot.attempt)
      && s.posts[s.slot.attempt].seq_ <= 0
    else
      s.posts == Ladder(|s.posts|)
      && (s.slot.attempt > 0 || Between(s.pc))
      && (if s.pc == Beginning then |s.posts| == s.slot.attempt - 1
          else if Serving(s.pc) then s.slot.attempt - 1 <= |s.posts| <= s.slot.attempt
          else |s.posts| == s.slot.attempt)
  }

  predicate Behind(c: CallPc) {
    c == Unlocked || c == Notified
  }

  predicate LockOk(s: State) {
    && (s.holder == Thread <==> HoldsLock(s.pc))
    && (forall i :: 0 <= i < |s.calls| ==> (s.holder == Caller(i) <==> s.calls[i].at == Locked || s.calls[i].at == Wrote))
    && (s.holder.Caller? ==> s.holder.n < |s.calls|)
  }

  /** Request i is the i-th one taken, as it was issued, in the attempt it was
      issued for; at most one request is outstanding. */
  predicate UsesOk(s: State) {
    && |s.uses| <= |s.calls| <= |s.uses| + 1
    && (forall i :: 0 <= i < |s.uses| ==> s.uses[i] == Use(s.calls[i].req, s.calls[i].attempt) && Behind(s.calls[i].at))
    && (forall i :: 0 <= i < |s.calls| ==> 1 <= s.calls[i].attempt <= s.slot.attempt)
  }

  predicate Delivered(s: State)
    requires s.calls != []
  {
    s.calls[|s.calls| - 1].at == Wrote || Behind(s.calls[|s.calls| - 1].at)
  }

  /** The slot is full exactly when the outstanding request was written to it. */
  predicate SlotOk(s: State) {
    && (s.slot.req != NoRequest <==> |s.calls| == |s.uses| + 1 && Delivered(s))
    && (s.slot.req != NoRequest ==>
          Seen(s.slot) == s.calls[|s.uses|].req && (s.slot.req == GetKind ==> s.slot.port == |s.uses|))
    && (s.slot.req != CommitKind ==> s.slot.writes == [])
    && (|s.calls| == |s.uses| + 1 ==>
          Serving(s.pc) && s.calls[|s.uses|].attempt == s.slot.attempt == |s.posts|)
    && (s.pc == Using ==> s.slot.req != NoRequest)
    && (s.pc == Blocked && s.slot.req != NoRequest ==> s.calls[|s.uses|].at != Notified)
  }

  /** The last request taken says where its attempt is. */
  predicate LastOk(s: State) {
    s.uses != [] && s.uses[|s.uses| - 1].attempt == s.slot.attempt ==>
      var last := s.uses[|s.uses| - 1].req;
      if last.GetRequest? then
        |s.posts| == s.slot.attempt && (Serving(s.pc) || s.pc == Reading(|s.uses| - 1))
      else if last.CommitRequest? then
        s.pc == Applying || s.pc == Returning || Between(s.pc)
      else Between(s.pc)
  }

  /** How many attempts were ended by a commit or an abort. */
  function Finished(s: State): int {
    if Between(s.pc) || s.pc == Applying || s.pc == Returning then s.slot.attempt else s.slot.attempt - 1
  }

  /** Each attempt is ended by one commit or abort, its last request. */
  predicate EndedOk(s: State) {
    && (Finished(s) > 0 ==>
          s.uses != [] && s.uses[|s.uses| - 1].attempt >= Finished(s)
          && (s.uses[|s.uses| - 1].attempt == Finished(s) ==> !s.uses[|s.uses| - 1].req.GetRequest?))
    && (forall i, j :: 0 <= i < j < |s.calls| && s.calls[i].attempt == s.calls[j].attempt ==> s.calls[i].req.GetRequest?)
    && (forall i, j :: 0 <= i < j < |s.calls| ==> s.calls[i].attempt <= s.calls[j].attempt)
  }

  /** Replies go to gets the loop took, each once and in order; a get is without
      one only while it is read, or for want of memory, and then it is the last. */
  predicate RepliesOk(s: State) {
    && (forall i, j :: 0 <= i < j < |s.replies| ==> s.replies[i] < s.replies[j])
    && (forall i :: i in s.replies ==> i < |s.uses| && s.uses[i].req.GetRequest?)
    && (forall i :: 0 <= i < |s.calls| - 1 && s.calls[i].req.GetRequest? ==> i in s.replies)
    && (s.pc.Reading? ==>
          |s.calls| == |s.uses| > 0 && s.pc.port == |s.uses| - 1 && s.pc.port !in s.replies
          && s.uses[|s.uses| - 1].req.GetRequest? && s.uses[|s.uses| - 1].attempt == s.slot.attempt)
  }

  predicate RegisteredOk(s: State) {
    s.registered <==> !s.pc.Erased? && s.pc != Over
  }

  predicate Inv(s: State) {
    && TraceOk(s) && LockOk(s) && UsesOk(s) && SlotOk(s) && LastOk(s) && EndedOk(s) && RepliesOk(s) && RegisteredOk(s)
  }

  // ---- one step at a time ---------------------------------------------------------------

  /** A call's own steps change nothing but how far it is, the lock, the slot's
      request, and whether the thread is still blocked. */
  lemma {:induction false} MoveKeeps(s: State, n: nat)
    requires Step(s, Move(n)).Some?
    ensures var t := Step(s, Move(n)).value;
            && t.posts == s.posts && t.uses == s.uses && t.replies == s.replies && t.registered == s.registered
            && t.refused == s.refused && t.slot.attempt == s.slot.attempt
            && (t.pc == s.pc || (s.pc == Blocked && t.pc == WantWake))
            && n < |s.calls| == |t.calls|
            && forall i :: 0 <= i < |s.calls| ==>
                 t.calls[i].req == s.calls[i].req && t.calls[i].attempt == s.calls[i].attempt
                 && (Behind(s.calls[i].at) ==> Behind(t.calls[i].at)) && (i != n ==> t.calls[i] == s.calls[i])
  {
    hide Ladder, MayIssue, Ended;
  }

  /** What a request the client may issue finds. */
  lemma {:induction false} IssueState(s: State)
    requires TraceOk(s) && UsesOk(s) && LastOk(s) && EndedOk(s) && RepliesOk(s) && RegisteredOk(s) && MayIssue(s)
    ensures |s.calls| == |s.uses| && Serving(s.pc) && s.registered
    ensures 0 < |s.posts| == s.slot.attempt && s.posts[|s.posts| - 1] == Attempt(s.slot.attempt)
    ensures s.calls != [] && s.calls[|s.calls| - 1].attempt == s.slot.attempt ==> s.calls[|s.calls| - 1].req.GetRequest?
    ensures s.calls != [] && s.calls[|s.calls| - 1].req.GetRequest? ==> |s.calls| - 1 in s.replies
  {
    hide LockOk, Ladder;
    assert s.posts == Ladder(|s.posts|);
    if s.calls != [] {
      var last := |s.calls| - 1;
      if |s.calls| == |s.uses| {
        assert s.uses[last] == Use(s.calls[last].req, s.calls[last].attempt);
      }
    }
  }

  lemma {:induction false} StepLock(s: State, a: Action)
    requires LockOk(s) && Step(s, a).Some?
    ensures LockOk(Step(s, a).value)
  {
    hide TraceOk, UsesOk, SlotOk, LastOk, EndedOk, RepliesOk, RegisteredOk, Ladder, MayIssue, Ended, RunThread, MoveCall;
    match a {
      case Run => LockRun(s);
      case Move(n) => LockMove(s, n);
      case _ =>
    }
  }

  lemma {:induction false} LockRun(s: State)
    requires LockOk(s) && RunThread(s).Some?
    ensures LockOk(RunThread(s).value)
  {
    hide Seen, Emptied;
  }

  lemma {:induction false} LockMove(s: State, n: nat)
    requires LockOk(s) && n < |s.calls| && MoveCall(s, n).Some?
    ensures LockOk(MoveCall(s, n).value)
  {
    hide Filled;
  }

  lemma {:induction false} StepTrace(s: State, a: Action)
    requires TraceOk(s) && SlotOk(s) && Step(s, a).Some?
    ensures TraceOk(Step(s, a).value)
  {
    hide LockOk, UsesOk, LastOk, EndedOk, RepliesOk, RegisteredOk, Ladder, MayIssue, Filled, Seen;
    match a {
      case Move(n) => MoveKeeps(s, n); hide Step;
      case Post(_) => LadderStep(|s.posts|); hide SlotOk;
      case Run =>
      case _ => hide SlotOk;
    }
  }

  lemma {:induction false} LadderStep(k: nat)
    ensures Ladder(k) + [Attempt(k + 1)] == Ladder(k + 1)
  {
  }

  lemma {:induction false} StepUses(s: State, a: Action)
    requires Inv(s) && Step(s, a).Some?
    ensures UsesOk(Step(s, a).value)
  {
    hide TraceOk, LastOk, EndedOk, RepliesOk, Ladder, MayIssue, Filled, Seen, RegisteredOk;
    match a {
      case Move(n) => hide LockOk, SlotOk; MoveKeeps(s, n); hide Step;
      case Issue(_) => hide LockOk, SlotOk; if MayIssue(s) { IssueState(s); } else { EndedIsOver(s); }
      case Run => if s.pc == Using { TakenOwn(s); } hide LockOk, SlotOk;
      case _ => hide LockOk, SlotOk;
    }
  }

  /** The terminal event comes after the id is erased. */
  lemma {:induction false} EndedIsOver(s: State)
    requires TraceOk(s) && RegisteredOk(s) && Ended(s)
    ensures s.pc == Over && !s.registered
  {
    hide LockOk, UsesOk, SlotOk, LastOk, EndedOk, RepliesOk, Ladder;
  }

  /** The loop takes the outstanding request, whole, in its own attempt. */
  lemma {:induction false} TakenOwn(s: State)
    requires LockOk(s) && SlotOk(s) && s.pc == Using
    ensures |s.calls| == |s.uses| + 1 && Behind(s.calls[|s.uses|].at)
    ensures Use(Seen(s.slot), s.slot.attempt) == Use(s.calls[|s.uses|].req, s.calls[|s.uses|].attempt)
  {
    hide TraceOk, LastOk, EndedOk, RepliesOk, Seen;
  }

  lemma {:induction false} StepSlot(s: State, a: Action)
    requires Inv(s) && Step(s, a).Some?
    ensures SlotOk(Step(s, a).value)
  {
    hide LastOk, EndedOk, RepliesOk, Ladder, MayIssue, RegisteredOk;
    match a {
      case Move(n) => hide TraceOk; SlotMove(s, n);
      case Issue(_) => hide TraceOk, LockOk; if MayIssue(s) { IssueState(s); } else { EndedIsOver(s); }
      case Run => if s.pc == Using { TakenOwn(s); } hide TraceOk, LockOk, UsesOk;
      case Post(_) => hide LockOk, UsesOk, Seen, Filled;
      case _ => hide TraceOk, LockOk, UsesOk, Seen, Filled;
    }
  }

  lemma {:induction false} SlotMove(s: State, n: nat)
    requires UsesOk(s) && SlotOk(s) && Step(s, Move(n)).Some?
    ensures SlotOk(Step(s, Move(n)).value)
  {
    hide TraceOk, LastOk, EndedOk, RepliesOk, RegisteredOk, Ladder, MayIssue;
    MoveKeeps(s, n);
    if s.calls[n].at == Locked { assert n == |s.uses|; } else { hide Seen, Filled; }
  }

  lemma {:induction false} StepLast(s: State, a: Action)
    requires UsesOk(s) && SlotOk(s) && LastOk(s) && Step(s, a).Some?
    ensures LastOk(Step(s, a).value)
  {
    hide EndedOk, LockOk, RegisteredOk, RepliesOk, Ladder, MayIssue, SlotOk, Finished, RunThread, MoveCall, PostStep;
    if a == Run {
      LastRun(s);
    } else if a.Move? {
      MoveKeeps(s, a.n);
      hide Step, TraceOk, UsesOk;
    } else if a.Post? {
      LastPost(s, a.hasMemory);
    } else {
      hide TraceOk, UsesOk;
    }
  }

  lemma {:induction false} LastPost(s: State, ok: bool)
    requires LastOk(s) && PostStep(s, ok).Some?
    ensures LastOk(PostStep(s, ok).value)
  {
    hide EndedOk, LockOk, RegisteredOk, RepliesOk, Ladder, MayIssue, Filled, Seen, SlotOk, Finished, UsesOk;
  }

  lemma {:induction false} LastRun(s: State)
    requires UsesOk(s) && SlotOk(s) && LastOk(s) && Step(s, Run).Some?
    ensures LastOk(Step(s, Run).value)
  {
    hide EndedOk, LockOk, RegisteredOk, RepliesOk, Ladder, TraceOk, Filled;
    assert s.uses != [] ==> s.uses[|s.uses| - 1].attempt <= s.slot.attempt;
  }

  /** Every other step leaves the requests alone. */
  lemma {:induction false} QuietStep(s: State, a: Action)
    requires Step(s, a).Some? && !a.Move? && !a.Issue? && !(a == Run && s.pc == Using)
    ensures var t := Step(s, a).value;
            && t.calls == s.calls && t.uses == s.uses && Finished(t) == Finished(s) && !t.pc.Reading?
            && t.replies == (if s.pc.Reading? && a == Post(true) then s.replies + [s.pc.port] else s.replies)
  {
    hide Ladder, MayIssue, Ended, Filled, Seen;
  }

  lemma {:induction false} StepEnded(s: State, a: Action)
    requires Inv(s) && Step(s, a).Some?
    ensures EndedOk(Step(s, a).value)
  {
    hide LockOk, RegisteredOk, RepliesOk, Ladder, MayIssue, Filled, TraceOk, Seen, SlotOk, LastOk, UsesOk;
    if a.Move? {
      MoveKeeps(s, a.n); hide Step;
    } else if a.Issue? {
      if MayIssue(s) { EndedIssue(s, a.req); } else { EndedIsOver(s); }
    } else if a == Run && s.pc == Using {
      EndedTake(s);
    } else {
      QuietStep(s, a); hide Step;
    }
  }

  lemma {:induction false} EndedTake(s: State)
    requires LockOk(s) && SlotOk(s) && EndedOk(s) && s.pc == Using
    ensures EndedOk(Step(s, Run).value)
  {
    hide TraceOk, LockOk, LastOk, RegisteredOk, RepliesOk, Filled;
    TakenOwn(s);
  }

  lemma {:induction false} EndedIssue(s: State, r: Request)
    requires TraceOk(s) && UsesOk(s) && SlotOk(s) && LastOk(s) && EndedOk(s) && RepliesOk(s)
    requires RegisteredOk(s) && MayIssue(s) && Step(s, Issue(r)).Some?
    ensures EndedOk(Step(s, Issue(r)).value)
  {
    hide TraceOk, LockOk, LastOk, RegisteredOk, RepliesOk, SlotOk, Filled, MayIssue, Ladder;
    IssueState(s);
    var last := |s.calls| - 1;
    forall i | 0 <= i < |s.calls| && s.calls[i].attempt == s.slot.attempt ensures s.calls[i].req.GetRequest? {
      if i < last { assert s.calls[i].attempt <= s.calls[last].attempt <= s.slot.attempt; }
    }
  }

  lemma {:induction false} StepReplies(s: State, a: Action)
    requires Inv(s) && Step(s, a).Some?
    ensures RepliesOk(Step(s, a).value)
  {
    hide LockOk, RegisteredOk, Ladder, MayIssue, Filled, TraceOk, EndedOk, SlotOk, LastOk, Seen;
    if a.Move? {
      hide UsesOk; MoveKeeps(s, a.n); hide Step;
    } else if a.Issue? {
      if MayIssue(s) { RepliesIssue(s, a.req); } else { EndedIsOver(s); }
    } else if a == Run && s.pc == Using {
      RepliesTake(s);
    } else {
      RepliesQuiet(s, a);
    }
  }

  lemma {:induction false} RepliesQuiet(s: State, a: Action)
    requires RepliesOk(s) && Step(s, a).Some? && !a.Move? && !a.Issue? && !(a == Run && s.pc == Using)
    ensures RepliesOk(Step(s, a).value)
  {
    hide LockOk, RegisteredOk, Ladder, TraceOk, EndedOk, SlotOk, LastOk, UsesOk, Finished;
    QuietStep(s, a);
    hide Step;
    var t := Step(s, a).value;
    if t.replies != s.replies {
      var port := |s.uses| - 1;
      assert t.replies == s.replies + [port];
      forall i | i in t.replies ensures i < |t.uses| && t.uses[i].req.GetRequest? {
        assert i in s.replies || i == port;
      }
      forall i, j | 0 <= i < j < |t.replies| ensures t.replies[i] < t.replies[j] {
        assert t.replies[i] == s.replies[i] && t.replies[i] in s.replies;
      }
      forall i | 0 <= i < |t.calls| - 1 && t.calls[i].req.GetRequest? ensures i in t.replies {
        assert i in s.replies;
      }
    }
  }

  lemma {:induction false} RepliesIssue(s: State, r: Request)
    requires TraceOk(s) && UsesOk(s) && LastOk(s) && EndedOk(s) && RepliesOk(s) && RegisteredOk(s)
    requires MayIssue(s) && Step(s, Issue(r)).Some?
    ensures RepliesOk(Step(s, Issue(r)).value)
  {
    hide LockOk, RegisteredOk, Ladder, TraceOk, EndedOk, SlotOk, LastOk, MayIssue;
    IssueState(s);
  }

  lemma {:induction false} RepliesTake(s: State)
    requires LockOk(s) && SlotOk(s) && RepliesOk(s) && s.pc == Using
    ensures RepliesOk(Step(s, Run).value)
  {
    hide TraceOk, LockOk, LastOk, EndedOk, RegisteredOk;
    TakenOwn(s);
  }

  lemma {:induction false} StepRegistered(s: State, a: Action)
    requires RegisteredOk(s) && Step(s, a).Some?
    ensures RegisteredOk(Step(s, a).value)
  {
    hide TraceOk, LockOk, UsesOk, SlotOk, LastOk, EndedOk, RepliesOk, Ladder, MayIssue, Ended, Filled, Seen, Emptied;
  }

  lemma {:induction false} StepInv(s: State, a: Action)
    requires Inv(s) && Step(s, a).Some?
    ensures Inv(Step(s, a).value)
  {
    hide Step, TraceOk, LockOk, UsesOk, SlotOk, LastOk, EndedOk, RepliesOk, RegisteredOk;
    StepTrace(s, a);
    StepLock(s, a);
    StepUses(s, a);
    StepSlot(s, a);
    StepLast(s, a);
    StepEnded(s, a);
    StepReplies(s, a);
    StepRegistered(s, a);
  }

  lemma {:induction false} RunInv(run: seq<Action>)
    ensures After(run).Some? ==> Inv(After(run).value)
  {
    hide Step;
    if run == [] {
      assert Inv(INIT);
    } else {
      hide Inv;
      var front := run[..|run| - 1];
      RunInv(front);
      if After(run).Some? { StepInv(After(front).value, run[|run| - 1]); }
    }
  }

  // ---- every run ------------------------------------------------------------------------

  /** Every attempt begins with an empty slot, an empty write buffer and no
      request outstanding. */
  lemma {:induction false} FreshAttempt(run: seq<Action>)
    requires After(run).Some? && After(run).value.pc == Beginning
    ensures var s := After(run).value;
            s.slot.req == NoRequest && s.slot.writes == [] && |s.calls| == |s.uses|
  {
    hide TraceOk, LockOk, LastOk, EndedOk, RepliesOk, After;
    RunInv(run);
  }

  /** The i-th request accepted is the i-th one taken, with the very path or
      writes it was issued with, in the attempt it was issued for. */
  lemma {:induction false} OwnAttempt(run: seq<Action>, i: nat)
    requires After(run).Some? && i < |After(run).value.uses|
    ensures var s := After(run).value;
            i < |s.calls| && s.uses[i] == Use(s.calls[i].req, s.calls[i].attempt)
  {
    hide TraceOk, LockOk, LastOk, EndedOk, RepliesOk, SlotOk, After;
    RunInv(run);
  }

  /** No get is replied to twice, nothing else is ever replied to, every get but
      the last request has its reply, and a reply is posted by the attempt that the
      get was issued for. */
  lemma {:induction false} RepliedOnce(run: seq<Action>)
    requires After(run).Some?
    ensures var s := After(run).value;
            && (forall i, j :: 0 <= i < j < |s.replies| ==> s.replies[i] != s.replies[j])
            && (forall i :: i in s.replies ==> i < |s.calls| && i < |s.uses| && s.calls[i].req.GetRequest?)
            && (forall i :: 0 <= i < |s.calls| - 1 && s.calls[i].req.GetRequest? ==> i in s.replies)
            && (s.pc.Reading? ==> s.pc.port < |s.calls| && s.pc.port !in s.replies
                                  && s.calls[s.pc.port].attempt == s.slot.attempt)
  {
    hide TraceOk, LockOk, LastOk, EndedOk, SlotOk, After;
    RunInv(run);
    var s := After(run).value;
    forall i | i in s.replies ensures i < |s.calls| && s.calls[i].req.GetRequest? {
      assert s.uses[i] == Use(s.calls[i].req, s.calls[i].attempt);
    }
  }

  /** An attempt's last request is its one commit or abort; what is issued before
      it in the same attempt is gets. */
  lemma {:induction false} OneEnd(run: seq<Action>, i: nat, j: nat)
    requires After(run).Some? && i < j < |After(run).value.calls|
    ensures var s := After(run).value;
            s.calls[i].attempt == s.calls[j].attempt ==> s.calls[i].req.GetRequest?
  {
    hide TraceOk, LockOk, LastOk, RepliesOk, SlotOk, UsesOk, After;
    RunInv(run);
  }

  predicate HasEnd(s: State, n: int) {
    exists i :: 0 <= i < |s.uses| && s.uses[i].attempt == n && !s.uses[i].req.GetRequest?
  }

  lemma {:induction false} EndAfter(s: State, a: Action, n: int)
    requires Step(s, a).Some? && (1 <= n <= Finished(s) ==> HasEnd(s, n))
    ensures 1 <= n <= Finished(Step(s, a).value) ==> HasEnd(Step(s, a).value, n)
  {
    hide TraceOk, LockOk, LastOk, RepliesOk, EndedOk, UsesOk, Ladder, MayIssue, Filled;
    var t := Step(s, a).value;
    if a == Run && s.pc == Using {
      assert t.uses == s.uses + [Use(Seen(s.slot), s.slot.attempt)];
      assert t.uses[|s.uses|] == Use(Seen(s.slot), s.slot.attempt);
      if HasEnd(s, n) {
        var i :| 0 <= i < |s.uses| && s.uses[i].attempt == n && !s.uses[i].req.GetRequest?;
        assert t.uses[i] == s.uses[i];
      }
    } else {
      if a.Move? { MoveKeeps(s, a.n); } else if !a.Issue? { QuietStep(s, a); }
      assert t.uses == s.uses && Finished(t) == Finished(s);
    }
  }

  /** So every finished attempt was ended by exactly one commit or abort. */
  lemma {:induction false} EachEnded(run: seq<Action>, n: int)
    requires After(run).Some? && 1 <= n <= Finished(After(run).value)
    ensures HasEnd(After(run).value, n)
  {
    hide Inv, Step, HasEnd;
    if run != [] {
      var front, last := run[..|run| - 1], run[|run| - 1];
      RunInv(front);
      if n <= Finished(After(front).value) { EachEnded(front, n); }
      EndAfter(After(front).value, last, n);
    }
  }

  /** No lost wakeup: while the thread is blocked with a request in the slot, the
      call that put it there has its notify still to come, and that wakes it. */
  lemma {:induction false} NoLostWakeup(run: seq<Action>)
    requires After(run).Some?
    requires After(run).value.pc == Blocked && After(run).value.slot.req != NoRequest
    ensures var s := After(run).value;
            var n := |s.uses|;
            && Step(s, Move(n)).Some?
            && (Step(s, Move(n)).value.pc == WantWake
                || (Step(Step(s, Move(n)).value, Move(n)).Some? && Step(Step(s, Move(n)).value, Move(n)).value.pc == WantWake))
  {
    hide TraceOk, LockOk, LastOk, EndedOk, RepliesOk, Filled, Seen, After;
    RunInv(run);
  }

  /** The last step of the run posts the end, and finds memory for it. */
  predicate ReportsEnd(run: seq<Action>) {
    run != [] && run[|run| - 1] == Post(true)
    && After(run[..|run| - 1]).Some? && After(run[..|run| - 1]).value.pc.Erased?
  }

  /** Some step of the run does. */
  predicate Reported(run: seq<Action>) {
    exists i :: 1 <= i <= |run| && ReportsEnd(run[..i])
  }

  lemma {:induction false} ReportedStep(run: seq<Action>)
    requires run != []
    ensures Reported(run) <==> Reported(run[..|run| - 1]) || ReportsEnd(run)
  {
    hide ReportsEnd;
    var front := run[..|run| - 1];
    assert run[..|run|] == run;
    if Reported(front) {
      var i :| 1 <= i <= |front| && ReportsEnd(front[..i]);
      assert run[..i] == front[..i];
    }
    if Reported(run) {
      var i :| 1 <= i <= |run| && ReportsEnd(run[..i]);
      assert i < |run| ==> front[..i] == run[..i];
    }
  }

  lemma {:induction false} EndStep(s: State, a: Action)
    requires TraceOk(s) && RegisteredOk(s) && Step(s, a).Some?
    ensures Ended(Step(s, a).value) <==> Ended(s) || (s.pc.Erased? && a == Post(true))
  {
    hide LockOk, UsesOk, SlotOk, LastOk, EndedOk, RepliesOk, TraceOk, Ladder, MayIssue, Filled, Seen;
    if Ended(s) { EndedIsOver(s); }
    if a.Move? { MoveKeeps(s, a.n); } else if a.Post? { LastAttempt(s); }
  }

  lemma {:induction false} LastAttempt(s: State)
    requires TraceOk(s) && s.pc != Over
    ensures !Ended(s)
  {
    hide LockOk, UsesOk, SlotOk, LastOk, EndedOk, RepliesOk, Ladder, MayIssue;
    if Ended(s) { EndedIsOver(s); }
  }

  lemma {:induction false} EndPosted(run: seq<Action>)
    requires After(run).Some?
    ensures Ended(After(run).value) <==> Reported(run)
  {
    hide TraceOk, LockOk, UsesOk, SlotOk, LastOk, EndedOk, RepliesOk, RegisteredOk;
    hide Step, Reported, Ended;
    if run == [] {
      assert !Reported([]) by { NothingReported(); }
      assert !Ended(INIT) by { NothingPosted(); }
    } else {
      var front := run[..|run| - 1];
      RunInv(front);
      EndPosted(front);
      ReportedStep(run);
      EndStep(After(front).value, run[|run| - 1]);
    }
  }

  lemma {:induction false} NothingReported()
    ensures !Reported([])
  {
  }

  lemma {:induction false} NothingPosted()
    ensures !Ended(INIT)
  {
  }

  /** The number under which a completion ends the transaction: 0 without an
      error, -1 with one. */
  predicate Reports(e: Event, error: nat) {
    && (error == 0 ==> e == Terminal(0))
    && (error > 0 ==> e == Terminal(-1))
  }

  /** Behind an end there is a completion. */
  predicate EndOk(s: State, run: seq<Action>) {
    && (s.pc.Erased? ==> Complete(s.pc.error) in run)
    && (Ended(s) ==> exists a :: a in run && a.Complete? && Reports(s.posts[|s.posts| - 1], a.error))
  }

  lemma {:induction false} EndFromStep(s: State, a: Action, run: seq<Action>)
    requires TraceOk(s) && RegisteredOk(s) && Step(s, a).Some? && EndOk(s, run)
    ensures EndOk(Step(s, a).value, run + [a])
  {
    hide LockOk, UsesOk, SlotOk, LastOk, EndedOk, RepliesOk, TraceOk, Ladder, MayIssue, Filled, Seen, Emptied;
    EndStep(s, a);
    var t, all := Step(s, a).value, run + [a];
    if Ended(s) {
      EndedIsOver(s);
      if a.Move? { MoveKeeps(s, a.n); }
      var b :| b in run && b.Complete? && Reports(s.posts[|s.posts| - 1], b.error);
      assert b in all;
    } else if s.pc.Erased? && a == Post(true) {
      assert Complete(s.pc.error) in all;
    } else if a.Move? {
      MoveKeeps(s, a.n);
    }
  }

  lemma {:induction false} EndFrom(run: seq<Action>)
    requires After(run).Some?
    ensures EndOk(After(run).value, run)
  {
    hide TraceOk, LockOk, UsesOk, SlotOk, LastOk, EndedOk, RepliesOk, RegisteredOk;
    hide Step, EndOk;
    if run == [] {
      assert EndOk(INIT, []) by { NoEndYet(); }
    } else {
      var front, last := run[..|run| - 1], run[|run| - 1];
      assert run == front + [last];
      EndFrom(front);
      RunInv(front);
      EndFromStep(After(front).value, last, front);
    }
  }

  lemma {:induction false} NoEndYet()
    ensures EndOk(INIT, [])
  {
  }

  predicate HasCompletion(run: seq<Action>) {
    exists i :: 0 <= i < |run| && run[i].Complete?
  }

  lemma {:induction false} CompletionStep(s: State, a: Action)
    requires Step(s, a).Some?
    ensures var t := Step(s, a).value;
            (t.pc.Erased? || t.pc == Over) <==> (s.pc.Erased? || s.pc == Over || a.Complete?)
    ensures a.Complete? ==> s.pc == Idle
  {
    hide Ladder, MayIssue, Ended, Filled, Seen, Emptied, MoveCall;
    if a.Move? { MoveKeeps(s, a.n); }
  }

  lemma {:induction false} CompletionReached(run: seq<Action>)
    requires After(run).Some?
    ensures After(run).value.pc.Erased? || After(run).value.pc == Over <==> HasCompletion(run)
  {
    hide Step;
    if run != [] {
      var front, last := run[..|run| - 1], run[|run| - 1];
      CompletionReached(front);
      CompletionStep(After(front).value, last);
      assert run == front + [last];
      if HasCompletion(front) {
        var i :| 0 <= i < |front| && front[i].Complete?;
        assert run[i] == front[i];
      }
      if HasCompletion(run) && !last.Complete? {
        var i :| 0 <= i < |run| && run[i].Complete?;
        assert front[i] == run[i];
      }
    }
  }

  /** A transaction is completed once. */
  lemma {:induction false} OneCompletion(run: seq<Action>, i: nat, j: nat)
    requires After(run).Some? && i < j < |run| && run[i].Complete?
    ensures !run[j].Complete?
    decreases |run|
  {
    hide Step;
    var front, last := run[..|run| - 1], run[|run| - 1];
    if j < |front| {
      OneCompletion(front, i, j);
    } else {
      CompletionReached(front);
      assert front[i].Complete?;
      CompletionStep(After(front).value, last);
    }
  }

  /** The events of a run are the attempts 1, 2, …, k, and behind them the
      terminal one, exactly when the post after the id was erased found memory:
      once and at the very end, under 0 exactly when the transaction was completed
      without an error, and under -1 exactly when it was completed with one. */
  lemma {:induction false} Trace(run: seq<Action>)
    requires After(run).Some?
    ensures var s := After(run).value;
            var p := s.posts;
            if Reported(run) then
              && p != [] && p[..|p| - 1] == Ladder(|p| - 1) && s.pc == Over
              && (p[|p| - 1] == Terminal(0) || p[|p| - 1] == Terminal(-1))
              && (p[|p| - 1] == Terminal(0) <==> Complete(0) in run)
              && (p[|p| - 1] == Terminal(-1) <==> exists error :: error > 0 && Complete(error) in run)
            else p == Ladder(|p|)
  {
    hide LockOk, UsesOk, SlotOk, LastOk, EndedOk, RepliesOk, Ladder, After, Reported;
    RunInv(run);
    EndPosted(run);
    EndFrom(run);
    if Reported(run) {
      var s := After(run).value;
      EndedIsOver(s);
      var a :| a in run && a.Complete? && Reports(s.posts[|s.posts| - 1], a.error);
      forall b | b in run && b.Complete? ensures b == a {
        var i :| 0 <= i < |run| && run[i] == a;
        var j :| 0 <= j < |run| && run[j] == b;
        if i < j { OneCompletion(run, i, j); } else if j < i { OneCompletion(run, j, i); }
      }
      assert a == Complete(a.error);
    }
  }

  /** When the terminal event is out the id is dead already, every request that
      was accepted was taken, and every get among them has its reply. */
  lemma {:induction false} NothingLeftBehind(run: seq<Action>)
    requires After(run).Some? && Ended(After(run).value)
    ensures var s := After(run).value;
            && !s.registered && |s.calls| == |s.uses|
            && forall i :: 0 <= i < |s.calls| && s.calls[i].req.GetRequest? ==> i in s.replies
  {
    hide LockOk, LastOk, TraceOk, Ladder, After;
    RunInv(run);
    var s := After(run).value;
    EndedIsOver(s);
    if s.calls != [] {
      var last := |s.calls| - 1;
      assert s.uses[last] == Use(s.calls[last].req, s.calls[last].attempt);
    }
  }

  /** From then on nothing is posted, and every request is refused. */
  lemma {:induction false} TerminalIsLast(run: seq<Action>, a: Action)
    requires After(run).Some? && Ended(After(run).value) && Step(After(run).value, a).Some?
    ensures var s, t := After(run).value, Step(After(run).value, a).value;
            && t.posts == s.posts && t.replies == s.replies && t.uses == s.uses && |t.calls| == |s.calls| && Ended(t)
            && (a.Issue? ==> t == s.(refused := s.refused + 1))
  {
    hide LockOk, UsesOk, SlotOk, LastOk, EndedOk, RepliesOk, TraceOk, Ladder, MayIssue, After;
    RunInv(run);
    EndedIsOver(After(run).value);
    if a.Move? { MoveKeeps(After(run).value, a.n); }
  }

  /** The attempt, or the reply its client is waiting for, found no memory. */
  predicate PostLost(s: State) {
    Serving(s.pc) &&
    (|s.posts| < s.slot.attempt
     || (s.uses != [] && s.uses[|s.uses| - 1].attempt == s.slot.attempt && |s.uses| == |s.calls|
         && s.uses[|s.uses| - 1].req.GetRequest? && |s.uses| - 1 !in s.replies))
  }

  lemma {:induction false} LostState(s: State)
    requires TraceOk(s) && UsesOk(s) && SlotOk(s) && LastOk(s) && EndedOk(s) && PostLost(s)
    ensures |s.calls| == |s.uses| && s.slot.req == NoRequest && !MayIssue(s) && !Ended(s)
  {
    hide LockOk, Ladder;
    if s.calls != [] {
      var last := |s.calls| - 1;
      if |s.calls| == |s.uses| { assert s.uses[last] == Use(s.calls[last].req, s.calls[last].attempt); }
    }
    if MayIssue(s) { IssueState(s); }
  }

  lemma {:induction false} LostStep(s: State, a: Action)
    requires TraceOk(s) && UsesOk(s) && SlotOk(s) && LastOk(s) && EndedOk(s) && RegisteredOk(s) && PostLost(s)
    requires Step(s, a).Some?
    ensures var t := Step(s, a).value;
            PostLost(t) && t.posts == s.posts && t.replies == s.replies && t.uses == s.uses && |t.calls| == |s.calls|
  {
    LostState(s);
    hide Inv, Ladder, MayIssue, Ended, Filled, Seen;
    if a.Move? { MoveKeeps(s, a.n); hide Step; } else { LostQuiet(s, a); }
  }

  lemma {:induction false} LostQuiet(s: State, a: Action)
    requires TraceOk(s) && UsesOk(s) && SlotOk(s) && LastOk(s) && EndedOk(s) && PostLost(s)
    requires Step(s, a).Some? && !a.Move?
    ensures var t := Step(s, a).value;
            PostLost(t) && t.posts == s.posts && t.replies == s.replies && t.uses == s.uses && t.calls == s.calls
  {
    hide TraceOk, LockOk, UsesOk, LastOk, EndedOk, RepliesOk, RegisteredOk, Ladder, MayIssue, Ended, Filled, Seen;
    LostState(s);
  }

  /** Then the transaction is stuck for good: the client, not told, asks for
      nothing, and nothing is posted or taken any more. */
  lemma {:induction false} LostForever(run: seq<Action>, more: seq<Action>)
    requires After(run).Some? && PostLost(After(run).value) && After(run + more).Some?
    ensures var s, t := After(run).value, After(run + more).value;
            PostLost(t) && t.posts == s.posts && t.replies == s.replies && t.uses == s.uses
    decreases more
  {
    hide TraceOk, LockOk, UsesOk, SlotOk, LastOk, EndedOk, RepliesOk, RegisteredOk;
    hide Step, PostLost;
    if more == [] {
      assert run + more == run;
    } else {
      var front, last := more[..|more| - 1], more[|more| - 1];
      assert (run + more)[..|run + more| - 1] == run + front;
      LostForever(run, front);
      RunInv(run + front);
      LostStep(After(run + front).value, last);
    }
  }

  /** Short of that there is no deadlock: some step is always possible that is
      not a spurious wakeup, until the transaction is over. */
  lemma {:induction false} NoDeadlock(run: seq<Action>) returns (a: Action)
    requires After(run).Some? && After(run).value.pc != Over && !PostLost(After(run).value)
    ensures Step(After(run).value, a).Some? && !a.Spurious?
  {
    hide TraceOk, LockOk, UsesOk, SlotOk, LastOk, EndedOk, RepliesOk, RegisteredOk;
    hide After, Step, PostLost;
    RunInv(run);
    a := SomeStep(After(run).value);
  }

  lemma {:induction false} SomeStep(s: State) returns (a: Action)
    requires TraceOk(s) && LockOk(s) && UsesOk(s) && SlotOk(s) && LastOk(s) && s.pc != Over && !PostLost(s)
    ensures Step(s, a).Some? && !a.Spurious?
  {
    hide TraceOk, SlotOk, UsesOk, LastOk, EndedOk, RepliesOk, RegisteredOk, PostLost, MayIssue, Ended, Filled, Seen, Emptied;
    if s.holder.Caller? { return Move(s.holder.n); }
    match s.pc {
      case Idle => return Begin;
      case Beginning => return Post(true);
      case Reading(_) => return Post(true);
      case Erased(_) => return Post(true);
      case Blocked => a := BlockedStep(s);
      case _ => return Run;
    }
  }

  lemma {:induction false} BlockedStep(s: State) returns (a: Action)
    requires TraceOk(s) && UsesOk(s) && SlotOk(s) && LastOk(s) && s.pc == Blocked && s.holder == Free && !PostLost(s)
    ensures Step(s, a).Some? && !a.Spurious?
  {
    hide TraceOk, LastOk, EndedOk, RepliesOk, RegisteredOk, PostLost, MayIssue, Ended, Filled, Seen, Emptied, RunThread;
    if |s.calls| == |s.uses| + 1 {
      a := Move(|s.uses|);
    } else {
      IdleClient(s);
      a := Issue(AbortRequest);
    }
  }

  /** A thread that waits for a request the client is free to make. */
  lemma {:induction false} IdleClient(s: State)
    requires TraceOk(s) && UsesOk(s) && LastOk(s) && Serving(s.pc) && !PostLost(s) && |s.calls| == |s.uses|
    ensures MayIssue(s)
  {
    hide LockOk, Ladder;
    assert s.posts == Ladder(|s.posts|);
    if s.calls != [] {
      var last := |s.calls| - 1;
      assert s.uses[last] == Use(s.calls[last].req, s.calls[last].attempt);
    }
  }
}
