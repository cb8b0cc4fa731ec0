/**
 A Database transaction: the SDK's thread runs the handler once per attempt,
 posts the current value and parks on a condition variable until Dart answers.
 The steps of both sides interleave in every way the locks allow; wakeups may be
 spurious, a post may find no memory, and several answers may be in flight.
 */
module DatabaseTxn {
  import opened Bytes
  import opened Variants
  import opened VariantDecode

  /** DbTxnState, but for its lock. */
  datatype Slot = Slot(answered: bool, abort: bool, isNull: bool, value: Octets, attempt: nat)

  /** What a caller hands fdb_db_txn_apply. */
  datatype Answer = Answer(cbor: Octets, abort: bool)

  datatype Outcome = Abandon | Store(v: Variant)

  /** What an answer asks for: no bytes ask for null, and bytes that do not
      decode abandon the transaction. */
  function Meant(a: Answer): Outcome {
    if a.abort then Abandon
    else if a.cbor == [] then Store(NullV)
    else match Parse(a.cbor) case None => Abandon case Some(v) => Store(v)
  }

  /** The first critical section of an attempt. */
  function Renew(s: Slot): Slot {
    s.(answered := false, attempt := s.attempt + 1)
  }

  /** The critical section of fdb_db_txn_apply. */
  function Answered(s: Slot, a: Answer): Slot {
    Slot(true, a.abort, a.cbor == [], a.cbor, s.attempt)
  }

  /** What the parked thread makes of the slot when it wakes. */
  function Taken(s: Slot): Outcome {
    if s.abort then Abandon
    else if s.isNull then Store(NullV)
    else match Parse(s.value) case None => Abandon case Some(v) => Store(v)
  }

  class DbTxnState {
    var answered: bool
    var abort: bool
    var isNull: bool
    var value: Octets
    var attempt: nat

    function Abs(): Slot
      reads this
    {
      Slot(answered, abort, isNull, value, attempt)
    }

    constructor ()
      ensures Abs() == Slot(false, false, false, [], 0)
    {
      answered, abort, isNull, value, attempt := false, false, false, [], 0;
    }

    method BeginAttempt() returns (n: nat)
      modifies this
      ensures Abs() == Renew(old(Abs())) && n == attempt
    {
      answered := false;
      attempt := attempt + 1;
      n := attempt;
    }

    method Apply(a: Answer)
      modifies this
      ensures Abs() == Answered(old(Abs()), a)
    {
      abort := a.abort;
      isNull := a.cbor == [];
      value := a.cbor;
      answered := true;
    }

    method Take() returns (r: Outcome)
      ensures r == Taken(Abs())
    {
      if abort { return Abandon; }
      if isNull { return Store(NullV); }
      var it := Cursor.Start(value);
      if it.None? { return Abandon; }
      var v := DecodeVariant(it.value);
      r := if v.Got? then Store(v.value) else Abandon;
    }
  }

  // ---- the interleaving --------------------------------------------------------------

  datatype Event = Attempt(n: nat) | Terminal(seq_: int)

  datatype Holder = Free | Thread | Caller(n: nat)

  /** Where the SDK's thread is; Idle is between attempts. */
  datatype Pc =
    | Idle | WantReset | InReset | ResetDone | WantPost | WantWait
    | Checking | Blocked | WantWake | Using | Ending | Over

  /** Where a call of fdb_db_txn_apply is. Refused: it did not find the id. */
  datatype CallPc = Entered | Locked | Wrote | Unlocked | Notified | Refused

  datatype Call = Call(answer: Answer, at: CallPc)

  datatype State = State(
    slot: Slot, holder: Holder, pc: Pc,
    calls: map<nat, Call>,      // by the attempt they answer
    posts: seq<Event>,          // what reached the port
    outcomes: seq<Outcome>,     // of the attempts that finished
    registered: bool)           // the id is in g_db_txns

  const INIT := State(Slot(false, false, false, [], 0), Free, Idle, map[], [], [], true)

  /** Memory says whether a post found memory for its buffer. */
  datatype Action =
    | Begin
    | Run
    | Post(hasMemory: bool)
    | Spurious
    | Enter(n: nat, answer: Answer)
    | Move(n: nat)
    | Complete(error: nat, hasMemory: bool)
    | Unregister

  /** One step, or None when it cannot be taken. The client answers an attempt
      only after it was posted, and each only once. */
  function Step(s: State, a: Action): Option<State> {
    match a
    case Begin => if s.pc == Idle then Some(s.(pc := WantReset)) else None
    case Run => RunThread(s)
    case Post(ok) =>
      if s.pc != WantPost then None
      else Some(s.(pc := WantWait, posts := if ok then s.posts + [Attempt(s.slot.attempt)] else s.posts))
    case Spurious => if s.pc == Blocked then Some(s.(pc := WantWake)) else None
    case Enter(n, answer) =>
      if Attempt(n) !in s.posts || n in s.calls then None
      else Some(s.(calls := s.calls[n := Call(answer, if s.registered then Entered else Refused)]))
    case Move(n) => if n in s.calls then MoveCall(s, n) else None
    case Complete(error, ok) =>
      if s.pc != Idle then None
      else Some(s.(pc := Ending, posts := if ok then s.posts + [Terminal(0 - error)] else s.posts))
    case Unregister => if s.pc == Ending then Some(s.(pc := Over, registered := false)) else None
  }

  function RunThread(s: State): Option<State> {
    match s.pc
    case WantReset => if s.holder == Free then Some(s.(pc := InReset, holder := Thread)) else None
    case InReset => Some(s.(pc := ResetDone, slot := Renew(s.slot)))
    case ResetDone => Some(s.(pc := WantPost, holder := Free))
    case WantWait => if s.holder == Free then Some(s.(pc := Checking, holder := Thread)) else None
    case Checking => if s.slot.answered then Some(s.(pc := Using)) else Some(s.(pc := Blocked, holder := Free))
    case WantWake => if s.holder == Free then Some(s.(pc := Checking, holder := Thread)) else None
    case Using => Some(s.(pc := Idle, holder := Free, outcomes := s.outcomes + [Taken(s.slot)]))
    case _ => None
  }

  function MoveCall(s: State, n: nat): Option<State>
    requires n in s.calls
  {
    var c := s.calls[n];
    match c.at
    case Entered =>
      if s.holder == Free then Some(s.(holder := Caller(n), calls := s.calls[n := c.(at := Locked)])) else None
    case Locked => Some(s.(slot := Answered(s.slot, c.answer), calls := s.calls[n := c.(at := Wrote)]))
    case Wrote => Some(s.(holder := Free, calls := s.calls[n := c.(at := Unlocked)]))
    case Unlocked =>
      Some(s.(pc := if s.pc == Blocked then WantWake else s.pc, calls := s.calls[n := c.(at := Notified)]))
    case _ => None
  }

  /** The state after a run, if every step of it could be taken. */
  function After(run: seq<Action>): Option<State> {
    if run == [] then Some(INIT)
    else
      match After(run[..|run| - 1])
      case None => None
      case Some(s) => Step(s, run[|run| - 1])
  }

  // ---- what every step keeps ------------------------------------------------------------

  predicate HoldsLock(pc: Pc) {
    pc == InReset || pc == ResetDone || pc == Checking || pc == Using
  }

  /** An attempt was posted, or should have been, and is not finished. */
  predicate Waiting(pc: Pc) {
    pc == WantWait || pc == Checking || pc == Blocked || pc == WantWake
  }

  predicate Between(pc: Pc) {
    pc == Idle || pc == WantReset || pc == InReset || pc == Ending || pc == Over
  }

  function Ladder(k: nat): (r: seq<Event>)
    ensures |r| == k
  {
    seq(k, (i: nat) => Attempt(i + 1))
  }

  /** The attempts posted are 1, 2, 3, …, and only the end comes after them. */
  predicate TraceOk(s: State) {
    if s.pc == Ending || s.pc == Over then
      s.posts == Ladder(s.slot.attempt)
      || (|s.posts| == s.slot.attempt + 1 && s.posts == Ladder(s.slot.attempt) + [s.posts[s.slot.attempt]]
          && s.posts[s.slot.attempt].Terminal? && s.posts[s.slot.attempt].seq_ <= 0)
    else
      s.posts == Ladder(|s.posts|)
      && (if Between(s.pc) || s.pc == Using then |s.posts| == s.slot.attempt
          else if Waiting(s.pc) then s.slot.attempt - 1 <= |s.posts| <= s.slot.attempt
          else |s.posts| == s.slot.attempt - 1)
  }

  predicate LockOk(s: State) {
    && (s.holder == Thread <==> HoldsLock(s.pc))
    && (forall n :: n in s.calls ==> (s.holder == Caller(n) <==> s.calls[n].at == Locked || s.calls[n].at == Wrote))
    && (s.holder.Caller? ==> s.holder.n in s.calls)
  }

  predicate Behind(c: CallPc) {
    c == Unlocked || c == Notified
  }

  /** Finished attempts were answered by calls that are past their writes, and
      each took what its own answer meant. */
  predicate PastOk(s: State) {
    && |s.outcomes| == (if Between(s.pc) then s.slot.attempt else s.slot.attempt - 1)
    && forall n :: 1 <= n <= |s.outcomes| ==>
         n in s.calls && Behind(s.calls[n].at) && s.outcomes[n - 1] == Meant(s.calls[n].answer)
  }

  predicate HasWritten(s: State, n: nat) {
    n in s.calls && (s.calls[n].at == Wrote || Behind(s.calls[n].at))
  }

  /** The slot is answered exactly when the current attempt's own call wrote it. */
  predicate CurrentOk(s: State) {
    && (forall n :: n in s.calls ==> 1 <= n <= s.slot.attempt && Attempt(n) in s.posts)
    && (forall n :: n in s.calls ==> s.calls[n].at != Refused)
    && (!Between(s.pc) ==>
          (s.slot.answered <==> HasWritten(s, s.slot.attempt)))
    && (!Between(s.pc) && s.slot.answered ==> Taken(s.slot) == Meant(s.calls[s.slot.attempt].answer))
    && (s.pc == Using ==> s.slot.answered)
    && (s.pc == Blocked && s.slot.answered ==> s.calls[s.slot.attempt].at != Notified)
  }

  predicate Inv(s: State) {
    && LockOk(s)
    && TraceOk(s)
    && PastOk(s)
    && CurrentOk(s)
    && (s.registered <==> s.pc != Over)
  }

  lemma {:induction false} LadderStep(k: nat)
    ensures Ladder(k) + [Attempt(k + 1)] == Ladder(k + 1)
    ensures forall n: nat :: Attempt(n) in Ladder(k) <==> 1 <= n <= k
  {
    forall n: nat | 1 <= n <= k ensures Attempt(n) in Ladder(k) {
      assert Ladder(k)[n - 1] == Attempt(n);
    }
  }

  lemma {:induction false} StepLock(s: State, a: Action)
    requires LockOk(s) && Step(s, a).Some?
    ensures LockOk(Step(s, a).value)
  {
    hide TraceOk, PastOk, CurrentOk, Taken, Renew, Answered, Ladder, RunThread, MoveCall;
    match a {
      case Run => LockRun(s);
      case Move(n) => LockMove(s, n);
      case _ =>
    }
  }

  lemma {:induction false} LockRun(s: State)
    requires LockOk(s) && RunThread(s).Some?
    ensures LockOk(RunThread(s).value)
  {
    hide Taken, Renew;
  }

  lemma {:induction false} LockMove(s: State, n: nat)
    requires LockOk(s) && n in s.calls && MoveCall(s, n).Some?
    ensures LockOk(MoveCall(s, n).value)
  {
    hide Answered;
  }

  lemma {:induction false} StepTrace(s: State, a: Action)
    requires TraceOk(s) && CurrentOk(s) && Step(s, a).Some?
    ensures TraceOk(Step(s, a).value)
  {
    hide LockOk, PastOk, Taken, Ladder, Answered;
    match a {
      case Run => if s.pc == Checking && s.slot.answered { AnsweredPosted(s); } hide CurrentOk;
      case Move(n) => hide CurrentOk; MoveKeeps(s, n);
      case Post(_) => hide CurrentOk; LadderStep(|s.posts|);
      case _ => hide CurrentOk;
    }
  }

  /** An answered attempt is one that was posted. */
  lemma {:induction false} AnsweredPosted(s: State)
    requires TraceOk(s) && CurrentOk(s) && !Between(s.pc) && s.slot.answered
    ensures |s.posts| == s.slot.attempt
  {
    hide LockOk, PastOk, Taken, Ladder;
    LadderStep(|s.posts|);
    assert HasWritten(s, s.slot.attempt);
    assert Attempt(s.slot.attempt) in s.posts;
  }

  /** A call changes none of the history. */
  lemma {:induction false} MoveKeeps(s: State, n: nat)
    requires Step(s, Move(n)).Some?
    ensures var t := Step(s, Move(n)).value;
            && t.posts == s.posts && t.outcomes == s.outcomes && t.slot.attempt == s.slot.attempt
            && (t.pc == s.pc || (s.pc == Blocked && t.pc == WantWake))
            && n in s.calls && t.calls.Keys == s.calls.Keys
            && forall m :: m in s.calls ==>
                 t.calls[m].answer == s.calls[m].answer && (Behind(s.calls[m].at) ==> Behind(t.calls[m].at))
  {
    hide Taken, Ladder;
  }

  lemma {:induction false} StepPast(s: State, a: Action)
    requires LockOk(s) && PastOk(s) && CurrentOk(s) && Step(s, a).Some?
    ensures PastOk(Step(s, a).value)
  {
    hide TraceOk, Taken, Meant, HasWritten, LockOk, CurrentOk, Ladder;
    match a {
      case Run => if s.pc == Using { FinishPast(s); }
      case Move(n) => hide Step; MoveKeeps(s, n);
      case _ =>
    }
  }

  lemma {:induction false} FinishPast(s: State)
    requires LockOk(s) && PastOk(s) && CurrentOk(s) && s.pc == Using
    ensures PastOk(Step(s, Run).value)
  {
    hide TraceOk, Taken, Meant;
    var k := s.slot.attempt;
    assert HasWritten(s, k) && s.calls[k].at != Wrote;
  }

  lemma {:induction false} CurrentRun(s: State)
    requires CurrentOk(s) && Step(s, Run).Some?
    ensures CurrentOk(Step(s, Run).value)
  {
    hide TraceOk, Taken, Meant;
    assert s.slot.attempt !in s.calls || Attempt(s.slot.attempt) in s.posts;
  }

  lemma {:induction false} CurrentMove(s: State, n: nat)
    requires CurrentOk(s) && Step(s, Move(n)).Some? && s.calls[n].at != Locked
    ensures CurrentOk(Step(s, Move(n)).value)
  {
    hide TraceOk, PastOk, Taken, Meant;
    MoveKeeps(s, n);
  }

  /** Only the current attempt's call can be about to write. */
  lemma {:induction false} CurrentWrite(s: State, n: nat)
    requires PastOk(s) && CurrentOk(s) && n in s.calls && s.calls[n].at == Locked
    ensures n == s.slot.attempt && !Between(s.pc)
    ensures CurrentOk(Step(s, Move(n)).value)
  {
    hide TraceOk, Parse;
    assert n > |s.outcomes|;
  }

  lemma {:induction false} CurrentEnter(s: State, n: nat, answer: Answer)
    requires Inv(s) && Step(s, Enter(n, answer)).Some?
    ensures CurrentOk(Step(s, Enter(n, answer)).value)
  {
    hide Taken, Meant, Ladder;
    LadderStep(|s.posts|);
    LadderStep(s.slot.attempt);
  }

  lemma {:induction false} StepCurrent(s: State, a: Action)
    requires Inv(s) && Step(s, a).Some?
    ensures CurrentOk(Step(s, a).value)
  {
    hide Taken, Meant, Ladder, LockOk, TraceOk, PastOk;
    match a {
      case Run => CurrentRun(s);
      case Move(n) => if s.calls[n].at == Locked { CurrentWrite(s, n); } else { CurrentMove(s, n); }
      case Enter(n, answer) => CurrentEnter(s, n, answer);
      case _ =>
    }
  }

  lemma {:induction false} StepRegistered(s: State, a: Action)
    requires Inv(s) && Step(s, a).Some?
    ensures Step(s, a).value.registered <==> Step(s, a).value.pc != Over
  {
    hide Taken, Meant, Ladder, LockOk, TraceOk, PastOk, CurrentOk;
  }

  lemma {:induction false} StepInv(s: State, a: Action)
    requires Inv(s) && Step(s, a).Some?
    ensures Inv(Step(s, a).value)
  {
    hide Step, LockOk, TraceOk, PastOk, CurrentOk;
    StepLock(s, a);
    StepTrace(s, a);
    StepPast(s, a);
    StepCurrent(s, a);
    StepRegistered(s, a);
  }

  lemma {:induction false} RunInv(run: seq<Action>)
    ensures After(run).Some? ==> Inv(After(run).value)
  {
    if run != [] {
      var front := run[..|run| - 1];
      RunInv(front);
      if After(run).Some? { StepInv(After(front).value, run[|run| - 1]); }
    }
  }

  // ---- every run ------------------------------------------------------------------------

  /** The calls of a run are the answers given in it, one for each attempt. */
  /** A step leaves every call its answer, and makes one only for an answer given. */
  lemma {:induction false} CallsStep(s: State, a: Action)
    requires Step(s, a).Some?
    ensures forall n :: n in s.calls ==> n in Step(s, a).value.calls && Step(s, a).value.calls[n].answer == s.calls[n].answer
    ensures forall n :: n in Step(s, a).value.calls ==>
              n in s.calls || a == Enter(n, Step(s, a).value.calls[n].answer)
    ensures a.Enter? ==> a.n in Step(s, a).value.calls && Step(s, a).value.calls[a.n].answer == a.answer
  {
    hide Taken, Renew, Answered, Meant, MoveCall;
    if a.Move? { MoveKeeps(s, a.n); }
  }

  lemma {:induction false} CallsGiven(run: seq<Action>)
    requires After(run).Some?
    ensures forall n, a :: Enter(n, a) in run ==> n in After(run).value.calls && After(run).value.calls[n].answer == a
    ensures forall n :: n in After(run).value.calls ==> Enter(n, After(run).value.calls[n].answer) in run
  {
    hide Step;
    if run != [] {
      var front, last := run[..|run| - 1], run[|run| - 1];
      CallsGiven(front);
      CallsStep(After(front).value, last);
      var s, t := After(front).value, After(run).value;
      hide After;
      assert run == front + [last];
    }
  }

  /** The outcome of attempt n is what the answer given for n meant: an attempt
      never uses the answer of another one, and each finished one had its own. */
  lemma {:induction false} RightAnswer(run: seq<Action>, n: nat)
    requires After(run).Some? && 1 <= n <= |After(run).value.outcomes|
    ensures exists a :: Enter(n, a) in run && After(run).value.outcomes[n - 1] == Meant(a)
    ensures forall a :: Enter(n, a) in run ==> After(run).value.outcomes[n - 1] == Meant(a)
  {
    hide Meant, TraceOk, LockOk, CurrentOk, After;
    RunInv(run);
    CallsGiven(run);
    var s := After(run).value;
    assert Enter(n, s.calls[n].answer) in run;
  }

  /** In particular an attempt whose answer was to abort is abandoned, one that was
      answered without bytes stores null, one that was answered with the encoding
      of a value stores that value's normal form, and one with bytes that do not
      decode is abandoned. */
  lemma {:induction false} AnswersStored(run: seq<Action>, n: nat, a: Answer)
    requires After(run).Some? && 1 <= n <= |After(run).value.outcomes| && Enter(n, a) in run
    ensures a.abort ==> After(run).value.outcomes[n - 1] == Abandon
    ensures !a.abort && a.cbor == [] ==> After(run).value.outcomes[n - 1] == Store(NullV)
    ensures !a.abort && a.cbor != [] && Parse(a.cbor).None? ==> After(run).value.outcomes[n - 1] == Abandon
    ensures !a.abort && a.cbor != [] && Parse(a.cbor).Some? ==>
              After(run).value.outcomes[n - 1] == Store(Parse(a.cbor).value)
  {
    RightAnswer(run, n);
    hide After, Parse;
  }

  /** An answer to a posted attempt always finds the transaction. */
  lemma {:induction false} NeverRefused(run: seq<Action>, n: nat)
    requires After(run).Some? && n in After(run).value.calls
    ensures After(run).value.calls[n].at != Refused
  {
    hide TraceOk, LockOk, After;
    RunInv(run);
  }

  /** No lost wakeup: while the thread is blocked with its answer set, the call
      that set it has its notify still to come, and that will wake it. */
  lemma {:induction false} NoLostWakeup(run: seq<Action>)
    requires After(run).Some?
    requires After(run).value.pc == Blocked && After(run).value.slot.answered
    ensures var s := After(run).value;
            var n := s.slot.attempt;
            && Step(s, Move(n)).Some?
            && (Step(s, Move(n)).value.pc == WantWake
                || (Step(Step(s, Move(n)).value, Move(n)).Some? && Step(Step(s, Move(n)).value, Move(n)).value.pc == WantWake))
  {
    hide TraceOk, After, Taken, Meant;
    RunInv(run);
    var s := After(run).value;
    var n := s.slot.attempt;
    assert HasWritten(s, n) && s.calls[n].at != Notified;
  }

  /** What a step posts. */
  function Posted(s: State, a: Action): seq<Event> {
    match a
    case Post(ok) => if ok then [Attempt(s.slot.attempt)] else []
    case Complete(error, ok) => if ok then [Terminal(0 - error)] else []
    case _ => []
  }

  lemma {:induction false} StepPosts(s: State, a: Action)
    requires Step(s, a).Some?
    ensures Step(s, a).value.posts == s.posts + Posted(s, a)
  {
    hide Taken, Renew, Answered, Meant, MoveCall;
    if a.Move? { MoveKeeps(s, a.n); }
  }

  lemma {:induction false} PostsEnd(s: State, a: Action, error: nat)
    ensures Terminal(0 - error) in Posted(s, a) <==> a == Complete(error, true)
  {
  }

  /** What the end of the transaction posts, if it finds memory. */
  lemma {:induction false} EndPosted(run: seq<Action>, error: nat)
    requires After(run).Some?
    ensures Terminal(0 - error) in After(run).value.posts <==> Complete(error, true) in run
  {
    hide Step, Posted;
    if run != [] {
      var front, last := run[..|run| - 1], run[|run| - 1];
      var s := After(front).value;
      EndPosted(front, error);
      StepPosts(s, last);
      assert After(run).value.posts == s.posts + Posted(s, last);
      hide After;
      assert Terminal(0 - error) in Posted(s, last) <==> last == Complete(error, true) by { PostsEnd(s, last, error); }
      assert run == front + [last];
    }
  }

  lemma {:induction false} EndReached(run: seq<Action>)
    requires After(run).Some?
    ensures var pc := After(run).value.pc;
            pc == Ending || pc == Over <==> exists error, ok :: Complete(error, ok) in run
  {
    hide Taken, Renew, Answered, Meant;
    if run != [] {
      var front, last := run[..|run| - 1], run[|run| - 1];
      assert run == front + [last];
      EndReached(front);
      match last {
        case Complete(error, ok) => assert Complete(error, ok) in run;
        case Move(n) => MoveKeeps(After(front).value, n);
        case _ =>
      }
    }
  }

  ghost predicate Reported(run: seq<Action>) {
    exists error :: Complete(error, true) in run
  }

  /** The events of a run are the attempts 1, 2, …, k, and behind them the
      terminal one, exactly when the transaction was completed with memory for
      it: once, carrying that completion's number, and only at the end. */
  lemma {:induction false} Trace(run: seq<Action>)
    requires After(run).Some?
    ensures var s := After(run).value;
            var p := s.posts;
            if Reported(run) then
              p != [] && p[..|p| - 1] == Ladder(|p| - 1) && p[|p| - 1].Terminal?
              && (s.pc == Ending || s.pc == Over)
            else p == Ladder(|p|)
    ensures forall error: nat :: Complete(error, true) in run ==>
              var p := After(run).value.posts; p != [] && p[|p| - 1] == Terminal(0 - error)
    ensures var pc := After(run).value.pc;
            pc == Ending || pc == Over <==> exists error, ok :: Complete(error, ok) in run
  {
    hide LockOk, PastOk, CurrentOk, Ladder, After;
    RunInv(run);
    EndReached(run);
    var s := After(run).value;
    var p, k := s.posts, s.slot.attempt;
    if Reported(run) {
      forall error: nat | Complete(error, true) in run
        ensures p != [] && p[..|p| - 1] == Ladder(|p| - 1) && p[|p| - 1] == Terminal(0 - error)
      {
        EndPosted(run, error);
        OnlyAttempts(|p|);
        OnlyAttempts(k);
        assert p != Ladder(|p|);
        assert p[..|p| - 1] == Ladder(k);
        assert Terminal(0 - error) in Ladder(k) + [p[k]];
      }
    } else if p != Ladder(|p|) {
      EndPosted(run, 0 - p[k].seq_);
    }
  }

  lemma {:induction false} OnlyAttempts(k: nat)
    ensures forall e :: e in Ladder(k) ==> e.Attempt?
  {
  }

  /** Nothing is posted once the transaction ended. */
  lemma {:induction false} TerminalIsLast(s: State, a: Action)
    requires (s.pc == Ending || s.pc == Over) && Step(s, a).Some?
    ensures Step(s, a).value.posts == s.posts && (Step(s, a).value.pc == Ending || Step(s, a).value.pc == Over)
  {
  }

  /** There was no memory for the current attempt's buffer. */
  predicate PostLost(s: State) {
    Waiting(s.pc) && |s.posts| < s.slot.attempt
  }

  lemma {:induction false} LostStep(s: State, a: Action)
    requires TraceOk(s) && CurrentOk(s) && PostLost(s) && Step(s, a).Some?
    ensures PostLost(Step(s, a).value) && Step(s, a).value.posts == s.posts
  {
    hide LockOk, PastOk, Taken, Meant, Ladder, Answered, Renew;
    match a {
      case Run => if s.slot.answered { AnsweredPosted(s); } hide CurrentOk;
      case Move(n) => hide CurrentOk; MoveKeeps(s, n);
      case _ => hide CurrentOk;
    }
  }

  /** Then the thread stays parked for good: nobody knows to answer, and the
      transaction never posts again, not even that it ended. */
  lemma {:induction false} LostForever(run: seq<Action>, more: seq<Action>)
    requires After(run).Some? && PostLost(After(run).value) && After(run + more).Some?
    ensures PostLost(After(run + more).value) && After(run + more).value.posts == After(run).value.posts
    decreases more
  {
    hide LockOk, TraceOk, PastOk, CurrentOk;
    hide Step;
    if more == [] {
      assert run + more == run;
    } else {
      var front, last := more[..|more| - 1], more[|more| - 1];
      assert (run + more)[..|run + more| - 1] == run + front;
      LostForever(run, front);
      RunInv(run + front);
      LostStep(After(run + front).value, last);
    }
  }

  /** Short of that there is no deadlock: some step is always possible that is
      not a spurious wakeup, until the transaction is over. */
  lemma {:induction false} NoDeadlock(run: seq<Action>) returns (a: Action)
    requires After(run).Some? && After(run).value.pc != Over && !PostLost(After(run).value)
    ensures Step(After(run).value, a).Some? && !a.Spurious?
  {
    hide Taken, Meant, Ladder, After;
    RunInv(run);
    var s := After(run).value;
    var k := s.slot.attempt;
    if s.holder.Caller? { return Move(s.holder.n); }
    match s.pc {
      case Idle => return Begin;
      case WantPost => return Post(true);
      case Ending => return Unregister;
      case Blocked =>
        if k in s.calls { return Move(k); }
        LadderStep(|s.posts|);
        return Enter(k, Answer([], true));
      case _ => return Run;
    }
  }
}
