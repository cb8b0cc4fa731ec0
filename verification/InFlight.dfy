/**
 The references that storage operations and callable functions run on: each lives
 in a list until a later call finds that its operation's completion is through.
 */
module InFlight {
  import opened Bytes
  import opened Framing

  // ---- the list ---------------------------------------------------------------------

  /** The entries whose done flag is not set, in order. */
  function Undone(s: seq<nat>, done: set<nat>): (r: seq<nat>)
    ensures forall id :: id in r <==> id in s && id !in done
  {
    if s == [] then [] else (if s[0] in done then [] else [s[0]]) + Undone(s[1..], done)
  }

  /** And those whose flag is. */
  function Purged(s: seq<nat>, done: set<nat>): (r: seq<nat>)
    ensures forall id :: id in r <==> id in s && id in done
  {
    if s == [] then [] else (if s[0] in done then [s[0]] else []) + Purged(s[1..], done)
  }

  /** Both go through the list entry by entry and keep its order. */
  lemma {:induction false} UndoneInOrder(s: seq<nat>, t: seq<nat>, done: set<nat>)
    ensures Undone(s + t, done) == Undone(s, done) + Undone(t, done)
  {
    if s == [] {
      assert s + t == t;
    } else {
      UndoneInOrder(s[1..], t, done);
      ConsTail(s, t);
      Associate(if s[0] in done then [] else [s[0]], Undone(s[1..], done), Undone(t, done));
    }
  }

  lemma {:induction false} PurgedInOrder(s: seq<nat>, t: seq<nat>, done: set<nat>)
    ensures Purged(s + t, done) == Purged(s, done) + Purged(t, done)
  {
    if s == [] {
      assert s + t == t;
    } else {
      PurgedInOrder(s[1..], t, done);
      ConsTail(s, t);
      Associate(if s[0] in done then [s[0]] else [], Purged(s[1..], done), Purged(t, done));
    }
  }

  lemma {:induction false} ConsTail(s: seq<nat>, t: seq<nat>)
    requires s != []
    ensures (s + t)[0] == s[0] && (s + t)[1..] == s[1..] + t
  {
  }

  lemma {:induction false} Associate(a: seq<nat>, b: seq<nat>, c: seq<nat>)
    ensures a + b + c == a + (b + c)
  {
  }

  lemma {:induction false} EntryByEntry(id: nat, done: set<nat>)
    ensures Undone([id], done) == if id in done then [] else [id]
    ensures Purged([id], done) == if id in done then [id] else []
  {
    assert [id][1..] == [];
  }

  class Retained {
    /** The references, named by the call that created them. */
    var inflight: seq<nat>
    var next: nat

    constructor ()
      ensures inflight == [] && next == 0
    {
      inflight, next := [], 0;
    }

    /** Retain, and the opening of fdb_functions_call: purge, then push_back. The
        references of the purged entries are destroyed. */
    method Retain(done: set<nat>) returns (id: nat, destroyed: seq<nat>)
      modifies this
      ensures id == old(next) && next == id + 1
      ensures inflight == Undone(old(inflight), done) + [id]
      ensures destroyed == Purged(old(inflight), done)
    {
      hide Undone, Purged;
      var list, kept: seq<nat> := inflight, [];
      destroyed := [];
      assert list[0..] == list;
      for i := 0 to |list|
        invariant inflight == list && next == old(next)
        invariant kept + Undone(list[i..], done) == Undone(list, done)
        invariant destroyed + Purged(list[i..], done) == Purged(list, done)
      {
        SplitFirst(list, i, done);
        if list[i] in done {
          destroyed := destroyed + [list[i]];
        } else {
          kept := kept + [list[i]];
        }
      }
      NoneLeft(list[|list|..], done);
      id := next;
      next := next + 1;
      inflight := kept + [id];
    }
  }

  lemma {:induction false} SplitFirst(s: seq<nat>, i: nat, done: set<nat>)
    requires i < |s|
    ensures Undone(s[i..], done) == (if s[i] in done then [] else [s[i]]) + Undone(s[i + 1..], done)
    ensures Purged(s[i..], done) == (if s[i] in done then [s[i]] else []) + Purged(s[i + 1..], done)
  {
    assert s[i..][0] == s[i] && s[i..][1..] == s[i + 1..];
  }

  lemma {:induction false} NoneLeft(s: seq<nat>, done: set<nat>)
    requires s == []
    ensures Undone(s, done) == [] && Purged(s, done) == []
  {
  }

  // ---- the interleaving ----------------------------------------------------------------

  /** Where the SDK is with an operation. Unstarted: there was no memory for the
      caller's bytes. Through: its completion has set the done flag as the last
      thing it does, but has not returned yet. */
  datatype Phase = Unstarted | Running | Completing | Through | Returned

  datatype State = State(
    inflight: seq<nat>, next: nat, done: set<nat>,
    phases: map<nat, Phase>,
    destroyed: set<nat>)

  const INIT := State([], 0, {}, map[], {})

  /** Return without SetDone is the success path of a download. */
  datatype Action = Start(started: bool) | Complete(id: nat) | SetDone(id: nat) | Return(id: nat)

  function Moved(s: State, id: nat, p: Phase): State {
    s.(phases := s.phases[id := p])
  }

  function Step(s: State, a: Action): Option<State> {
    match a
    case Start(started) =>
      Some(State(Undone(s.inflight, s.done) + [s.next], s.next + 1, s.done,
                 s.phases[s.next := if started then Running else Unstarted],
                 s.destroyed + set id | id in s.inflight && id in s.done))
    case Complete(id) =>
      if id in s.phases && s.phases[id] == Running then Some(Moved(s, id, Completing)) else None
    case SetDone(id) =>
      if id in s.phases && s.phases[id] == Completing
      then Some(Moved(s, id, Through).(done := s.done + {id})) else None
    case Return(id) =>
      if id in s.phases && (s.phases[id] == Completing || s.phases[id] == Through)
      then Some(Moved(s, id, Returned)) else None
  }

  function After(run: seq<Action>): Option<State> {
    if run == [] then Some(INIT)
    else match After(run[..|run| - 1]) case None => None case Some(s) => Step(s, run[|run| - 1])
  }

  ghost predicate Inv(s: State) {
    && (forall id: nat :: id in s.phases <==> id < s.next)
    && (forall id :: id in s.phases <==> id in s.inflight || id in s.destroyed)
    && (forall id :: id in s.inflight ==> id !in s.destroyed)
    && (forall id :: id in s.done ==> id in s.phases && (s.phases[id] == Through || s.phases[id] == Returned))
    && s.destroyed <= s.done
  }

  lemma {:induction false} StepInv(s: State, a: Action)
    requires Inv(s) && Step(s, a).Some?
    ensures Inv(Step(s, a).value)
  {
  }

  lemma {:induction false} RunInv(run: seq<Action>)
    ensures After(run).Some? ==> Inv(After(run).value)
  {
    if run == [] {
      assert Inv(INIT);
    } else {
      hide Step, Inv;
      RunInv(run[..|run| - 1]);
      if After(run).Some? { StepInv(After(run[..|run| - 1]).value, run[|run| - 1]); }
    }
  }

  /** No operation outlives the reference that started it: while the SDK runs or
      completes one, its reference is in the list and not destroyed. */
  lemma {:induction false} NeverOutlived(run: seq<Action>, id: nat)
    requires After(run).Some? && id in After(run).value.phases
    requires After(run).value.phases[id] == Running || After(run).value.phases[id] == Completing
    ensures id in After(run).value.inflight && id !in After(run).value.destroyed
  {
    hide After;
    RunInv(run);
  }

  /** A reference is destroyed only by the purge of a later call, and only when its
      own completion has set its flag. */
  lemma {:induction false} DestroyedByLater(run: seq<Action>, a: Action, id: nat)
    requires After(run).Some? && Step(After(run).value, a).Some?
    requires id !in After(run).value.destroyed && id in Step(After(run).value, a).value.destroyed
    ensures a.Start? && id < After(run).value.next && id in After(run).value.done
    ensures SetDone(id) in run
  {
    hide Inv;
    RunInv(run);
    FlagSet(run, id);
    assert id < After(run).value.next by { Bounded(run, id); }
  }

  lemma {:induction false} Bounded(run: seq<Action>, id: nat)
    requires After(run).Some? && id in After(run).value.done
    ensures id < After(run).value.next
  {
    hide After;
    RunInv(run);
  }

  lemma {:induction false} FlagSet(run: seq<Action>, id: nat)
    requires After(run).Some? && id in After(run).value.done
    ensures SetDone(id) in run
  {
    var front, last := run[..|run| - 1], run[|run| - 1];
    assert run == front + [last];
    if id in After(front).value.done { FlagSet(front, id); }
  }

  lemma {:induction false} FlagKept(run: seq<Action>, id: nat)
    requires After(run).Some? && SetDone(id) in run
    ensures id in After(run).value.done
  {
    var front, last := run[..|run| - 1], run[|run| - 1];
    assert run == front + [last];
    if last != SetDone(id) { FlagKept(front, id); }
  }

  /** A call was made after the completion had set the flag. */
  predicate PurgedLater(run: seq<Action>, id: nat) {
    exists i, k :: 0 <= i < k < |run| && run[i] == SetDone(id) && run[k].Start?
  }

  lemma {:induction false} PurgedStep(run: seq<Action>, id: nat)
    requires run != []
    ensures var front, last := run[..|run| - 1], run[|run| - 1];
            PurgedLater(run, id) <==> PurgedLater(front, id) || (last.Start? && SetDone(id) in front)
  {
    var front, last := run[..|run| - 1], run[|run| - 1];
    if PurgedLater(front, id) {
      var i, k :| 0 <= i < k < |front| && front[i] == SetDone(id) && front[k].Start?;
      assert run[i] == front[i] && run[k] == front[k];
    }
    if last.Start? && SetDone(id) in front {
      var i :| 0 <= i < |front| && front[i] == SetDone(id);
      assert run[i] == front[i] && run[|front|] == last;
    }
    if PurgedLater(run, id) {
      var i, k :| 0 <= i < k < |run| && run[i] == SetDone(id) && run[k].Start?;
      assert front[i] == run[i] && (k < |front| ==> front[k] == run[k]);
    }
  }

  /** A reference is destroyed exactly when some call was made after its flag was
      set. */
  lemma {:induction false} DestroyedExactly(run: seq<Action>, id: nat)
    requires After(run).Some?
    ensures id in After(run).value.destroyed <==> PurgedLater(run, id)
  {
    hide PurgedLater, Inv, Undone;
    if run == [] {
      assert !PurgedLater([], id) by { NothingPurged(id); }
    } else {
      var front, last := run[..|run| - 1], run[|run| - 1];
      DestroyedExactly(front, id);
      PurgedStep(run, id);
      if SetDone(id) in front { FlagKept(front, id); }
      if id in After(front).value.done { FlagSet(front, id); Known(front, id); }
    }
  }

  lemma {:induction false} NothingPurged(id: nat)
    ensures !PurgedLater([], id)
  {
  }

  lemma {:induction false} Known(run: seq<Action>, id: nat)
    requires After(run).Some? && id in After(run).value.done
    ensures id in After(run).value.inflight || id in After(run).value.destroyed
  {
    hide After;
    RunInv(run);
  }

  /** So an operation that has not returned outlives its reference exactly when its
      completion is past setting the flag and another call came in since. */
  lemma {:induction false} OutlivedExactly(run: seq<Action>, id: nat)
    requires After(run).Some? && id in After(run).value.phases && After(run).value.phases[id] != Returned
    ensures id in After(run).value.destroyed <==> After(run).value.phases[id] == Through && PurgedLater(run, id)
  {
    hide After, PurgedLater;
    RunInv(run);
    DestroyedExactly(run, id);
  }

  /** Reclamation is another matter: a reference whose flag is never set, as after
      a download that succeeded or an upload that found no memory, stays. */
  lemma {:induction false} Unflagged(run: seq<Action>, id: nat)
    requires After(run).Some? && id in After(run).value.phases && SetDone(id) !in run
    ensures id in After(run).value.inflight
  {
    hide After;
    RunInv(run);
    if id in After(run).value.done { FlagSet(run, id); }
  }

  /** The flag is all a purge waits for: a reference may be destroyed before the
      completion that set the flag has returned. */
  lemma {:induction false} BeforeReturn() returns (run: seq<Action>)
    ensures After(run).Some?
    ensures 0 in After(run).value.destroyed && 0 in After(run).value.phases && After(run).value.phases[0] == Through
  {
    var r1 := [Start(true)];
    var r2 := r1 + [Complete(0)];
    var r3 := r2 + [SetDone(0)];
    run := r3 + [Start(true)];
    assert r1[..0] == [] && r2[..1] == r1 && r3[..2] == r2 && run[..3] == r3;
    assert After([]) == Some(INIT);
    assert After(r1).value == State([0], 1, {}, map[0 := Running], {});
    assert After(r2).value == Moved(After(r1).value, 0, Completing);
    assert After(r3).value == Moved(After(r2).value, 0, Through).(done := {0});
  }

  // ---- a download's buffer ----------------------------------------------------------------

  /** The completion of fdb_storage_get, when there was no error: what arrived is
      posted from the buffer it arrived in, and never more than was asked for. */
  method FinishGet(vm: Vm, port: int, now: I64, buf: array<Byte>, capacity: nat, received: Option<nat>)
    requires buf.Length == HEADER_SIZE + capacity
    modifies vm, buf
    ensures var n := match received case None => 0 case Some(k) => if k > capacity then capacity else k;
            vm.posts == old(vm.posts) + [Message(port, Frame(1, now, old(buf[HEADER_SIZE..HEADER_SIZE + n]), []))]
  {
    hide Frame;
    var n := if received.None? then 0 else received.value;
    vm.PostBufferOwned(port, 1, now, buf, if n > capacity then capacity else n);
  }
}
