/**
 App Check's parked requests: the SDK asks for a token on its own threads, the
 request waits under a number, and Dart answers whenever it likes, from any
 thread and with any number.
 */
module AppCheck {
  import opened Bytes

  /** Names the SDK's call whose completion is parked. */
  type Completion = nat

  datatype Result = Result(token: Octets, expiry: I64, code: I32, message: Octets)

  /** The arguments of fdb_ac_supply_token but for the number. */
  datatype Answer = Answer(token: Octets, expiry: I64, code: I64, message: Octets)

  /** What the completion is called with: an error carries no token, and its code
      is narrowed to an int. */
  function Delivered(a: Answer): Result {
    if a.code == 0 then Result(a.token, a.expiry, 0, a.message)
    else Result([], 0, ToI32(a.code), a.message)
  }

  /** The end of fdb_ac_supply_token: a fresh token is filled in only without an
      error, and whatever else was supplied is passed on. */
  method Deliver(token: Octets, expiry: I64, code: I64, message: Octets) returns (r: Result)
    ensures r == Delivered(Answer(token, expiry, code, message))
    ensures code == 0 ==> r == Result(token, expiry, 0, message)
    ensures code != 0 ==> r.token == [] && r.expiry == 0 && r.message == message
    ensures (r.code - code) % 0x1_0000_0000 == 0
  {
    var resultToken: Octets, resultExpiry: I64 := [], 0;
    if code == 0 {
      resultToken := token;
      resultExpiry := expiry;
    }
    r := Result(resultToken, resultExpiry, ToI32(code), message);
  }

  /** So an error is reported as success, with an empty token, exactly when its
      low 32 bits are zero. */
  lemma {:induction false} LostErrors(a: Answer)
    requires a.code != 0
    ensures Delivered(a).token == []
    ensures Delivered(a).code == 0 <==> a.code % TWO_TO_32 == 0
  {
    var m := a.code % TWO_TO_32;
    assert Delivered(a).code == ToI32(a.code) == if m < 0x8000_0000 then m else m - TWO_TO_32;
  }

  // ---- the registry ------------------------------------------------------------------

  /** g_next_request, g_provider_port and g_pending. */
  datatype Reg = Reg(next: nat, port: int, pending: map<int, Completion>)

  /** The critical section of fdb_ac_use_custom_provider: port 0 is refused. */
  function Provided(r: Reg, port: int): Reg {
    if port == 0 then r else r.(port := port)
  }

  /** That of GetToken: without a port the request is not parked. */
  function Parked(r: Reg, c: Completion): Reg {
    if r.port == 0 then r.(next := r.next + 1)
    else Reg(r.next + 1, r.port, r.pending[r.next := c])
  }

  /** That of fdb_ac_supply_token. */
  function Taken(r: Reg, id: int): Reg {
    r.(pending := r.pending - {id})
  }

  class Registry {
    var next: nat
    var port: int
    var pending: map<int, Completion>

    function Abs(): Reg
      reads this
    {
      Reg(next, port, pending)
    }

    constructor ()
      ensures Abs() == Reg(1, 0, map[])
    {
      next, port, pending := 1, 0, map[];
    }

    /** fdb_ac_use_custom_provider. */
    method UseCustomProvider(p: int) returns (rc: int)
      modifies this
      ensures rc == if p == 0 then -2 else 0
      ensures Abs() == Provided(old(Abs()), p)
    {
      if p == 0 { return -2; }
      port := p;
      rc := 0;
    }

    /** The critical section of GetToken; `parked` says that it did not fail. */
    method GetToken(c: Completion) returns (id: nat, parked: bool)
      modifies this
      ensures id == old(next) && parked == (port != 0) && Abs() == Parked(old(Abs()), c)
    {
      id := next;
      next := next + 1;
      parked := port != 0;
      if parked {
        pending := pending[id := c];
      }
    }

    /** fdb_ac_supply_token: the request's completion and what it is called with,
        behind the lock. */
    method SupplyToken(id: int, answer: Answer) returns (rc: int, called: Option<(Completion, Result)>)
      modifies this
      ensures rc == if id in old(pending) then 0 else -1
      ensures called == if id in old(pending) then Some((old(pending)[id], Delivered(answer))) else None
      ensures Abs() == Taken(old(Abs()), id)
    {
      var completion := Claim(id);
      if completion.None? { return -1, None; }
      var result := Deliver(answer.token, answer.expiry, answer.code, answer.message);
      return 0, Some((completion.value, result));
    }

    /** The critical section of fdb_ac_supply_token. */
    method Claim(id: int) returns (c: Option<Completion>)
      modifies this
      ensures c == if id in old(pending) then Some(old(pending)[id]) else None
      ensures Abs() == Taken(old(Abs()), id)
    {
      if id !in pending {
        assert pending - {id} == pending;
        return None;
      }
      c := Some(pending[id]);
      pending := pending - {id};
    }
  }

  // ---- the interleaving ----------------------------------------------------------------

  datatype Ran = Ran(id: int, completion: Completion, result: Result)

  datatype Claimed = Claimed(completion: Completion, result: Result)

  datatype State = State(
    reg: Reg,
    installed: bool,               // the SDK has the factory, and may ask
    unposted: set<int>,            // parked, but not yet sent to the port
    posts: seq<int>,               // numbers that reached a port
    claimed: map<int, Claimed>,    // taken by a supply, completion still to run
    ran: seq<Ran>,                 // completions run, in order
    underLock: nat,                // completions run while g_mutex was held
    issued: map<int, Completion>,  // every number given out so far
    accepted: map<int, Answer>)    // supplies that answered 0

  const INIT := State(Reg(1, 0, map[]), false, {}, [], map[], [], 0, map[], map[])

  datatype Action =
    | Provide(port: int)
    | Install
    | Get(c: Completion)
    | Post(id: int, hasMemory: bool)
    | Supply(id: int, answer: Answer)
    | Finish(id: int)

  /** The factory is installed only after its port was stored. */
  function Step(s: State, a: Action): Option<State> {
    match a
    case Provide(p) => Some(s.(reg := Provided(s.reg, p)))
    case Install => if s.reg.port != 0 then Some(s.(installed := true)) else None
    case Get(c) =>
      if !s.installed then None
      else if s.reg.port == 0 then
        Some(s.(reg := Parked(s.reg, c), underLock := s.underLock + 1, issued := s.issued[s.reg.next := c]))
      else
        Some(s.(reg := Parked(s.reg, c), unposted := s.unposted + {s.reg.next}, issued := s.issued[s.reg.next := c]))
    case Post(id, ok) =>
      if id !in s.unposted then None
      else Some(s.(unposted := s.unposted - {id}, posts := if ok then s.posts + [id] else s.posts))
    case Supply(id, answer) =>
      if id !in s.reg.pending then Some(s)
      else
        Some(s.(reg := Taken(s.reg, id),
                claimed := s.claimed[id := Claimed(s.reg.pending[id], Delivered(answer))],
                accepted := s.accepted[id := answer]))
    case Finish(id) =>
      if id !in s.claimed then None
      else
        Some(s.(claimed := s.claimed - {id},
                ran := s.ran + [Ran(id, s.claimed[id].completion, s.claimed[id].result)]))
  }

  /** What fdb_ac_supply_token returns. */
  function SupplyCode(s: State, id: int): int {
    if id in s.reg.pending then 0 else -1
  }

  function After(run: seq<Action>): Option<State> {
    if run == [] then Some(INIT)
    else
      match After(run[..|run| - 1])
      case None => None
      case Some(s) => Step(s, run[|run| - 1])
  }

  predicate RanId(s: State, id: int) {
    exists i :: 0 <= i < |s.ran| && s.ran[i].id == id
  }

  /** Every number given out is in exactly one place. */
  ghost predicate Split(s: State) {
    && (forall id :: id in s.issued <==> 1 <= id < s.reg.next)
    && (forall id :: id in s.issued <==> id in s.reg.pending || id in s.claimed || RanId(s, id))
    && (forall id :: id in s.reg.pending ==> id !in s.claimed && !RanId(s, id))
    && (forall id :: id in s.claimed ==> !RanId(s, id))
  }

  /** And carries its own completion there, with its own answer. */
  ghost predicate Own(s: State) {
    && (forall id :: id in s.reg.pending && id in s.issued ==> s.reg.pending[id] == s.issued[id])
    && (forall id :: id in s.claimed ==>
          id in s.issued && id in s.accepted && s.claimed[id] == Claimed(s.issued[id], Delivered(s.accepted[id])))
    && (forall i :: 0 <= i < |s.ran| ==>
          var id := s.ran[i].id;
          id in s.issued && id in s.accepted && s.ran[i] == Ran(id, s.issued[id], Delivered(s.accepted[id])))
    && (forall id :: id in s.accepted <==> id in s.claimed || RanId(s, id))
  }

  predicate Once(s: State) {
    forall i, j :: 0 <= i < j < |s.ran| ==> s.ran[i].id != s.ran[j].id
  }

  /** No post announces a number twice, or one that was not given out. */
  predicate Announced(s: State) {
    && (forall id :: id in s.unposted ==> id in s.issued && id !in s.posts)
    && (forall i :: 0 <= i < |s.posts| ==> s.posts[i] in s.issued)
    && (forall i, j :: 0 <= i < j < |s.posts| ==> s.posts[i] != s.posts[j])
  }

  ghost predicate Inv(s: State) {
    && Split(s) && Own(s) && Once(s) && Announced(s)
    && (s.installed ==> s.reg.port != 0)
    && s.underLock == 0
    && s.reg.next >= 1
  }

  lemma {:induction false} RanAfter(s: State, r: Ran, id: int)
    ensures var t := s.(ran := s.ran + [r]); RanId(t, id) <==> RanId(s, id) || id == r.id
  {
    var t := s.(ran := s.ran + [r]);
    if RanId(s, id) {
      var i :| 0 <= i < |s.ran| && s.ran[i].id == id;
      assert t.ran[i].id == id;
    }
    if id == r.id { assert t.ran[|s.ran|].id == id; }
  }

  lemma {:induction false} FinishInv(s: State, id: int)
    requires Inv(s) && Step(s, Finish(id)).Some?
    ensures Inv(Step(s, Finish(id)).value)
  {
    var r := Ran(id, s.claimed[id].completion, s.claimed[id].result);
    var t := Step(s, Finish(id)).value;
    assert t.ran == s.ran + [r];
    forall k ensures RanId(t, k) <==> RanId(s, k) || k == id {
      RanAfter(s, r, k);
      assert RanId(t, k) == RanId(s.(ran := s.ran + [r]), k);
    }
    forall i | 0 <= i < |s.ran| ensures s.ran[i].id != id {
      assert RanId(s, s.ran[i].id);
    }
    hide RanId;
  }

  lemma {:induction false} GetInv(s: State, c: Completion)
    requires Inv(s) && Step(s, Get(c)).Some?
    ensures Inv(Step(s, Get(c)).value)
  {
    var t := Step(s, Get(c)).value;
    SameRan(s, t);
    assert s.reg.next !in s.issued;
    hide RanId, Delivered;
    assert Split(t);
    assert Own(t);
    assert Announced(t) by {
      forall i | 0 <= i < |s.posts| ensures s.posts[i] != s.reg.next { assert s.posts[i] in s.issued; }
    }
  }

  lemma {:induction false} SupplySplit(s: State, id: int, answer: Answer)
    requires Inv(s)
    ensures Split(Step(s, Supply(id, answer)).value)
  {
    SameRan(s, Step(s, Supply(id, answer)).value);
    hide RanId, Delivered, Own, Once, Announced;
  }

  lemma {:induction false} SupplyOwn(s: State, id: int, answer: Answer)
    requires Inv(s)
    ensures Own(Step(s, Supply(id, answer)).value)
  {
    SameRan(s, Step(s, Supply(id, answer)).value);
    hide RanId, Delivered, Once, Announced;
  }

  lemma {:induction false} SupplyInv(s: State, id: int, answer: Answer)
    requires Inv(s)
    ensures Inv(Step(s, Supply(id, answer)).value)
  {
    hide Split, Own, Delivered;
    SupplySplit(s, id, answer);
    SupplyOwn(s, id, answer);
  }

  lemma {:induction false} PostInv(s: State, id: int, ok: bool)
    requires Inv(s) && Step(s, Post(id, ok)).Some?
    ensures Inv(Step(s, Post(id, ok)).value)
  {
    var t := Step(s, Post(id, ok)).value;
    SameRan(s, t);
    hide RanId, Delivered;
    assert Announced(t) by {
      hide Split, Own, Once;
      assert id in s.issued && id !in s.posts;
      forall i, j | 0 <= i < j < |t.posts| ensures t.posts[i] != t.posts[j] {
        assert t.posts[i] == s.posts[i] && s.posts[i] in s.posts;
      }
    }
    hide Announced;
  }

  lemma {:induction false} ProvideInv(s: State, a: Action)
    requires Inv(s) && Step(s, a).Some? && (a.Provide? || a.Install?)
    ensures Inv(Step(s, a).value)
  {
    var t := Step(s, a).value;
    SameRan(s, t);
    hide RanId, Delivered;
    assert Split(t) by { hide Own, Once, Announced; }
    assert Own(t) by { hide Split, Once, Announced; }
    assert Once(t) && Announced(t) by { hide Split, Own; }
    hide Split, Own, Once, Announced;
  }

  lemma {:induction false} StepInv(s: State, a: Action)
    requires Inv(s) && Step(s, a).Some?
    ensures Inv(Step(s, a).value)
  {
    hide Inv, Step;
    match a {
      case Get(c) => GetInv(s, c);
      case Supply(id, answer) => SupplyInv(s, id, answer);
      case Finish(id) => FinishInv(s, id);
      case Post(id, ok) => PostInv(s, id, ok);
      case _ => ProvideInv(s, a);
    }
  }

  lemma {:induction false} SameRan(s: State, t: State)
    requires s.ran == t.ran
    ensures forall id :: RanId(s, id) == RanId(t, id)
  {
  }

  lemma {:induction false} RunInv(run: seq<Action>)
    ensures After(run).Some? ==> Inv(After(run).value)
  {
    hide Step;
    if run == [] {
      assert Inv(INIT);
    } else {
      hide Inv;
      RunInv(run[..|run| - 1]);
      if After(run).Some? { StepInv(After(run[..|run| - 1]).value, run[|run| - 1]); }
    }
  }

  // ---- every run -------------------------------------------------------------------------

  /** The numbers given out, 1 to next - 1, split exactly into those pending,
      those being completed and those completed, and none completes twice. */
  lemma {:induction false} Conservation(run: seq<Action>)
    requires After(run).Some?
    ensures Split(After(run).value) && Once(After(run).value)
  {
    hide After, Split, Once;
    RunInv(run);
  }

  /** What was accepted for a number was supplied for it, and what was given a
      number was asked for. */
  lemma {:induction false} Given(run: seq<Action>)
    requires After(run).Some?
    ensures forall id :: id in After(run).value.accepted ==> Supply(id, After(run).value.accepted[id]) in run
    ensures forall id :: id in After(run).value.issued ==> Get(After(run).value.issued[id]) in run
  {
    if run != [] {
      var front, last := run[..|run| - 1], run[|run| - 1];
      assert run == front + [last];
      Given(front);
      GivenStep(After(front).value, last);
      hide Step;
    }
  }

  lemma {:induction false} GivenStep(s: State, a: Action)
    requires Step(s, a).Some?
    ensures var t := Step(s, a).value;
            && (forall id :: id in t.accepted ==>
                  (id in s.accepted && t.accepted[id] == s.accepted[id]) || a == Supply(id, t.accepted[id]))
            && (forall id :: id in t.issued ==>
                  (id in s.issued && t.issued[id] == s.issued[id]) || a == Get(t.issued[id]))
  {
  }

  /** A completion runs for its own number only, with the answer supplied for it:
      without an error with all of it, under code 0, and with one without a token
      or an expiry, under the error's low 32 bits. */
  lemma {:induction false} OwnAnswer(run: seq<Action>, i: nat)
    requires After(run).Some? && i < |After(run).value.ran|
    ensures var s := After(run).value;
            var r := s.ran[i];
            && r.id in s.issued && r.completion == s.issued[r.id] && Get(r.completion) in run
            && r.id in s.accepted
            && var a := s.accepted[r.id];
               && Supply(r.id, a) in run
               && (a.code == 0 ==> r.result == Result(a.token, a.expiry, 0, a.message))
               && (a.code != 0 ==> r.result.token == [] && r.result.expiry == 0 && r.result.message == a.message)
               && (r.result.code - a.code) % 0x1_0000_0000 == 0
  {
    Given(run);
    DeliveredParts(After(run).value.ran[i], run, i);
  }

  lemma {:induction false} DeliveredParts(r: Ran, run: seq<Action>, i: nat)
    requires After(run).Some? && i < |After(run).value.ran| && r == After(run).value.ran[i]
    ensures var s := After(run).value;
            && r.id in s.issued && r.completion == s.issued[r.id]
            && r.id in s.accepted
            && var a := s.accepted[r.id];
               && (a.code == 0 ==> r.result == Result(a.token, a.expiry, 0, a.message))
               && (a.code != 0 ==> r.result.token == [] && r.result.expiry == 0 && r.result.message == a.message)
               && (r.result.code - a.code) % 0x1_0000_0000 == 0
  {
    hide After, Split, Once, Announced, RanId;
    RunInv(run);
    var a := After(run).value.accepted[r.id];
    assert r.result == Delivered(a);
  }

  /** A number is supplied successfully at most once, and only after it was given
      out: the call answers 0 for exactly the numbers that are pending. */
  lemma {:induction false} SupplyOnce(run: seq<Action>, id: int)
    requires After(run).Some?
    ensures SupplyCode(After(run).value, id) == 0 <==> id in After(run).value.issued && id !in After(run).value.accepted
  {
    hide After, Once, Announced, RanId;
    RunInv(run);
  }

  /** No completion ever runs while the lock is held: by the time the SDK can ask
      there is a port, and a port is never taken away. */
  lemma {:induction false} NeverUnderLock(run: seq<Action>)
    requires After(run).Some?
    ensures After(run).value.underLock == 0
  {
    hide After, Split, Own, Once, Announced;
    RunInv(run);
  }

  /** Each number reaches the port at most once, and never one that is unknown. */
  lemma {:induction false} AnnouncedOnce(run: seq<Action>)
    requires After(run).Some?
    ensures var s := After(run).value;
            && (forall i :: 0 <= i < |s.posts| ==> s.posts[i] in s.issued)
            && (forall i, j :: 0 <= i < j < |s.posts| ==> s.posts[i] != s.posts[j])
  {
    hide After, Split, Own, Once;
    RunInv(run);
  }
}
