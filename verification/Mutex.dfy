/** One mutex with priority inheritance (src/ipc.c, priority-ordered wait list).

    Every section that runs with interrupts disabled is one step. A blocked call is three: it
    suspends its thread, the thread is woken by a hand-over or by its timer, and the call returns. */
module Mutex {
  import opened SortedRow

  const NOBODY := -1
  const HOLDS := 256    // hold is an 8-bit counter

  datatype Err = Eok | Etimeout | Eerror

  /** Where a thread is with respect to its blocking call. */
  datatype Phase = Idle | Waiting | Woken

  datatype Th = Th(
    base: int,         // its priority when it holds nothing
    phase: Phase,
    err: Err,          // thread->error
    depth: int)        // takes that returned RT_EOK to it, less releases that did

  datatype State = State(
    value: nat,
    owner: int,
    orig: int,         // original_priority
    hold: nat,
    waiters: seq<int>,
    prio: map<int, int>,
    th: map<int, Th>)

  // ---- the steps ----------------------------------------------------------------------------

  predicate Knows(s: State, t: int) {
    t in s.th && t in s.prio
  }

  function SetErr(s: State, t: int, e: Err): State
    requires t in s.th
  {
    s.(th := s.th[t := s.th[t].(err := e)])
  }

  function SetPhase(s: State, t: int, p: Phase): State
    requires t in s.th
  {
    s.(th := s.th[t := s.th[t].(phase := p)])
  }

  function Deeper(s: State, t: int): State
    requires t in s.th
  {
    s.(th := s.th[t := s.th[t].(depth := s.th[t].depth + 1)])
  }

  function Shallower(s: State, t: int): State
    requires t in s.th
  {
    s.(th := s.th[t := s.th[t].(depth := s.th[t].depth - 1)])
  }

  /** A waiter more urgent than the owner lends it its priority. */
  function Boost(s: State, t: int): State
    requires t in s.prio
  {
    if s.owner in s.prio && s.prio[t] < s.prio[s.owner] then s.(prio := s.prio[s.owner := s.prio[t]]) else s
  }

  /** rt_mutex_take up to its end or to the point where it blocks. */
  function Take(s: State, t: int, time: int): State
    requires Knows(s, t)
  {
    var s := SetErr(s, t, Eok);
    if s.owner == t then Deeper(s.(hold := (s.hold + 1) % HOLDS), t)
    else if s.value > 0 then
      Deeper(s.(value := s.value - 1, owner := t, orig := s.prio[t], hold := (s.hold + 1) % HOLDS), t)
    else if time == 0 then SetErr(s, t, Etimeout)
    else
      var b := Boost(s, t);
      SetPhase(b.(waiters := Insert(b.waiters, b.prio, t)), t, Waiting)
  }

  /** rt_thread_timeout of a thread that waits for the mutex. */
  function Expire(s: State, t: int): State
    requires Knows(s, t)
  {
    SetPhase(SetErr(s.(waiters := Remove(s.waiters, t)), t, Etimeout), t, Woken)
  }

  /** A woken thread runs again and its call returns thread->error. */
  function Return(s: State, t: int): State
    requires Knows(s, t)
  {
    var s1 := SetPhase(s, t, Idle);
    if s.th[t].err == Eok then Deeper(s1, t) else s1
  }

  /** The last release: the owner gets its priority back and the first waiter the mutex. */
  function Pass(s: State, t: int): State
    requires Knows(s, t)
  {
    var s := s.(prio := s.prio[t := s.orig]);
    if s.waiters != [] && Knows(s, s.waiters[0]) then
      var h := s.waiters[0];
      SetPhase(s.(owner := h, orig := s.prio[h], hold := 1, waiters := s.waiters[1..]), h, Woken)
    else s.(value := s.value + 1, owner := NOBODY, orig := 0xff)
  }

  /** rt_mutex_release. */
  function Release(s: State, t: int): State
    requires Knows(s, t)
  {
    if s.owner != t then SetErr(s, t, Eerror)
    else
      var s1 := Shallower(s.(hold := (s.hold + HOLDS - 1) % HOLDS), t);
      if s1.hold == 0 then Pass(s1, t) else s1
  }

  // ---- the invariant --------------------------------------------------------------------------

  ghost predicate Threads(s: State) {
    s.prio.Keys == s.th.Keys && NOBODY !in s.th
  }

  /** value, owner and hold say the same; the owner's priority can be given back. */
  ghost predicate Ownership(s: State) {
    && s.value <= 1 && s.hold < HOLDS
    && (s.value == 1 <==> s.owner == NOBODY) && (s.hold == 0 <==> s.owner == NOBODY)
    && (s.owner == NOBODY ==> s.waiters == [])
    && (s.owner != NOBODY ==>
      && s.owner in s.th && s.th[s.owner].phase != Waiting
      && s.orig == s.th[s.owner].base
      && s.hold == s.th[s.owner].depth + (if s.th[s.owner].phase == Woken then 1 else 0))
  }

  /** The wait list holds the waiting threads, the most urgent first; none is more urgent than the owner. */
  ghost predicate Queue(s: State) {
    && Distinct(s.waiters) && Sorted(s.waiters, s.prio)
    && (forall t :: t in s.waiters <==> t in s.th && s.th[t].phase == Waiting)
    && (forall t :: t in s.waiters ==> Key(s.prio, s.owner) <= Key(s.prio, t))
  }

  /** What holds of one thread: without the mutex it has its own priority and is in no critical
      section; it is woken without error only with the mutex. */
  ghost predicate ThreadOk(s: State, t: int)
    requires Threads(s) && t in s.th
  {
    && (t != s.owner ==> s.prio[t] == s.th[t].base && s.th[t].depth == 0)
    && (s.th[t].phase == Woken ==> (s.th[t].err == Eok <==> t == s.owner))
    && (s.th[t].phase == Waiting ==> s.th[t].err == Eok)
    && (s.th[t].phase == Woken ==> s.th[t].depth == 0)
  }

  ghost predicate Inv(s: State) {
    Threads(s) && Ownership(s) && Queue(s) && forall t :: t in s.th ==> ThreadOk(s, t)
  }

  /** A take keeps the invariant unless it is the owner's and the 8-bit counter is full. */
  lemma TakeKeeps(s: State, t: int, time: int)
    requires Inv(s) && Knows(s, t) && s.th[t].phase == Idle
    ensures Inv(Take(s, t, time)) <==> !(s.owner == t && s.hold == HOLDS - 1)
  {
    if s.owner != t && s.value == 0 && time != 0 {
      BlockKeeps(s, t, time);
    } else {
      SortedUnder(s.waiters, s.prio, Take(s, t, time).prio);
    }
  }

  lemma BlockQueue(s: State, t: int, time: int)
    requires Inv(s) && Knows(s, t) && s.th[t].phase == Idle && s.owner != t && s.value == 0 && time != 0
    ensures Queue(Take(s, t, time))
  {
    hide Distinct; hide Sorted; hide Insert; hide ThreadOk;
    var b := Boost(SetErr(s, t, Eok), t);
    assert forall w :: w in s.waiters ==> Key(b.prio, w) == Key(s.prio, w);
    SortedUnder(s.waiters, s.prio, b.prio);
    InsertKeeps(s.waiters, b.prio, t);
  }

  lemma BlockJoins(s: State, t: int, time: int)
    requires Inv(s) && Knows(s, t) && s.th[t].phase == Idle && s.owner != t && s.value == 0 && time != 0
    ensures Joined(s.waiters, Take(s, t, time).waiters, false, Take(s, t, time).prio, t)
  {
    hide ThreadOk; hide Joined; hide Insert; hide Distinct; hide Sorted;
    var b := Boost(SetErr(s, t, Eok), t);
    SortedUnder(s.waiters, s.prio, b.prio);
    EnqueueJoins(s.waiters, false, b.prio, t);
  }

  /** A take that has to wait joins the wait list behind all who are at least as urgent. */
  lemma BlockKeeps(s: State, t: int, time: int)
    requires Inv(s) && Knows(s, t) && s.th[t].phase == Idle && s.owner != t && s.value == 0 && time != 0
    ensures Inv(Take(s, t, time)) && Joined(s.waiters, Take(s, t, time).waiters, false, Take(s, t, time).prio, t)
  {
    hide Queue; hide Insert; hide Key; hide Joined;
    BlockQueue(s, t, time);
    BlockJoins(s, t, time);
  }

  lemma ExpireKeeps(s: State, t: int)
    requires Inv(s) && Knows(s, t) && s.th[t].phase == Waiting
    ensures Inv(Expire(s, t))
  {
    RemoveKeeps(s.waiters, s.prio, t);
  }

  lemma ReturnKeeps(s: State, t: int)
    requires Inv(s) && Knows(s, t) && s.th[t].phase == Woken
    ensures Inv(Return(s, t))
  {
  }

  lemma ReleaseKeeps(s: State, t: int)
    requires Inv(s) && Knows(s, t) && s.th[t].phase == Idle
    ensures Inv(Release(s, t))
  {
    if s.owner == t {
      if s.hold == 1 { PassKeeps(s, t); } else { assert Release(s, t).prio == s.prio; }
    }
  }

  lemma PassQueue(s: State, t: int)
    requires Inv(s) && Knows(s, t) && s.th[t].phase == Idle && s.owner == t && s.hold == 1
    ensures Queue(Release(s, t))
  {
    hide ThreadOk;
    if s.waiters == [] {
      hide Sorted; hide Distinct;
    } else {
      PassOrder(s, t);
      FirstWaits(s);
      Uncons(s.waiters);
      hide Sorted; hide Distinct;
    }
  }

  /** The other waiters stay in order behind the first, who is at least as urgent. */
  lemma PassOrder(s: State, t: int)
    requires Queue(s) && t in s.th && t in s.prio && t !in s.waiters && s.waiters != []
    ensures var prio := s.prio[t := s.orig];
      && Distinct(s.waiters[1..]) && Sorted(s.waiters[1..], prio) && s.waiters[0] !in s.waiters[1..]
      && forall x :: x in s.waiters[1..] ==> Key(prio, s.waiters[0]) <= Key(prio, x)
  {
    var prio := s.prio[t := s.orig];
    Uncons(s.waiters);
    SortedUnder(s.waiters, s.prio, prio);
  }

  lemma PassKeeps(s: State, t: int)
    requires Inv(s) && Knows(s, t) && s.th[t].phase == Idle && s.owner == t && s.hold == 1
    ensures Inv(Release(s, t))
  {
    PassQueue(s, t);
    if s.waiters != [] { FirstWaits(s); }
    hide Queue;
  }

  lemma FirstWaits(s: State)
    requires Queue(s) && s.waiters != []
    ensures var h := s.waiters[0]; h in s.th && s.th[h].phase == Waiting
  {
    assert s.waiters[0] in s.waiters;
  }

  // ---- runs -----------------------------------------------------------------------------------

  datatype Op = DoTake(t: int, time: int) | DoRelease(t: int) | DoExpire(t: int) | DoReturn(t: int)

  /** A thread calls only while it is not inside a blocked call; only a waiting thread's timer can
      expire; only a woken thread can return. */
  predicate Enabled(s: State, op: Op) {
    Knows(s, op.t) && s.th[op.t].phase == match op case DoTake(_, _) => Idle case DoRelease(_) => Idle case DoExpire(_) => Waiting case DoReturn(_) => Woken
  }

  function Step(s: State, op: Op): State
    requires Enabled(s, op)
  {
    match op
    case DoTake(t, time) => Take(s, t, time)
    case DoRelease(t) => Release(s, t)
    case DoExpire(t) => Expire(s, t)
    case DoReturn(t) => Return(s, t)
  }

  /** The step that overflows the hold counter. */
  predicate Overflows(s: State, op: Op) {
    op.DoTake? && op.t == s.owner && s.hold == HOLDS - 1
  }

  lemma StepKeeps(s: State, op: Op)
    requires Inv(s) && Enabled(s, op)
    ensures Inv(Step(s, op)) <==> !Overflows(s, op)
  {
    hide Inv; hide Take; hide Release; hide Expire; hide Return;
    match op
    case DoTake(t, time) => TakeKeeps(s, t, time);
    case DoRelease(t) => ReleaseKeeps(s, t);
    case DoExpire(t) => ExpireKeeps(s, t);
    case DoReturn(t) => ReturnKeeps(s, t);
  }

  /** `ops` can happen one after the other from `s`, and no owner nests more than 255 takes. */
  ghost predicate Can(s: State, ops: seq<Op>)
    requires Inv(s)
    decreases |ops|
  {
    ops == [] ||
    (Enabled(s, ops[0]) && !Overflows(s, ops[0]) && (StepKeeps(s, ops[0]); Can(Step(s, ops[0]), ops[1..])))
  }

  ghost function Run(s: State, ops: seq<Op>): State
    requires Inv(s) && Can(s, ops)
    decreases |ops|
  {
    if ops == [] then s else StepKeeps(s, ops[0]); Run(Step(s, ops[0]), ops[1..])
  }

  lemma {:induction false} RunKeeps(s: State, ops: seq<Op>)
    requires Inv(s) && Can(s, ops)
    ensures Inv(Run(s, ops))
    decreases |ops|
  {
    hide Inv; hide Step; hide Overflows; hide Enabled;
    if ops != [] {
      StepKeeps(s, ops[0]);
      RunKeeps(Step(s, ops[0]), ops[1..]);
    }
  }

  // ---- what the invariant means -----------------------------------------------------------------

  /** Thread `t` is between a take that returned RT_EOK and its last release. */
  predicate Inside(s: State, t: int) {
    t in s.th && s.th[t].depth > 0
  }

  /** Mutual exclusion, and the owner inherits the priority of the most urgent waiter. */
  lemma Exclusion(s: State, t: int, u: int)
    requires Inv(s) && Inside(s, t)
    ensures t == s.owner && (Inside(s, u) ==> u == t)
    ensures u in s.waiters ==> s.prio[t] <= s.prio[u]
  {
    assert u in s.waiters ==> Key(s.prio, s.owner) <= Key(s.prio, u);
  }

  /** A call that blocked and returns RT_EOK returns to the owner of the mutex, which then holds it once;
      one that returns a timeout returns to a thread that does not own it. */
  lemma WakesAsOwner(s: State, t: int)
    requires Inv(s) && Knows(s, t) && s.th[t].phase == Woken
    ensures s.th[t].err == Eok ==> s.owner == t && s.hold == 1 && Inside(Return(s, t), t)
    ensures s.th[t].err != Eok ==> s.owner != t && !Inside(Return(s, t), t)
  {
    assert ThreadOk(s, t);
  }

  /** After its last release a thread is back at its own priority, and the mutex is free or belongs to
      the thread that was first in the wait list. */
  lemma LastRelease(s: State, t: int)
    requires Inv(s) && Knows(s, t) && s.th[t].phase == Idle && s.owner == t && s.hold == 1
    ensures var r := Release(s, t);
      && r.prio[t] == s.th[t].base && !Inside(r, t)
      && (s.waiters == [] ==> r.owner == NOBODY && r.value == 1 && r.orig == 0xff && r.waiters == [])
      && (s.waiters != [] ==> r.owner == s.waiters[0] && r.value == 0 && r.waiters == s.waiters[1..] && r.th[r.owner].phase == Woken)
  {
    if s.waiters != [] { Uncons(s.waiters); }
  }

  /** The thread whose take makes it wait, in a mutex held by `o`. */
  predicate Waits(op: Op, o: int) {
    op.DoTake? && op.t != o && op.time != 0
  }

  /** The most urgent of `p` and of the threads that had to wait for `o` in `ops`, from their own
      priorities and the operations alone. */
  ghost function Lent(p: int, o: int, base: map<int, int>, ops: seq<Op>): int
    decreases |ops|
  {
    if ops == [] then p
    else Lent(if Waits(ops[0], o) && ops[0].t in base && base[ops[0].t] < p then base[ops[0].t] else p, o, base, ops[1..])
  }

  ghost function Bases(s: State): map<int, int> {
    map t | t in s.th :: s.th[t].base
  }

  /** `o` owns the mutex all through `ops`. */
  ghost predicate Tenure(s: State, o: int, ops: seq<Op>)
    requires Inv(s) && Can(s, ops)
    decreases |ops|
  {
    s.owner == o && (ops == [] || (StepKeeps(s, ops[0]); Tenure(Step(s, ops[0]), o, ops[1..])))
  }

  lemma OneWaits(s: State, o: int, op: Op)
    requires Inv(s) && Enabled(s, op) && s.owner == o && o != NOBODY && Step(s, op).owner == o
    ensures Bases(Step(s, op)) == Bases(s) && o in s.prio && o in Step(s, op).prio
    ensures Step(s, op).prio[o] == if Waits(op, o) && s.th[op.t].base < s.prio[o] then s.th[op.t].base else s.prio[o]
  {
    hide Insert; hide Remove; hide Sorted; hide Distinct;
    assert ThreadOk(s, op.t);
    if op.DoRelease? && op.t == o && s.hold == 1 { LastRelease(s, o); PassedOn(s, o); }
  }

  /** The last release takes the mutex away. */
  lemma PassedOn(s: State, t: int)
    requires Inv(s) && Knows(s, t) && s.th[t].phase == Idle && s.owner == t && s.hold == 1
    ensures Release(s, t).owner != t
  {
    LastRelease(s, t);
    if s.waiters != [] { FirstWaits(s); }
  }

  /** While a thread owns the mutex its priority is exactly the most urgent of what it had and of all
      who had to wait for it since; timeouts do not take it back. */
  lemma {:induction false} Inherits(s: State, o: int, ops: seq<Op>)
    requires Inv(s) && Can(s, ops) && o != NOBODY && Tenure(s, o, ops)
    ensures o in s.prio && o in Run(s, ops).prio && Run(s, ops).prio[o] == Lent(s.prio[o], o, Bases(s), ops)
    decreases |ops|
  {
    hide Inv; hide Step; hide Enabled; hide Overflows; hide Bases;
    if ops != [] {
      StepKeeps(s, ops[0]);
      Inherits(Step(s, ops[0]), o, ops[1..]);
      assert Step(s, ops[0]).owner == o;
      OneWaits(s, o, ops[0]);
      BaseIs(s, ops[0]);
    } else {
      OwnerKnown(s);
    }
  }

  lemma BaseIs(s: State, op: Op)
    requires Enabled(s, op)
    ensures op.t in Bases(s) && Bases(s)[op.t] == s.th[op.t].base
  {}

  lemma OwnerKnown(s: State)
    requires Inv(s) && s.owner != NOBODY
    ensures s.owner in s.prio
  {}

  /** Whoever gets the mutex starts from its own priority. */
  lemma StartsOwn(s: State, op: Op)
    requires Inv(s) && Enabled(s, op) && !Overflows(s, op)
    ensures var r := Step(s, op); r.owner != s.owner && r.owner != NOBODY ==> r.owner in r.prio && r.prio[r.owner] == r.th[r.owner].base
  {
    hide Insert; hide Remove; hide Sorted; hide Distinct;
    StepKeeps(s, op);
    if op.DoRelease? && op.t == s.owner && s.hold == 1 && s.waiters != [] { FirstWaits(s); }
  }

  /** The counter does overflow: one more take at hold 255 leaves the mutex owned with hold 0. */
  lemma HoldWraps(s: State, t: int, time: int)
    requires Inv(s) && Knows(s, t) && s.owner == t && s.hold == HOLDS - 1
    ensures var r := Take(s, t, time); r.owner == t && r.hold == 0 && r.value == 0
  {}

  /** `n` takes by the same thread. */
  function Takes(t: int, n: nat): seq<Op> {
    seq(n, _ => DoTake(t, 0))
  }

  lemma TakeOnce(s: State, t: int)
    requires Inv(s) && Knows(s, t) && s.th[t].phase == Idle && (s.owner == t || s.owner == NOBODY) && s.hold < HOLDS - 1
    ensures var r := Take(s, t, 0); Inv(r) && Knows(r, t) && r.th[t].phase == Idle && r.owner == t && r.hold == s.hold + 1
  {
    TakeKeeps(s, t, 0);
  }

  lemma {:induction false} NestedTakes(s: State, t: int, n: nat)
    requires Inv(s) && Knows(s, t) && s.th[t].phase == Idle && (s.owner == t || s.owner == NOBODY) && s.hold + n < HOLDS
    ensures Can(s, Takes(t, n))
    ensures var r := Run(s, Takes(t, n));
      Inv(r) && Knows(r, t) && r.th[t].phase == Idle && r.hold == s.hold + n && (n > 0 || s.owner == t ==> r.owner == t)
    decreases n
  {
    hide Inv; hide Take;
    if n > 0 {
      TakeOnce(s, t);
      assert Takes(t, n)[0] == DoTake(t, 0) && Takes(t, n)[1..] == Takes(t, n - 1);
      assert !Overflows(s, DoTake(t, 0));
      NestedTakes(Take(s, t, 0), t, n - 1);
    }
  }

  /** Reaching it: 255 takes of a free mutex by one thread are fine; the next leaves it owned with hold
      0, and the release after that has no end in sight: hold is 255 again. */
  lemma HoldWrapsFromFree(s: State, t: int)
    requires Inv(s) && Knows(s, t) && s.th[t].phase == Idle && s.owner == NOBODY
    ensures Can(s, Takes(t, HOLDS - 1))
    ensures var full := Run(s, Takes(t, HOLDS - 1));
      && Inv(full) && Enabled(full, DoTake(t, 0)) && full.owner == t && full.hold == HOLDS - 1
      && var r := Step(full, DoTake(t, 0));
      && !Inv(r) && r.owner == t && r.hold == 0 && r.value == 0 && Knows(r, t) && Release(r, t).hold == HOLDS - 1
  {
    assert s.hold == 0;
    NestedTakes(s, t, HOLDS - 1);
    var full := Run(s, Takes(t, HOLDS - 1));
    hide Inv; hide Run; hide Can;
    HoldWraps(full, t, 0);
    StepKeeps(full, DoTake(t, 0));
  }

  // ---- the object -----------------------------------------------------------------------------

  class Lock {
    var value: nat
    var owner: int
    var originalPriority: int
    var hold: nat
    var waiters: seq<int>         // suspend_thread
    var prio: map<int, int>       // current_priority of every thread
    var th: map<int, Th>

    ghost function Abs(): State
      reads this
    {
      State(value, owner, originalPriority, hold, waiters, prio, th)
    }

    /** rt_mutex_init, for threads that are all outside. */
    constructor (prio: map<int, int>)
      requires NOBODY !in prio
      ensures Inv(Abs()) && owner == NOBODY && this.prio == prio
    {
      value, owner, originalPriority, hold, waiters := 1, NOBODY, 0xff, 0, [];
      this.prio, th := prio, map t | t in prio :: Th(prio[t], Idle, Eok, 0);
    }

    /** rt_ipc_list_suspend with RT_IPC_FLAG_PRIO. */
    method SuspendByPriority(t: int)
      requires Knows(Abs(), t) && forall w :: w in waiters ==> w in prio
      modifies `waiters, `th
      ensures Abs() == SetPhase(old(Abs()).(waiters := Insert(old(waiters), prio, t)), t, Waiting)
    {
      hide Insert;
      assert waiters[..0] == [] && waiters[0..] == waiters;
      var n := 0;
      while n < |waiters|
        invariant 0 <= n <= |waiters| && Abs() == old(Abs()) && forall w :: w in waiters ==> w in prio
        invariant Insert(waiters, prio, t) == waiters[..n] + Insert(waiters[n..], prio, t)
      {
        assert waiters[n] in waiters;
        if prio[t] < prio[waiters[n]] { break; }
        InsertPast(waiters, prio, t, n);
        n := n + 1;
      }
      InsertHere(waiters, prio, t, n);
      waiters := waiters[..n] + [t] + waiters[n..];
      th := th[t := th[t].(phase := Waiting)];
    }

    /** rt_mutex_take: `blocked` if the thread is now suspended, else the result of the call. */
    method TakeIt(t: int, time: int) returns (blocked: bool, r: Err)
      requires Inv(Abs()) && Knows(Abs(), t) && th[t].phase == Idle
      modifies this
      ensures Abs() == Take(old(Abs()), t, time)
      ensures blocked <==> th[t].phase == Waiting
      ensures blocked <==> old(owner) != t && old(owner) != NOBODY && time != 0
      ensures !blocked ==> r == th[t].err && (r == Eok ==> owner == t && Inside(Abs(), t))
      ensures !blocked && r != Eok ==> time == 0 && old(owner) != t && old(owner) != NOBODY
    {
      hide Insert; hide Distinct; hide Sorted;
      th := th[t := th[t].(err := Eok)];
      if owner == t {
        hold := (hold + 1) % HOLDS;
      } else if value > 0 {
        value := value - 1;
        owner := t;
        originalPriority := prio[t];
        hold := (hold + 1) % HOLDS;
      } else if time == 0 {
        th := th[t := th[t].(err := Etimeout)];
        return false, Etimeout;
      } else {
        if prio[t] < prio[owner] { prio := prio[owner := prio[t]]; }
        SuspendByPriority(t);
        return true, Eok;
      }
      th := th[t := th[t].(depth := th[t].depth + 1)];
      return false, Eok;
    }

    /** The part of rt_mutex_release that runs when the last hold is gone. */
    method HandOver(t: int)
      requires Knows(Abs(), t) && hold == 0 && (waiters != [] ==> Knows(Abs(), waiters[0]))
      modifies this
      ensures Abs() == Pass(old(Abs()), t)
    {
      if originalPriority != prio[t] { prio := prio[t := originalPriority]; }
      assert prio == old(prio)[t := originalPriority];
      if waiters != [] {
        var h := waiters[0];
        owner := h;
        originalPriority := prio[h];
        hold := hold + 1;
        waiters := waiters[1..];
        th := th[h := th[h].(phase := Woken)];
      } else {
        value := value + 1;
        owner := NOBODY;
        originalPriority := 0xff;
      }
    }

    /** rt_mutex_release. */
    method ReleaseIt(t: int) returns (r: Err)
      requires Inv(Abs()) && Knows(Abs(), t) && th[t].phase == Idle
      modifies this
      ensures Inv(Abs()) && Abs() == Release(old(Abs()), t)
      ensures r == if old(owner) == t then Eok else Eerror
    {
      hide Inv; hide Pass;
      ReleaseKeeps(Abs(), t);
      FirstKnown(Abs());
      if t != owner {
        th := th[t := th[t].(err := Eerror)];
        return Eerror;
      }
      hold := (hold + HOLDS - 1) % HOLDS;
      th := th[t := th[t].(depth := th[t].depth - 1)];
      if hold == 0 { HandOver(t); }
      return Eok;
    }

    /** rt_thread_timeout of a waiting thread. */
    method ExpireIt(t: int)
      requires Inv(Abs()) && Knows(Abs(), t) && th[t].phase == Waiting
      modifies this
      ensures Inv(Abs()) && Abs() == Expire(old(Abs()), t) && th[t].err == Etimeout
    {
      hide Inv; hide Remove;
      ExpireKeeps(Abs(), t);
      waiters := Remove(waiters, t);
      th := th[t := th[t].(err := Etimeout, phase := Woken)];
      assert Abs() == Expire(old(Abs()), t);
    }

    /** A woken thread runs again: rt_mutex_take returns thread->error. */
    method ReturnIt(t: int) returns (r: Err)
      requires Inv(Abs()) && Knows(Abs(), t) && th[t].phase == Woken
      modifies this
      ensures Inv(Abs()) && Abs() == Return(old(Abs()), t) && r == old(th[t].err)
      ensures r == Eok <==> owner == t
      ensures r == Eok ==> hold == 1 && Inside(Abs(), t)
    {
      WakesAsOwner(Abs(), t);
      ReturnKeeps(Abs(), t);
      hide Inv;
      r := th[t].err;
      th := th[t := th[t].(phase := Idle, depth := th[t].depth + if r == Eok then 1 else 0)];
      assert Abs() == Return(old(Abs()), t);
    }
  }

  lemma FirstKnown(s: State)
    requires Inv(s)
    ensures s.waiters != [] ==> Knows(s, s.waiters[0])
  {
    if s.waiters != [] { FirstWaits(s); }
  }
}
