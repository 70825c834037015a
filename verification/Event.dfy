/** Event sets: threads that wait for all or any of some bits (src/ipc.c). */
module Event {
  import opened SortedRow

  datatype Err = Eok | Etimeout | Eerror
  datatype Phase = Idle | Waiting | Woken

  /** option: RT_EVENT_FLAG_AND goes before RT_EVENT_FLAG_OR. */
  datatype Option = Option(all: bool, any: bool, clear: bool)

  datatype Th = Th(
    eventSet: bv32,     // event_set: the bits asked for, later the bits received
    info: Option,       // event_info
    phase: Phase,
    err: Err,
    asked: bv32,        // the bits asked for
    seen: bv32)         // the event set from which they were delivered

  datatype State = State(set_: bv32, waiters: seq<int>, th: map<int, Th>, fifo: bool, prio: map<int, int>)

  // ---- conditions ---------------------------------------------------------------------------

  function Both(a: bv32, b: bv32): bv32 {
    a & b
  }

  function Not(a: bv32): bv32 {
    !a
  }

  function Minus(a: bv32, b: bv32): bv32 {
    Both(a, Not(b))
  }

  predicate Met(set_: bv32, want: bv32, o: Option) {
    if o.all then Both(set_, want) == want else if o.any then Both(set_, want) != 0 else false
  }

  /** `a` has no bit that `b` lacks. */
  predicate Below(a: bv32, b: bv32) {
    Both(a, b) == a
  }

  lemma MetMonotone(a: bv32, b: bv32, want: bv32, o: Option)
    requires Below(a, b) && Met(a, want, o)
    ensures Met(b, want, o)
  {
    hide Both;
    if o.all { AllMonotone(a, b, want); } else { AnyMonotone(a, b, want); }
  }

  lemma AllMonotone(a: bv32, b: bv32, want: bv32)
    requires Both(a, b) == a && Both(a, want) == want
    ensures Both(b, want) == want
  {
    assert b & want == b & (a & want);
    assert b & (a & want) == (a & b) & want;
  }

  lemma AnyMonotone(a: bv32, b: bv32, want: bv32)
    requires Both(a, b) == a && Both(a, want) != 0
    ensures Both(b, want) != 0
  {
    assert a & want == a & (b & want);
  }

  // ---- delivery -----------------------------------------------------------------------------

  /** rt_event_recv with its condition met: the bits received and what is left of the set. */
  function Receive(set_: bv32, want: bv32, o: Option): (bv32, bv32) {
    (Both(set_, want), if o.clear then Minus(set_, want) else set_)
  }

  /** rt_event_send to a waiting thread with its condition met, likewise. */
  function Deliver(set_: bv32, want: bv32, o: Option): (bv32, bv32) {
    var got := if o.all then want else Both(want, set_);
    (got, if o.clear then Minus(set_, got) else set_)
  }

  /** A thread that had to wait gets what it would have got had it asked now, and leaves as much. */
  lemma DeliverIsReceive(set_: bv32, want: bv32, o: Option)
    requires Met(set_, want, o)
    ensures Deliver(set_, want, o) == Receive(set_, want, o)
  {
    hide Both; hide Minus;
    BothCommutes(set_, want);
    MinusBoth(set_, want);
  }

  lemma BothCommutes(a: bv32, b: bv32)
    ensures Both(a, b) == Both(b, a)
  {}

  lemma MinusBoth(a: bv32, b: bv32)
    ensures Minus(a, Both(b, a)) == Minus(a, b)
  {}

  lemma MinusBelow(a: bv32, b: bv32)
    ensures Below(Minus(a, b), a)
  {
    hide Both; hide Not;
    Absorbs(a, Not(b));
  }

  lemma Absorbs(a: bv32, c: bv32)
    ensures Both(Both(a, c), a) == Both(a, c)
  {}

  lemma DeliverBelow(set_: bv32, want: bv32, o: Option)
    ensures Below(Deliver(set_, want, o).1, set_)
  {
    hide Below; hide Minus; hide Both;
    BelowSelf(set_);
    MinusBelow(set_, Deliver(set_, want, o).0);
  }

  lemma BelowTrans(a: bv32, b: bv32, c: bv32)
    requires Below(a, b) && Below(b, c)
    ensures Below(a, c)
  {
    assert a & c == (a & b) & c;
    assert (a & b) & c == a & (b & c);
  }

  lemma BelowSelf(a: bv32)
    ensures Below(a, a)
  {}

  // ---- the walk -----------------------------------------------------------------------------

  function Wake(th: Th, set_: bv32): Th {
    th.(eventSet := Deliver(set_, th.eventSet, th.info).0, phase := Woken, seen := set_)
  }

  /** The loop of rt_event_send over the rest of the wait list: the set it leaves, the threads that
      stay, and all threads. */
  function Walk(set_: bv32, rest: seq<int>, th: map<int, Th>): (r: (bv32, seq<int>, map<int, Th>))
    requires forall x :: x in rest ==> x in th
    ensures r.2.Keys == th.Keys
  {
    if rest == [] then (set_, [], th)
    else
      var t := rest[0];
      if Met(set_, th[t].eventSet, th[t].info) then
        Walk(Deliver(set_, th[t].eventSet, th[t].info).1, rest[1..], th[t := Wake(th[t], set_)])
      else
        var r := Walk(set_, rest[1..], th);
        (r.0, [t] + r.1, r.2)
  }

  /** What the walk may have done to a thread it met. */
  ghost predicate Served(a: Th, b: Th, low: bv32, high: bv32) {
    && b == Wake(a, b.seen) && Below(b.seen, high) && Below(low, b.seen) && Met(b.seen, a.eventSet, a.info)
  }

  /** After the walk no thread that stays has its condition met, although bits were cleared along the
      way; a thread that left was served from the set as it stood when the walk reached it. */
  lemma {:induction false} WalkQuiet(set_: bv32, rest: seq<int>, th: map<int, Th>)
    requires Distinct(rest) && forall x :: x in rest ==> x in th
    ensures var (s, kept, th') := Walk(set_, rest, th);
      && Below(s, set_) && Distinct(kept)
      && (forall x :: x in kept ==> x in rest && th'[x] == th[x] && !Met(s, th[x].eventSet, th[x].info))
      && (forall x :: x in rest && x !in kept ==> Served(th[x], th'[x], s, set_))
      && (forall x :: x in th && x !in rest ==> th'[x] == th[x])
    decreases |rest|, 1
  {
    hide Met; hide Below; hide Deliver; hide Served; hide Wake;
    if rest == [] {
      BelowSelf(set_);
    } else {
      Uncons(rest);
      var t := rest[0];
      if Met(set_, th[t].eventSet, th[t].info) {
        WalkServes(set_, rest, th);
      } else {
        WalkSkips(set_, rest, th);
      }
    }
  }

  lemma {:induction false} WalkSkips(set_: bv32, rest: seq<int>, th: map<int, Th>)
    requires Distinct(rest) && (forall x :: x in rest ==> x in th)
    requires rest != [] && rest[0] in th && !Met(set_, th[rest[0]].eventSet, th[rest[0]].info)
    ensures var (s, kept, th') := Walk(set_, rest, th);
      && Below(s, set_) && Distinct(kept)
      && (forall x :: x in kept ==> x in rest && th'[x] == th[x] && !Met(s, th[x].eventSet, th[x].info))
      && (forall x :: x in rest && x !in kept ==> Served(th[x], th'[x], s, set_))
      && (forall x :: x in th && x !in rest ==> th'[x] == th[x])
    decreases |rest|, 0
  {
    hide Met; hide Below; hide Deliver; hide Served; hide Wake;
    Uncons(rest);
    var t := rest[0];
    WalkQuiet(set_, rest[1..], th);
    var (s, kept, th') := Walk(set_, rest[1..], th);
    assert ([t] + kept)[1..] == kept;
    if Met(s, th[t].eventSet, th[t].info) { MetMonotone(s, set_, th[t].eventSet, th[t].info); }
  }

  /** The walk keeps the order of those who stay. */
  lemma {:induction false} WalkSorted(set_: bv32, rest: seq<int>, th: map<int, Th>, key: map<int, int>)
    requires Distinct(rest) && Sorted(rest, key) && forall x :: x in rest ==> x in th
    ensures Sorted(Walk(set_, rest, th).1, key)
    decreases |rest|
  {
    hide Met; hide Deliver; hide Wake;
    if rest != [] {
      Uncons(rest);
      var t := rest[0];
      if Met(set_, th[t].eventSet, th[t].info) {
        WalkSorted(Deliver(set_, th[t].eventSet, th[t].info).1, rest[1..], th[t := Wake(th[t], set_)], key);
      } else {
        WalkSorted(set_, rest[1..], th, key);
        WalkQuiet(set_, rest[1..], th);
        var kept := Walk(set_, rest[1..], th).1;
        assert ([t] + kept)[1..] == kept;
      }
    }
  }

  lemma ServedHigher(a: Th, b: Th, low: bv32, mid: bv32, high: bv32)
    requires Served(a, b, low, mid) && Below(mid, high)
    ensures Served(a, b, low, high)
  {
    BelowTrans(b.seen, mid, high);
  }

  lemma ServedNow(a: Th, set_: bv32, low: bv32)
    requires Met(set_, a.eventSet, a.info) && Below(low, set_)
    ensures Served(a, Wake(a, set_), low, set_)
  {
    BelowSelf(set_);
  }

  lemma {:induction false} WalkServes(set_: bv32, rest: seq<int>, th: map<int, Th>)
    requires Distinct(rest) && (forall x :: x in rest ==> x in th)
    requires rest != [] && rest[0] in th && Met(set_, th[rest[0]].eventSet, th[rest[0]].info)
    ensures var (s, kept, th') := Walk(set_, rest, th);
      && Below(s, set_) && Distinct(kept)
      && (forall x :: x in kept ==> x in rest && th'[x] == th[x] && !Met(s, th[x].eventSet, th[x].info))
      && (forall x :: x in rest && x !in kept ==> Served(th[x], th'[x], s, set_))
      && (forall x :: x in th && x !in rest ==> th'[x] == th[x])
    decreases |rest|, 0
  {
    hide Met; hide Below; hide Deliver; hide Served; hide Wake;
    Uncons(rest);
    var t := rest[0];
    var set1 := Deliver(set_, th[t].eventSet, th[t].info).1;
    var th1 := th[t := Wake(th[t], set_)];
    DeliverBelow(set_, th[t].eventSet, th[t].info);
    WalkQuiet(set1, rest[1..], th1);
    var (s, kept, th') := Walk(set1, rest[1..], th1);
    BelowTrans(s, set1, set_);
    ServedNow(th[t], set_, s);
    forall x | x in rest[1..] && x !in kept ensures Served(th[x], th'[x], s, set_) {
      ServedHigher(th[x], th'[x], s, set1, set_);
    }
  }

  // ---- the steps ----------------------------------------------------------------------------

  ghost predicate Listed(s: State) {
    InLine(s.waiters, s.fifo, s.prio) && forall t :: t in s.waiters <==> t in s.th && s.th[t].phase == Waiting
  }

  function Or(a: bv32, b: bv32): bv32 {
    a | b
  }

  /** rt_event_send. */
  function Send(s: State, set_: bv32): State
    requires forall t :: t in s.waiters ==> t in s.th
  {
    if set_ == 0 then s
    else
      var r := Walk(Or(s.set_, set_), s.waiters, s.th);
      s.(set_ := r.0, waiters := r.1, th := r.2)
  }

  /** rt_event_recv up to its end or to the point where it blocks. */
  function Recv(s: State, t: int, want: bv32, o: Option, timeout: int): State
    requires t in s.th
  {
    if want == 0 then s
    else
      var th := s.th[t].(err := Eok);
      if Met(s.set_, want, o) then s.(set_ := Receive(s.set_, want, o).1, th := s.th[t := th])
      else if timeout == 0 then s.(th := s.th[t := th.(err := Etimeout)])
      else
        s.(waiters := Enqueue(s.waiters, s.fifo, s.prio, t),
           th := s.th[t := th.(eventSet := want, info := o, asked := want, phase := Waiting)])
  }

  /** rt_thread_timeout of a thread that waits for the event. */
  function Expire(s: State, t: int): State
    requires t in s.th
  {
    s.(waiters := Remove(s.waiters, t), th := s.th[t := s.th[t].(err := Etimeout, phase := Woken)])
  }

  /** rt_ipc_list_resume_all. */
  function Dismiss(rest: seq<int>, th: map<int, Th>): (r: map<int, Th>)
    requires forall t :: t in rest ==> t in th
    ensures r.Keys == th.Keys
  {
    if rest == [] then th
    else
      var t := rest[0];
      assert t in th;
      Dismiss(rest[1..], th[t := th[t].(err := Eerror, phase := Woken)])
  }

  /** rt_event_control with RT_IPC_CMD_RESET. */
  function Reset(s: State): State
    requires forall t :: t in s.waiters ==> t in s.th
  {
    s.(set_ := 0, waiters := [], th := Dismiss(s.waiters, s.th))
  }

  /** A woken thread runs again: its call returns thread->error and, without error, its event_set. */
  function Return(s: State, t: int): State
    requires t in s.th
  {
    s.(th := s.th[t := s.th[t].(phase := Idle)])
  }

  // ---- the invariant ------------------------------------------------------------------------

  /** A waiting thread's condition is not met; a thread woken without error holds exactly the bits it
      asked for that were set when it was served, and they met its condition. */
  ghost predicate ThreadOk(set_: bv32, th: Th) {
    && (th.phase == Waiting ==> th.eventSet == th.asked && th.err == Eok && !Met(set_, th.asked, th.info))
    && (th.phase == Woken && th.err == Eok ==> th.eventSet == Both(th.seen, th.asked) && Met(th.seen, th.asked, th.info))
  }

  ghost predicate Inv(s: State) {
    Listed(s) && forall t :: t in s.th ==> ThreadOk(s.set_, s.th[t])
  }

  lemma ServedOk(set0: bv32, a: Th, b: Th, low: bv32, high: bv32)
    requires ThreadOk(set0, a) && a.phase == Waiting && Served(a, b, low, high)
    ensures ThreadOk(low, b) && b.phase == Woken && b.err == Eok
  {
    hide Met; hide Below; hide Both; hide Deliver;
    DeliverIsReceive(b.seen, a.eventSet, a.info);
  }

  lemma OtherOk(a: bv32, b: bv32, th: Th)
    requires ThreadOk(a, th) && (th.phase == Waiting ==> !Met(b, th.asked, th.info))
    ensures ThreadOk(b, th)
  {
    hide Met; hide Both;
  }

  lemma SendKeeps(s: State, set_: bv32)
    requires Inv(s)
    ensures Inv(Send(s, set_))
  {
    hide Walk; hide Met; hide Both; hide Below; hide Or; hide ThreadOk; hide Served; hide Distinct;
    if set_ != 0 {
      WalkQuiet(Or(s.set_, set_), s.waiters, s.th);
      if !s.fifo { WalkSorted(Or(s.set_, set_), s.waiters, s.th, s.prio); }
      var r := Send(s, set_);
      forall t | t in r.th
        ensures ThreadOk(r.set_, r.th[t]) && (t in r.waiters <==> r.th[t].phase == Waiting)
      {
        WaitingOk(s.set_, s.th[t]);
        if t in s.waiters && t !in r.waiters { ServedOk(s.set_, s.th[t], r.th[t], r.set_, Or(s.set_, set_)); }
        else { OtherOk(s.set_, r.set_, r.th[t]); }
      }
    }
  }

  lemma WaitingOk(set_: bv32, th: Th)
    requires ThreadOk(set_, th)
    ensures th.phase == Waiting ==> th.eventSet == th.asked && th.err == Eok && !Met(set_, th.asked, th.info)
  {}

  lemma ReceiveBelow(set_: bv32, want: bv32, o: Option)
    ensures Below(Receive(set_, want, o).1, set_)
  {
    hide Below; hide Minus; hide Both;
    BelowSelf(set_);
    MinusBelow(set_, want);
  }

  lemma LessOk(a: bv32, b: bv32, th: Th)
    requires ThreadOk(a, th) && Below(b, a)
    ensures ThreadOk(b, th)
  {
    hide Met; hide Both; hide Below;
    if th.phase == Waiting && Met(b, th.asked, th.info) { MetMonotone(b, a, th.asked, th.info); }
  }

  /** The call blocks: its condition is not met. */
  lemma BlockKeeps(s: State, t: int, want: bv32, o: Option, timeout: int)
    requires Inv(s) && t in s.th && s.th[t].phase == Idle && want != 0 && timeout != 0 && !Met(s.set_, want, o)
    ensures Inv(Recv(s, t, want, o, timeout)) && Joined(s.waiters, Recv(s, t, want, o, timeout).waiters, s.fifo, s.prio, t)
  {
    hide Met; hide Both; hide Enqueue; hide InLine; hide Joined;
    EnqueueJoins(s.waiters, s.fifo, s.prio, t);
  }

  /** The call finds its condition met: bits may be cleared, so nobody else's becomes met. */
  lemma MetKeeps(s: State, t: int, want: bv32, o: Option, timeout: int)
    requires Inv(s) && t in s.th && s.th[t].phase == Idle && want != 0 && Met(s.set_, want, o)
    ensures Inv(Recv(s, t, want, o, timeout))
  {
    hide Met; hide Both; hide Below; hide Receive; hide Distinct; hide Enqueue; hide ThreadOk;
    var set1 := Receive(s.set_, want, o).1;
    ReceiveBelow(s.set_, want, o);
    forall x | x in s.th ensures ThreadOk(set1, s.th[x]) { LessOk(s.set_, set1, s.th[x]); }
    IdleOk(set1, s.th[t].(err := Eok));
  }

  lemma IdleOk(set_: bv32, th: Th)
    ensures th.phase == Idle ==> ThreadOk(set_, th)
  {}

  lemma RecvKeeps(s: State, t: int, want: bv32, o: Option, timeout: int)
    requires Inv(s) && t in s.th && s.th[t].phase == Idle
    ensures Inv(Recv(s, t, want, o, timeout))
  {
    if want != 0 && Met(s.set_, want, o) {
      MetKeeps(s, t, want, o, timeout);
    } else if want != 0 && timeout != 0 {
      BlockKeeps(s, t, want, o, timeout);
    } else {
      hide Met; hide ThreadOk; hide Distinct;
      IdleOk(s.set_, s.th[t].(err := Etimeout));
    }
  }

  lemma ExpireKeeps(s: State, t: int)
    requires Inv(s) && t in s.th && s.th[t].phase == Waiting
    ensures Inv(Expire(s, t)) && Expire(s, t).th[t].phase == Woken && Expire(s, t).th[t].err == Etimeout
  {
    hide Met; hide Both; hide InLine; hide Remove;
    RemoveMembers(s.waiters, t);
    RemoveInLine(s.waiters, s.fifo, s.prio, t);
  }

  lemma {:induction false} DismissAll(rest: seq<int>, th: map<int, Th>)
    requires forall t :: t in rest ==> t in th
    ensures var r := Dismiss(rest, th);
      && r.Keys == th.Keys
      && forall t :: t in th ==> r[t] == if t in rest then th[t].(err := Eerror, phase := Woken) else th[t]
  {
    if rest != [] {
      Uncons(rest);
      var t := rest[0];
      assert t in th;
      DismissAll(rest[1..], th[t := th[t].(err := Eerror, phase := Woken)]);
    }
  }

  lemma ResetKeeps(s: State)
    requires Inv(s)
    ensures Inv(Reset(s)) && Reset(s).set_ == 0 && Reset(s).waiters == []
    ensures forall t :: t in s.waiters ==> Reset(s).th[t].phase == Woken && Reset(s).th[t].err == Eerror
  {
    hide Met; hide Both;
    DismissAll(s.waiters, s.th);
  }

  lemma ReturnKeeps(s: State, t: int)
    requires Inv(s) && t in s.th && s.th[t].phase == Woken
    ensures Inv(Return(s, t)) && Return(s, t).th[t].phase == Idle
    ensures s.th[t].err == Eok ==> s.th[t].eventSet == Both(s.th[t].seen, s.th[t].asked)
    ensures s.th[t].err == Eok ==> Met(s.th[t].seen, s.th[t].asked, s.th[t].info)
  {
    hide Met; hide Both; hide Distinct;
  }

  // ---- what becomes of every bit --------------------------------------------------------------

  /** `m` is one bit. */
  predicate Single(m: bv32) {
    m != 0 && Both(m, m - 1) == 0
  }

  predicate Has(set_: bv32, m: bv32) {
    Both(set_, m) != 0
  }

  lemma HasOr(a: bv32, b: bv32, m: bv32)
    ensures Has(Or(a, b), m) <==> Has(a, m) || Has(b, m)
  {
    assert (a | b) & m == (a & m) | (b & m);
    OrZero(a & m, b & m);
  }

  lemma OrZero(a: bv32, b: bv32)
    ensures (a | b) == 0 <==> a == 0 && b == 0
  {}

  lemma SingleSplit(a: bv32, m: bv32)
    requires Single(m)
    ensures Both(a, m) == 0 || Both(a, m) == m
  {}

  lemma MinusApart(a: bv32, b: bv32, m: bv32)
    requires Both(b, m) == 0
    ensures Both(Minus(a, b), m) == Both(a, m)
  {}

  lemma MinusWithin(a: bv32, b: bv32, m: bv32)
    requires Both(b, m) == m
    ensures Both(Minus(a, b), m) == 0
  {}

  lemma HasMinus(a: bv32, b: bv32, m: bv32)
    requires Single(m)
    ensures Has(Minus(a, b), m) <==> Has(a, m) && !Has(b, m)
  {
    hide Both; hide Minus; hide Single;
    SingleSplit(b, m);
    if Both(b, m) == 0 { MinusApart(a, b, m); } else { MinusWithin(a, b, m); }
  }

  function Twice(m: bv32): bv32 {
    m + m
  }

  function Under(m: bv32): bv32 {
    m - 1
  }

  function Above(m: bv32): bv32 {
    0x80000000 - m
  }

  lemma NextBit(m: bv32)
    requires Single(m) && m != 0x80000000
    ensures Single(Twice(m)) && Above(Twice(m)) < Above(m) && Under(Twice(m)) == Or(Under(m), m)
  {}

  lemma BothNone(a: bv32, b: bv32, c: bv32)
    requires Both(a, b) == 0 && Both(a, c) == 0
    ensures Both(a, Or(b, c)) == 0
  {}

  lemma LastBit(a: bv32)
    requires Both(a, Under(0x80000000)) == 0 && Both(a, 0x80000000) == 0
    ensures a == 0
  {}

  /** A set that is not empty has a bit. */
  lemma {:induction false} SomeBit(a: bv32, m: bv32) returns (n: bv32)
    requires a != 0 && Single(m) && Both(a, Under(m)) == 0
    ensures Single(n) && Has(a, n)
    decreases Above(m)
  {
    hide Both; hide Or; hide Single; hide Twice; hide Under; hide Above;
    n := m;
    if Both(a, m) == 0 {
      if m == 0x80000000 { LastBit(a); }
      NextBit(m);
      BothNone(a, Under(m), m);
      n := SomeBit(a, Twice(m));
    }
  }

  lemma AnyBit(a: bv32) returns (m: bv32)
    requires a != 0
    ensures Single(m) && Has(a, m)
  {
    m := SomeBit(a, 1);
  }

  lemma HasBoth(a: bv32, b: bv32, m: bv32)
    requires Single(m)
    ensures Has(Both(a, b), m) <==> Has(a, m) && Has(b, m)
  {
    SingleSplit(a, m);
    SingleSplit(b, m);
    BothBoth(a, b, m);
  }

  lemma BothBoth(a: bv32, b: bv32, m: bv32)
    ensures Both(Both(a, b), m) == Both(Both(a, m), Both(b, m))
  {}

  lemma MissingBit(a: bv32, want: bv32)
    ensures Both(a, want) == want <==> Minus(want, a) == 0
  {
    Halves(a, want);
    if Both(a, want) == want { NoneLeft(a, want); }
  }

  lemma Halves(a: bv32, want: bv32)
    ensures want == Or(Both(a, want), Minus(want, a))
  {}

  lemma NoneLeft(a: bv32, want: bv32)
    ensures Minus(Both(a, want), a) == 0
  {}

  /** The condition of an AND receiver is that every bit it asks for is set, of an OR receiver that one is. */
  lemma MetBits(set_: bv32, want: bv32, o: Option)
    ensures o.all ==> (Met(set_, want, o) <==> forall m :: Single(m) && Has(want, m) ==> Has(set_, m))
    ensures !o.all && o.any ==> (Met(set_, want, o) <==> exists m :: Single(m) && Has(want, m) && Has(set_, m))
    ensures !o.all && !o.any ==> !Met(set_, want, o)
  {
    hide Both; hide Minus; hide Single; hide Has;
    var missing, common := Minus(want, set_), Both(set_, want);
    MissingBit(set_, want);
    forall m | Single(m) ensures (Has(missing, m) <==> Has(want, m) && !Has(set_, m)) && (Has(common, m) <==> Has(set_, m) && Has(want, m)) {
      HasMinus(want, set_, m);
      HasBoth(set_, want, m);
    }
    if missing != 0 { var _ := AnyBit(missing); } else { forall m ensures !Has(missing, m) { HasZero(m); } }
    if common != 0 { var _ := AnyBit(common); } else { forall m ensures !Has(common, m) { HasZero(m); } }
  }

  /** What serving a thread leaves: all bits, or with `clear` all but those it got. */
  lemma DeliverLeaves(set_: bv32, want: bv32, o: Option, m: bv32)
    requires Single(m)
    ensures var (got, left) := Deliver(set_, want, o); Has(left, m) <==> Has(set_, m) && !(o.clear && Has(got, m))
  {
    hide Both; hide Minus; hide Single;
    HasMinus(set_, Deliver(set_, want, o).0, m);
  }

  /** No thread among the first `n` of the wait list was woken with `clear` and got bit `m`. */
  ghost predicate Spared(rest: seq<int>, kept: seq<int>, th: map<int, Th>, n: nat, m: bv32)
    requires n <= |rest| && forall x :: x in rest ==> x in th
  {
    forall j :: 0 <= j < n && rest[j] in th && rest[j] !in kept && th[rest[j]].info.clear ==> !Has(th[rest[j]].eventSet, m)
  }

  /** `now` is what the first `n` of the wait list leave of the set, bit by bit. */
  ghost predicate LeftBy(set_: bv32, rest: seq<int>, kept: seq<int>, th: map<int, Th>, n: nat, now: bv32)
    requires n <= |rest| && forall x :: x in rest ==> x in th
  {
    forall m :: Single(m) ==> (Has(now, m) <==> Has(set_, m) && Spared(rest, kept, th, n, m))
  }

  lemma SparedFirst(rest: seq<int>, kept: seq<int>, th: map<int, Th>, n: nat, m: bv32)
    requires 0 < n <= |rest| && rest[0] in th && (forall x :: x in rest ==> x in th) && forall x :: x in rest[1..] ==> x in th
    ensures Spared(rest, kept, th, n, m) <==>
      Spared(rest[1..], kept, th, n - 1, m) && (rest[0] !in kept && th[rest[0]].info.clear ==> !Has(th[rest[0]].eventSet, m))
  {
    hide Has;
    if Spared(rest, kept, th, n, m) {
      forall j | 0 <= j < n - 1 && rest[1..][j] in th && rest[1..][j] !in kept && th[rest[1..][j]].info.clear ensures !Has(th[rest[1..][j]].eventSet, m) {
        assert rest[1..][j] == rest[j + 1];
      }
    } else {
      var j :| 0 <= j < n && rest[j] in th && rest[j] !in kept && th[rest[j]].info.clear && Has(th[rest[j]].eventSet, m);
      if j > 0 { assert rest[1..][j - 1] == rest[j]; }
    }
  }

  lemma SparedKept(rest: seq<int>, t: int, kept: seq<int>, th: map<int, Th>, n: nat, m: bv32)
    requires n <= |rest| && t !in rest && forall x :: x in rest ==> x in th
    ensures Spared(rest, [t] + kept, th, n, m) <==> Spared(rest, kept, th, n, m)
  {
    hide Has;
    forall j | 0 <= j < n ensures rest[j] in [t] + kept <==> rest[j] in kept { assert rest[j] in rest; }
  }

  /** The set as it stands when the walk reaches place `n`, and what happens there. */
  ghost predicate Reached(set_: bv32, rest: seq<int>, th: map<int, Th>, n: nat, now: bv32)
    requires n <= |rest| && forall x :: x in rest ==> x in th
  {
    var (_, kept, th') := Walk(set_, rest, th);
    && LeftBy(set_, rest, kept, th', n, now)
    && (n < |rest| && rest[n] in th ==>
      var a, b := th[rest[n]], th'[rest[n]];
      && (rest[n] !in kept <==> Met(now, a.eventSet, a.info))
      && (rest[n] !in kept ==> b.phase == Woken && b.err == a.err && b.info == a.info && b.seen == now && b.eventSet == Deliver(now, a.eventSet, a.info).0)
      && (rest[n] in kept ==> b == a))
  }

  lemma LeftNone(set_: bv32, rest: seq<int>, kept: seq<int>, th: map<int, Th>)
    requires forall x :: x in rest ==> x in th
    ensures LeftBy(set_, rest, kept, th, 0, set_)
  {}

  lemma LeftServed(set_: bv32, rest: seq<int>, th: map<int, Th>, kept: seq<int>, th': map<int, Th>, n: nat, now: bv32)
    requires 0 < n <= |rest| && (forall x :: x in rest ==> x in th) && th'.Keys == th.Keys && (forall x :: x in rest[1..] ==> x in th)
    requires rest[0] in th && rest[0] !in kept && th'[rest[0]] == Wake(th[rest[0]], set_)
    requires LeftBy(Deliver(set_, th[rest[0]].eventSet, th[rest[0]].info).1, rest[1..], kept, th', n - 1, now)
    ensures LeftBy(set_, rest, kept, th', n, now)
  {
    hide Has; hide Single; hide Spared; hide Deliver;
    var a := th[rest[0]];
    forall m | Single(m) ensures Has(now, m) <==> Has(set_, m) && Spared(rest, kept, th', n, m) {
      DeliverLeaves(set_, a.eventSet, a.info, m);
      SparedFirst(rest, kept, th', n, m);
    }
  }

  lemma LeftSkipped(set_: bv32, rest: seq<int>, th: map<int, Th>, kept: seq<int>, n: nat, now: bv32)
    requires 0 < n <= |rest| && (forall x :: x in rest ==> x in th) && (forall x :: x in rest[1..] ==> x in th)
    requires rest[0] in th && rest[0] !in rest[1..] && LeftBy(set_, rest[1..], kept, th, n - 1, now)
    ensures LeftBy(set_, rest, [rest[0]] + kept, th, n, now)
  {
    hide Has; hide Single; hide Spared;
    forall m | Single(m) ensures Has(now, m) <==> Has(set_, m) && Spared(rest, [rest[0]] + kept, th, n, m) {
      SparedKept(rest[1..], rest[0], kept, th, n - 1, m);
      SparedFirst(rest, [rest[0]] + kept, th, n, m);
    }
  }

  lemma {:induction false} WalkAt(set_: bv32, rest: seq<int>, th: map<int, Th>, n: nat) returns (now: bv32)
    requires Distinct(rest) && n <= |rest| && forall x :: x in rest ==> x in th
    ensures Reached(set_, rest, th, n, now) && (n == |rest| ==> now == Walk(set_, rest, th).0)
    decreases |rest|
  {
    hide Met; hide Deliver; hide Wake; hide LeftBy;
    WalkQuiet(set_, rest, th);
    var (_, kept, th') := Walk(set_, rest, th);
    LeftNone(set_, rest, kept, th');
    now := set_;
    if rest != [] {
      Uncons(rest);
      if Met(set_, th[rest[0]].eventSet, th[rest[0]].info) {
        now := WalkAtServed(set_, rest, th, n);
      } else {
        now := WalkAtSkipped(set_, rest, th, n);
      }
    }
  }

  lemma {:induction false} WalkAtServed(set_: bv32, rest: seq<int>, th: map<int, Th>, n: nat) returns (now: bv32)
    requires Distinct(rest) && n <= |rest| && rest != [] && (forall x :: x in rest ==> x in th)
    requires rest[0] in th && Met(set_, th[rest[0]].eventSet, th[rest[0]].info)
    ensures Reached(set_, rest, th, n, now) && (n == |rest| ==> now == Walk(set_, rest, th).0)
    decreases |rest|, 0
  {
    hide Met; hide Deliver; hide LeftBy; hide Served; hide Below;
    Uncons(rest);
    var a := th[rest[0]];
    var set1, th1 := Deliver(set_, a.eventSet, a.info).1, th[rest[0] := Wake(a, set_)];
    WalkQuiet(set1, rest[1..], th1);
    var (_, kept, th') := Walk(set_, rest, th);
    if n == 0 {
      LeftNone(set_, rest, kept, th');
      now := set_;
    } else {
      now := WalkAt(set1, rest[1..], th1, n - 1);
      LeftServed(set_, rest, th, kept, th', n, now);
      if n < |rest| { assert rest[n] == rest[1..][n - 1] && rest[n] in rest[1..]; }
    }
  }

  lemma {:induction false} WalkAtSkipped(set_: bv32, rest: seq<int>, th: map<int, Th>, n: nat) returns (now: bv32)
    requires Distinct(rest) && n <= |rest| && rest != [] && (forall x :: x in rest ==> x in th)
    requires rest[0] in th && !Met(set_, th[rest[0]].eventSet, th[rest[0]].info)
    ensures Reached(set_, rest, th, n, now) && (n == |rest| ==> now == Walk(set_, rest, th).0)
    decreases |rest|, 0
  {
    hide Met; hide Deliver; hide LeftBy; hide Served; hide Below;
    Uncons(rest);
    WalkQuiet(set_, rest[1..], th);
    var (_, kept, th') := Walk(set_, rest[1..], th);
    if n == 0 {
      LeftNone(set_, rest, [rest[0]] + kept, th');
      now := set_;
    } else {
      now := WalkAt(set_, rest[1..], th, n - 1);
      LeftSkipped(set_, rest, th', kept, n, now);
      if n < |rest| { assert rest[n] == rest[1..][n - 1] && rest[n] in rest[1..]; }
    }
  }

  /** A thread that left the wait list with `clear` got bit `m`. */
  ghost predicate TakenBySend(s: State, r: State, m: bv32) {
    exists t :: t in s.waiters && t !in r.waiters && t in r.th && r.th[t].info.clear && Has(r.th[t].eventSet, m)
  }

  /** A send, bit by bit: a bit is set afterwards exactly if it was set before or is sent, and no thread
      that this send woke with `clear` got it. */
  lemma SendBits(s: State, bits: bv32, m: bv32)
    requires Inv(s) && Single(m)
    ensures Has(Send(s, bits).set_, m) <==> (Has(s.set_, m) || Has(bits, m)) && !TakenBySend(s, Send(s, bits), m)
  {
    hide Has; hide Single; hide Walk; hide Or; hide Deliver; hide Met; hide ThreadOk;
    var r := Send(s, bits);
    if bits == 0 {
      HasZero(m);
    } else {
      var now := WalkAt(Or(s.set_, bits), s.waiters, s.th, |s.waiters|);
      HasOr(s.set_, bits, m);
      SparedAll(s.waiters, r.waiters, r.th, m);
    }
  }

  lemma HasZero(m: bv32)
    ensures !Has(0, m)
  {}

  lemma SparedAll(rest: seq<int>, kept: seq<int>, th: map<int, Th>, m: bv32)
    requires forall x :: x in rest ==> x in th
    ensures Spared(rest, kept, th, |rest|, m) <==> !exists t :: t in rest && t !in kept && t in th && th[t].info.clear && Has(th[t].eventSet, m)
  {
    hide Has;
    if t :| t in rest && t !in kept && t in th && th[t].info.clear && Has(th[t].eventSet, m) {
      var j :| 0 <= j < |rest| && rest[j] == t;
    } else {
      forall j | 0 <= j < |rest| && rest[j] in th && rest[j] !in kept && th[rest[j]].info.clear ensures !Has(th[rest[j]].eventSet, m) {
        var t := rest[j];
        assert t in rest;
      }
    }
  }

  /** Who a send wakes, and with what: the thread at place `n` finds the bits that were set or are sent,
      without those that threads before it got with `clear`. It is woken exactly if they meet its
      condition, and then holds those of them that it asked for. */
  lemma SendServes(s: State, bits: bv32, n: nat) returns (now: bv32)
    requires Inv(s) && bits != 0 && n < |s.waiters| && s.waiters[n] in s.th
    ensures var r, t := Send(s, bits), s.waiters[n];
      && (forall m :: Single(m) ==>
        (Has(now, m) <==> (Has(s.set_, m) || Has(bits, m)) && Spared(s.waiters, r.waiters, r.th, n, m)))
      && (t !in r.waiters <==> Met(now, s.th[t].asked, s.th[t].info))
      && (t !in r.waiters ==> r.th[t].phase == Woken && r.th[t].err == Eok && r.th[t].eventSet == Both(now, s.th[t].asked))
  {
    hide Has; hide Single; hide Walk; hide Or; hide Deliver; hide Met; hide Both; hide Spared;
    now := WalkAt(Or(s.set_, bits), s.waiters, s.th, n);
    var t := s.waiters[n];
    WaitingOk(s.set_, s.th[t]);
    forall m | Single(m) ensures Has(Or(s.set_, bits), m) <==> Has(s.set_, m) || Has(bits, m) { HasOr(s.set_, bits, m); }
    SendKeeps(s, bits);
    if t !in Send(s, bits).waiters { DeliverIsReceive(now, s.th[t].asked, s.th[t].info); }
  }

  /** The first in the list is served from all bits that were set or are sent. */
  lemma FirstServed(s: State, bits: bv32)
    requires Inv(s) && bits != 0 && s.waiters != [] && s.waiters[0] in s.th
    ensures var r, t := Send(s, bits), s.waiters[0];
      && (t !in r.waiters <==> Met(Or(s.set_, bits), s.th[t].asked, s.th[t].info))
      && (t !in r.waiters ==> r.th[t].phase == Woken && r.th[t].err == Eok && r.th[t].eventSet == Both(Or(s.set_, bits), s.th[t].asked))
  {
    hide Walk; hide Deliver; hide Met; hide Both; hide Or;
    var t := s.waiters[0];
    Uncons(s.waiters);
    WaitingOk(s.set_, s.th[t]);
    WalkFirst(Or(s.set_, bits), s.waiters, s.th);
    SendKeeps(s, bits);
    if t !in Send(s, bits).waiters { DeliverIsReceive(Or(s.set_, bits), s.th[t].asked, s.th[t].info); }
  }

  lemma WalkFirst(set_: bv32, rest: seq<int>, th: map<int, Th>)
    requires Distinct(rest) && rest != [] && rest[0] in th && forall x :: x in rest ==> x in th
    ensures var (_, kept, th') := Walk(set_, rest, th); var a := th[rest[0]];
      && (rest[0] !in kept <==> Met(set_, a.eventSet, a.info))
      && (rest[0] !in kept ==> th'[rest[0]] == Wake(a, set_))
  {
    hide Met; hide Deliver; hide Served; hide Below;
    Uncons(rest);
    var a := th[rest[0]];
    WalkQuiet(Deliver(set_, a.eventSet, a.info).1, rest[1..], th[rest[0] := Wake(a, set_)]);
  }

  /** A receive, bit by bit: requested bits leave the set exactly if the condition is met with `clear`. */
  lemma RecvBits(s: State, t: int, want: bv32, o: Option, timeout: int, m: bv32)
    requires t in s.th && Single(m)
    ensures Has(Recv(s, t, want, o, timeout).set_, m) <==> Has(s.set_, m) && !(want != 0 && Met(s.set_, want, o) && o.clear && Has(want, m))
  {
    hide Has; hide Single; hide Met; hide Enqueue; hide Minus; hide Both;
    HasMinus(s.set_, want, m);
  }

  // ---- runs -----------------------------------------------------------------------------------

  datatype Op =
    | DoSend(set_: bv32)
    | DoRecv(t: int, want: bv32, o: Option, timeout: int)
    | DoExpire(t: int) | DoReset | DoReturn(t: int)

  ghost predicate Enabled(s: State, op: Op) {
    match op
    case DoSend(_) => true
    case DoRecv(t, _, o, _) => t in s.th && s.th[t].phase == Idle && (o.all || o.any)
    case DoExpire(t) => t in s.th && s.th[t].phase == Waiting
    case DoReset => true
    case DoReturn(t) => t in s.th && s.th[t].phase == Woken
  }

  ghost function Step(s: State, op: Op): State
    requires Listed(s) && Enabled(s, op)
  {
    match op
    case DoSend(set_) => Send(s, set_)
    case DoRecv(t, want, o, timeout) => Recv(s, t, want, o, timeout)
    case DoExpire(t) => Expire(s, t)
    case DoReset => Reset(s)
    case DoReturn(t) => Return(s, t)
  }

  lemma StepKeeps(s: State, op: Op)
    requires Inv(s) && Enabled(s, op)
    ensures Inv(Step(s, op))
  {
    hide Inv; hide Send; hide Recv; hide Expire; hide Reset; hide Return;
    match op
    case DoSend(set_) => SendKeeps(s, set_);
    case DoRecv(t, want, o, timeout) => RecvKeeps(s, t, want, o, timeout);
    case DoExpire(t) => ExpireKeeps(s, t);
    case DoReset => ResetKeeps(s);
    case DoReturn(t) => ReturnKeeps(s, t);
  }

  /** `ops` can happen one after the other from `s`. */
  ghost predicate Can(s: State, ops: seq<Op>)
    requires Inv(s)
    decreases |ops|
  {
    ops == [] || (Enabled(s, ops[0]) && (StepKeeps(s, ops[0]); Can(Step(s, ops[0]), ops[1..])))
  }

  ghost function Run(s: State, ops: seq<Op>): State
    requires Inv(s) && Can(s, ops)
    decreases |ops|
  {
    if ops == [] then s else StepKeeps(s, ops[0]); Run(Step(s, ops[0]), ops[1..])
  }

  /** Between any two operations of any run, no waiting thread's condition is met by the event set. */
  lemma {:induction false} RunQuiet(s: State, ops: seq<Op>)
    requires Inv(s) && Can(s, ops)
    ensures var r := Run(s, ops);
      Inv(r) && forall t :: t in r.waiters ==> t in r.th && !Met(r.set_, r.th[t].asked, r.th[t].info)
    decreases |ops|
  {
    hide Step; hide Met; hide Both; hide Distinct;
    if ops != [] {
      StepKeeps(s, ops[0]);
      RunQuiet(Step(s, ops[0]), ops[1..]);
    }
  }

  /** What every thread last asked for, from the operations alone. */
  ghost function Asks(want: map<int, (bv32, Option)>, ops: seq<Op>): map<int, (bv32, Option)>
    decreases |ops|
  {
    if ops == [] then want else Asks(Ask(want, ops[0]), ops[1..])
  }

  ghost function Ask(want: map<int, (bv32, Option)>, op: Op): map<int, (bv32, Option)> {
    if op.DoRecv? && op.want != 0 then want[op.t := (op.want, op.o)] else want
  }

  /** A thread inside a blocked call waits for, or was woken with, what it asked for in that call. */
  ghost predicate Asked(s: State, want: map<int, (bv32, Option)>) {
    forall t :: t in s.th && s.th[t].phase != Idle ==> t in want && s.th[t].asked == want[t].0 && s.th[t].info == want[t].1
  }

  lemma SendAsked(s: State, bits: bv32, want: map<int, (bv32, Option)>)
    requires Inv(s) && Asked(s, want)
    ensures Asked(Send(s, bits), want)
  {
    hide Walk; hide Met; hide Both; hide Below; hide Or; hide ThreadOk; hide Sorted; hide Deliver;
    if bits != 0 { WalkQuiet(Or(s.set_, bits), s.waiters, s.th); }
  }

  lemma RecvAsked(s: State, t: int, w: bv32, o: Option, timeout: int, want: map<int, (bv32, Option)>)
    requires t in s.th && s.th[t].phase == Idle && Asked(s, want)
    ensures Asked(Recv(s, t, w, o, timeout), Ask(want, DoRecv(t, w, o, timeout)))
  {
    hide Recv;
    RecvThread(s, t, w, o, timeout);
  }

  lemma RecvThread(s: State, t: int, w: bv32, o: Option, timeout: int)
    requires t in s.th && s.th[t].phase == Idle
    ensures var r := Recv(s, t, w, o, timeout);
      && r.th.Keys == s.th.Keys && (forall x :: x in s.th && x != t ==> r.th[x] == s.th[x])
      && (r.th[t].phase != Idle ==> w != 0 && r.th[t].asked == w && r.th[t].info == o)
  {
    hide Met; hide Receive; hide Enqueue;
    var th := s.th[t].(err := Eok);
    if w != 0 && !Met(s.set_, w, o) && timeout != 0 {
      assert Recv(s, t, w, o, timeout).th == s.th[t := th.(eventSet := w, info := o, asked := w, phase := Waiting)];
    }
  }

  lemma ResetAsked(s: State, want: map<int, (bv32, Option)>)
    requires Listed(s) && Asked(s, want)
    ensures Asked(Reset(s), want)
  {
    hide Dismiss; hide InLine;
    DismissAll(s.waiters, s.th);
  }

  lemma StepAsked(s: State, op: Op, want: map<int, (bv32, Option)>)
    requires Inv(s) && Enabled(s, op) && Asked(s, want)
    ensures Asked(Step(s, op), Ask(want, op))
  {
    hide Send; hide Recv; hide Reset; hide Remove; hide ThreadOk; hide InLine;
    match op {
      case DoSend(bits) => SendAsked(s, bits, want);
      case DoRecv(t, w, o, timeout) => RecvAsked(s, t, w, o, timeout, want);
      case DoReset => ResetAsked(s, want);
      case _ =>
    }
  }

  /** Over any run, a receive that had to wait gets, when it returns without error, exactly those bits it
      asked for in its call that were set when it was served, and they met its condition. */
  lemma {:induction false} RunAsked(s: State, ops: seq<Op>, want: map<int, (bv32, Option)>, t: int)
    requires Inv(s) && Can(s, ops) && Asked(s, want)
    ensures var r := Run(s, ops); var w := Asks(want, ops);
      && Asked(r, w)
      && (t in r.th && r.th[t].phase == Woken && r.th[t].err == Eok ==>
        t in w && r.th[t].eventSet == Both(r.th[t].seen, w[t].0) && Met(r.th[t].seen, w[t].0, w[t].1))
    decreases |ops|
  {
    hide Step; hide Ask; hide Met; hide Both; hide InLine; hide Enabled;
    if ops != [] {
      StepKeeps(s, ops[0]);
      StepAsked(s, ops[0], want);
      RunAsked(Step(s, ops[0]), ops[1..], Ask(want, ops[0]), t);
    }
  }

  // ---- the object -----------------------------------------------------------------------------

  class EventSet {
    var set_: bv32
    var waiters: seq<int>       // suspend_thread
    var th: map<int, Th>
    const fifo: bool            // RT_IPC_FLAG_FIFO
    const prio: map<int, int>

    ghost function Abs(): State
      reads this
    {
      State(set_, waiters, th, fifo, prio)
    }

    constructor (th: map<int, Th>, fifo: bool, prio: map<int, int>)
      requires forall t :: t in th ==> th[t].phase == Idle
      ensures Inv(Abs()) && set_ == 0 && waiters == [] && this.th == th
    {
      set_, waiters, this.th, this.fifo, this.prio := 0, [], th, fifo, prio;
    }

    /** The loop of rt_event_send: one pass over the wait list, waking and clearing as it goes. */
    method WalkList()
      requires forall x :: x in waiters ==> x in th
      modifies `set_, `waiters, `th
      ensures (set_, waiters, th) == old(Walk(set_, waiters, th))
    {
      hide Met; hide Deliver; hide Wake; hide Walk;
      var n, kept := 0, [];
      ghost var whole := Walk(set_, waiters, th);
      assert [] + whole.1 == whole.1 && waiters[0..] == waiters;
      while n < |waiters|
        invariant 0 <= n <= |waiters| && waiters == old(waiters)
        invariant Rest(set_, waiters[n..], th, kept, whole)
      {
        var t := waiters[n];
        assert waiters[n..][0] == t && waiters[n..][1..] == waiters[n + 1..];
        HeadKnown(waiters[n..], th);
        if Met(set_, th[t].eventSet, th[t].info) {
          WakeOne(set_, waiters[n..], th, kept, whole);
          var was := set_;
          set_ := Deliver(was, th[t].eventSet, th[t].info).1;
          th := th[t := Wake(th[t], was)];
        } else {
          KeepOne(set_, waiters[n..], th, kept, whole);
          kept := kept + [t];
        }
        n := n + 1;
      }
      RestDone(set_, waiters[n..], th, kept, whole);
      waiters := kept;
    }

    /** rt_event_send. */
    method SendIt(bits: bv32) returns (ok: bool)
      requires Inv(Abs())
      modifies `set_, `waiters, `th
      ensures Inv(Abs()) && Abs() == Send(old(Abs()), bits) && ok == (bits != 0)
    {
      hide Inv; hide Or; hide Walk;
      SendKeeps(Abs(), bits);
      InvListed(Abs());
      if bits == 0 { return false; }
      set_ := Or(set_, bits);
      WalkList();
      return true;
    }

    /** rt_event_recv: `blocked` if the thread is now suspended, else the result and the bits received. */
    method RecvIt(t: int, want: bv32, o: Option, timeout: int) returns (blocked: bool, r: Err, got: bv32)
      requires Inv(Abs()) && t in th && th[t].phase == Idle && (o.all || o.any)
      modifies `set_, `waiters, `th
      ensures Inv(Abs()) && Abs() == Recv(old(Abs()), t, want, o, timeout)
      ensures want == 0 ==> !blocked && r == Eerror
      ensures want != 0 && Met(old(set_), want, o) ==> !blocked && r == Eok && got == Both(old(set_), want)
      ensures want != 0 && !Met(old(set_), want, o) ==> blocked == (timeout != 0) && r == if blocked then Eok else Etimeout
      ensures want != 0 ==> th[t].err == r
      ensures blocked ==> t in waiters && th[t].asked == want && th[t].info == o && th[t].phase == Waiting
    {
      hide Inv; hide Met; hide Both; hide Minus; hide Enqueue;
      RecvKeeps(Abs(), t, want, o, timeout);
      if want == 0 { return false, Eerror, 0; }
      th := th[t := th[t].(err := Eok)];
      if Met(set_, want, o) {
        got := Both(set_, want);
        if o.clear { set_ := Minus(set_, want); }
        return false, Eok, got;
      } else if timeout == 0 {
        th := th[t := th[t].(err := Etimeout)];
        assert th == old(th)[t := old(th[t]).(err := Etimeout)];
        return false, Etimeout, 0;
      } else {
        th := th[t := th[t].(eventSet := want, info := o, asked := want, phase := Waiting)];
        assert th == old(th)[t := old(th[t]).(err := Eok, eventSet := want, info := o, asked := want, phase := Waiting)];
        assert t in Enqueue(waiters, fifo, prio, t) by { EnqueueHas(waiters, fifo, prio, t); }
        waiters := Enqueue(waiters, fifo, prio, t);
        return true, Eok, 0;
      }
    }

    /** rt_thread_timeout of a waiting thread. */
    method ExpireIt(t: int)
      requires Inv(Abs()) && t in th && th[t].phase == Waiting
      modifies `waiters, `th
      ensures Inv(Abs()) && Abs() == Expire(old(Abs()), t)
    {
      hide Inv; hide Remove;
      ExpireKeeps(Abs(), t);
      waiters := Remove(waiters, t);
      th := th[t := th[t].(err := Etimeout, phase := Woken)];
    }

    /** A woken thread runs again: rt_event_recv returns its error and, without error, its bits. */
    method ReturnIt(t: int) returns (r: Err, got: bv32)
      requires Inv(Abs()) && t in th && th[t].phase == Woken
      modifies `th
      ensures Inv(Abs()) && Abs() == Return(old(Abs()), t) && r == old(th[t].err)
      ensures r == Eok ==> got == Both(th[t].seen, th[t].asked) && Met(th[t].seen, th[t].asked, th[t].info)
    {
      hide Inv; hide Both; hide Met;
      ReturnKeeps(Abs(), t);
      r, got := th[t].err, th[t].eventSet;
      th := th[t := th[t].(phase := Idle)];
    }

    /** rt_event_control with RT_IPC_CMD_RESET. */
    method ResetIt()
      requires Inv(Abs())
      modifies `set_, `waiters, `th
      ensures Inv(Abs()) && Abs() == Reset(old(Abs()))
    {
      hide Inv;
      ResetKeeps(Abs());
      InvListed(Abs());
      while waiters != []
        invariant forall x :: x in waiters ==> x in th
        invariant Dismiss(waiters, th) == old(Dismiss(waiters, th))
        decreases |waiters|
      {
        var t := waiters[0];
        assert t in waiters;
        th := th[t := th[t].(err := Eerror, phase := Woken)];
        waiters := waiters[1..];
      }
      set_ := 0;
    }
  }

  lemma EnqueueHas(row: seq<int>, fifo: bool, key: map<int, int>, t: int)
    ensures t in Enqueue(row, fifo, key, t)
  {
    InsertMembers(row, key, t);
  }

  lemma HeadKnown(rest: seq<int>, th: map<int, Th>)
    requires rest != [] && forall x :: x in rest ==> x in th
    ensures rest[0] in th
  {
    var t := rest[0];
    assert t in rest;
  }

  lemma WakeOne(set_: bv32, rest: seq<int>, th: map<int, Th>, kept: seq<int>, whole: (bv32, seq<int>, map<int, Th>))
    requires Rest(set_, rest, th, kept, whole) && rest != [] && rest[0] in th
    requires Met(set_, th[rest[0]].eventSet, th[rest[0]].info)
    ensures var t := th[rest[0]];
      Rest(Deliver(set_, t.eventSet, t.info).1, rest[1..], th[rest[0] := Wake(t, set_)], kept, whole)
  {
    hide Met; hide Deliver; hide Wake;
  }

  lemma RestDone(set_: bv32, rest: seq<int>, th: map<int, Th>, kept: seq<int>, whole: (bv32, seq<int>, map<int, Th>))
    requires Rest(set_, rest, th, kept, whole) && rest == []
    ensures (set_, kept, th) == whole
  {
    assert kept + [] == kept;
  }

  lemma InvListed(s: State)
    requires Inv(s)
    ensures forall x :: x in s.waiters ==> x in s.th
  {}

  /** The rest of the walk completes `kept` to the whole result. */
  ghost predicate Rest(set_: bv32, rest: seq<int>, th: map<int, Th>, kept: seq<int>, whole: (bv32, seq<int>, map<int, Th>)) {
    (forall x :: x in rest ==> x in th) && var r := Walk(set_, rest, th); (r.0, kept + r.1, r.2) == whole
  }

  lemma KeepOne(set_: bv32, rest: seq<int>, th: map<int, Th>, kept: seq<int>, whole: (bv32, seq<int>, map<int, Th>))
    requires Rest(set_, rest, th, kept, whole) && rest != [] && rest[0] in th
    requires !Met(set_, th[rest[0]].eventSet, th[rest[0]].info)
    ensures Rest(set_, rest[1..], th, kept + [rest[0]], whole)
  {
    hide Met;
    var r := Walk(set_, rest[1..], th);
    assert kept + ([rest[0]] + r.1) == kept + [rest[0]] + r.1;
  }
}
