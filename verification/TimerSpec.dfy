/** Timers over integer time: what src/timer.c and src/clock.c are meant to do.

    One list of armed timers, sorted by deadline; timers with equal deadlines in the order in
    which they were inserted. Every tick, the timers that are due fire one after the other.

    A call of rt_timer_start is three steps: one interrupt-disabled section takes the timer off the
    list, the deadline is stamped with interrupts enabled, and a second section inserts the timer.
    Ticks and other calls may come in between. Timeout functions, and callers that keep interrupts
    off, start a timer in one step. */
module TimerSpec {
  import opened SortedRow

  const HALF := 0x7fff_ffff    // RT_TICK_MAX / 2

  /** Timer intervals are at least one tick and below half the counter range. */
  type Interval = x: int | 1 <= x < HALF witness 1

  /** One call of a timeout function: the deadline, when the timer was inserted, and when it fired. */
  datatype Fire = Fire(timer: int, due: int, armed: int, at: int)

  /** What a caller or a timeout function may do to a timer. */
  datatype Op = Start(timer: int) | Stop(timer: int) | SetTime(timer: int, ticks: Interval)

  datatype State = State(
    now: int,
    list: seq<int>,                // armed timers
    due: map<int, int>,            // deadline of every timer ever stamped
    armed: map<int, int>,          // when each timer was last inserted
    period: map<int, Interval>,    // init_tick
    periodic: set<int>,
    active: set<int>,              // RT_TIMER_FLAG_ACTIVATED
    log: seq<Fire>)

  /** The operations the timeout function of the n-th firing performs. */
  type Script = nat -> seq<Op>

  function Max(a: int, b: int): int {
    if a >= b then a else b
  }

  // ---- operations --------------------------------------------------------------------------

  /** The first section of rt_timer_start. */
  function UnlinkTimer(s: State, t: int): State {
    s.(list := Remove(s.list, t), active := s.active - {t})
  }

  /** The unprotected part of rt_timer_start: the deadline. */
  function StampTimer(s: State, t: int): State {
    if t in s.period then s.(due := s.due[t := s.now + s.period[t]]) else s
  }

  /** The second section of rt_timer_start. */
  function ArmTimer(s: State, t: int): State {
    s.(list := Insert(s.list, s.due, t), armed := s.armed[t := s.now], active := s.active + {t})
  }

  /** rt_timer_start with interrupts off. */
  function StartTimer(s: State, t: int): State {
    if t in s.period then ArmTimer(StampTimer(UnlinkTimer(s, t), t), t) else s
  }

  /** rt_timer_stop: no effect on a timer that is not activated. */
  function StopTimer(s: State, t: int): State {
    if t in s.active then UnlinkTimer(s, t) else s
  }

  /** rt_timer_control with RT_TIMER_CTRL_SET_TIME. */
  function SetPeriod(s: State, t: int, ticks: Interval): State {
    if t in s.period then s.(period := s.period[t := ticks]) else s
  }

  function Apply(s: State, op: Op): State {
    match op
    case Start(t) => StartTimer(s, t)
    case Stop(t) => StopTimer(s, t)
    case SetTime(t, ticks) => SetPeriod(s, t, ticks)
  }

  function ApplyAll(s: State, ops: seq<Op>): State
    decreases |ops|
  {
    if ops == [] then s else ApplyAll(Apply(s, ops[0]), ops[1..])
  }

  /** The first timer leaves the list and its timeout function is called. */
  function Called(s: State): State
    requires s.list != []
  {
    var t := s.list[0];
    s.(list := s.list[1..], log := s.log + [Fire(t, Key(s.due, t), Key(s.armed, t), s.now)])
  }

  /** The state in which the timeout function of the first timer returns. */
  function Returned(s: State, cb: Script): State
    requires s.list != []
  {
    ApplyAll(Called(s), cb(|s.log|))
  }

  /** One round of the loop in rt_timer_check: the first timer leaves the list, its timeout function
      runs, and it is started again if it is periodic and still activated. */
  function FireFirst(s: State, cb: Script): State
    requires s.list != []
  {
    Finish(Returned(s, cb), s.list[0])
  }

  function Finish(s: State, t: int): State {
    var off := s.(active := s.active - {t});
    if t in s.periodic && t in s.active then StartTimer(off, t) else off
  }

  // ---- order -------------------------------------------------------------------------------

  ghost predicate Ordered(s: State) {
    Distinct(s.list) && Sorted(s.list, s.due)
  }

  /** The number of listed timers that are due. */
  ghost function DueCount(s: State): nat {
    CountDue(s.list, s.due, s.now)
  }

  ghost function CountDue(row: seq<int>, due: map<int, int>, now: int): nat {
    if row == [] then 0 else (if Key(due, row[0]) <= now then 1 else 0) + CountDue(row[1..], due, now)
  }

  lemma {:induction false} CountInsert(row: seq<int>, due: map<int, int>, t: int, now: int)
    ensures CountDue(Insert(row, due, t), due, now) == CountDue(row, due, now) + if Key(due, t) <= now then 1 else 0
  {
    if row != [] && Key(due, row[0]) <= Key(due, t) {
      CountInsert(row[1..], due, t, now);
      assert Insert(row, due, t)[1..] == Insert(row[1..], due, t);
    } else {
      assert Insert(row, due, t)[1..] == row;
    }
  }

  lemma {:induction false} CountRemove(row: seq<int>, due: map<int, int>, due': map<int, int>, t: int, now: int)
    requires forall x :: x != t ==> Key(due', x) == Key(due, x)
    ensures CountDue(Remove(row, t), due', now) <= CountDue(row, due, now)
  {
    if row != [] {
      CountRemove(row[1..], due, due', t, now);
      if row[0] != t { assert Remove(row, t)[1..] == Remove(row[1..], t); }
    }
  }

  /** What no operation changes. */
  ghost predicate Framed(a: State, b: State) {
    b.now == a.now && b.log == a.log && b.periodic == a.periodic && b.period.Keys == a.period.Keys
  }

  lemma UnlinkKeeps(s: State, t: int)
    requires Ordered(s)
    ensures Ordered(UnlinkTimer(s, t)) && DueCount(UnlinkTimer(s, t)) <= DueCount(s)
    ensures forall x :: x in UnlinkTimer(s, t).list <==> x in s.list && x != t
  {
    RemoveKeeps(s.list, s.due, t);
    CountRemove(s.list, s.due, s.due, t, s.now);
  }

  /** Stamping keeps the list in order if and only if the timer is not listed, or its new deadline lies
      between those of its neighbours: a listed timer is stamped when two starts of it overlap. */
  lemma StampKeeps(s: State, t: int)
    requires Ordered(s)
    ensures Ordered(StampTimer(s, t)) <==> (t in s.period ==> Fitting(s.list, s.due, t, s.now + s.period[t]))
  {
    if t in s.period { RekeyedSorted(s.list, s.due, t, s.now + s.period[t]); }
  }

  /** Stamping a timer that is not listed moves nothing. */
  lemma StampCounts(s: State, t: int)
    requires Ordered(s) && t !in s.list
    ensures Ordered(StampTimer(s, t)) && DueCount(StampTimer(s, t)) == DueCount(s)
  {
    StampKeeps(s, t);
    if t in s.period {
      FittingAbsent(s.list, s.due, t, s.now + s.period[t]);
      CountSame(s.list, s.due, s.due[t := s.now + s.period[t]], s.now);
    }
  }

  lemma {:induction false} CountSame(row: seq<int>, due: map<int, int>, due': map<int, int>, now: int)
    requires forall x :: x in row ==> Key(due', x) == Key(due, x)
    ensures CountDue(row, due', now) == CountDue(row, due, now)
  {
    if row != [] {
      Uncons(row);
      CountSame(row[1..], due, due', now);
    }
  }

  /** Insertion keeps the list in order if and only if the timer is not listed already, that is, unless
      another start of the same timer has come in between. */
  lemma ArmKeeps(s: State, t: int)
    requires Ordered(s)
    ensures Ordered(ArmTimer(s, t)) <==> t !in s.list
    ensures DueCount(ArmTimer(s, t)) == DueCount(s) + if Key(s.due, t) <= s.now then 1 else 0
    ensures forall x :: x in ArmTimer(s, t).list <==> x == t || x in s.list
  {
    CountInsert(s.list, s.due, t, s.now);
    InsertMembers(s.list, s.due, t);
    if t in s.list { InsertTwice(s.list, s.due, t); } else { InsertKeeps(s.list, s.due, t); }
  }

  lemma StartKeeps(s: State, t: int)
    requires Ordered(s)
    ensures Ordered(StartTimer(s, t)) && DueCount(StartTimer(s, t)) <= DueCount(s)
    ensures t in s.period ==> forall x :: x in StartTimer(s, t).list <==> x == t || x in s.list
  {
    hide Insert; hide Remove; hide Ordered; hide DueCount;
    if t in s.period {
      UnlinkKeeps(s, t);
      StampCounts(UnlinkTimer(s, t), t);
      ArmKeeps(StampTimer(UnlinkTimer(s, t), t), t);
    }
  }

  /** Operations keep the list in order and never make a timer due at once. */
  lemma ApplyKeeps(s: State, op: Op)
    requires Ordered(s)
    ensures Ordered(Apply(s, op)) && DueCount(Apply(s, op)) <= DueCount(s) && Framed(s, Apply(s, op))
  {
    hide Insert; hide Remove; hide Sorted; hide Distinct;
    match op
    case Start(t) => StartKeeps(s, t);
    case Stop(t) => UnlinkKeeps(s, t);
    case SetTime(_, _) =>
  }

  lemma {:induction false} ApplyAllKeeps(s: State, ops: seq<Op>)
    requires Ordered(s)
    ensures Ordered(ApplyAll(s, ops)) && DueCount(ApplyAll(s, ops)) <= DueCount(s) && Framed(s, ApplyAll(s, ops))
    decreases |ops|
  {
    hide Apply; hide Ordered; hide DueCount;
    if ops != [] {
      ApplyKeeps(s, ops[0]);
      ApplyAllKeeps(Apply(s, ops[0]), ops[1..]);
    }
  }

  lemma CalledKeeps(s: State)
    requires Ordered(s) && s.list != []
    ensures Ordered(Called(s)) && s.list[0] !in Called(s).list
    ensures Key(s.due, s.list[0]) <= s.now ==> DueCount(Called(s)) < DueCount(s)
    ensures forall x :: x in s.list <==> x == s.list[0] || x in Called(s).list
  {
    Uncons(s.list);
  }

  lemma FinishKeeps(s: State, t: int)
    requires Ordered(s)
    ensures Ordered(Finish(s, t)) && DueCount(Finish(s, t)) <= DueCount(s) && Framed(s, Finish(s, t))
  {
    hide Insert; hide Remove; hide Sorted; hide Distinct;
    var off := s.(active := s.active - {t});
    assert Ordered(off) && DueCount(off) == DueCount(s);
    StartKeeps(off, t);
  }

  lemma FireKeeps(s: State, cb: Script)
    requires Ordered(s) && s.list != []
    ensures Ordered(FireFirst(s, cb)) && FireFirst(s, cb).now == s.now
    ensures FireFirst(s, cb).period.Keys == s.period.Keys && FireFirst(s, cb).periodic == s.periodic
    ensures FireFirst(s, cb).log == Called(s).log
    ensures Key(s.due, s.list[0]) <= s.now ==> DueCount(FireFirst(s, cb)) < DueCount(s)
  {
    CalledKeeps(s);
    hide Ordered; hide DueCount; hide ApplyAll; hide Finish;
    ApplyAllKeeps(Called(s), cb(|s.log|));
    FinishKeeps(Returned(s, cb), s.list[0]);
  }

  /** rt_timer_check. */
  ghost function Drain(s: State, cb: Script): State
    requires Ordered(s)
    decreases DueCount(s)
  {
    if s.list == [] || Key(s.due, s.list[0]) > s.now then s
    else
      FireKeeps(s, cb);
      Drain(FireFirst(s, cb), cb)
  }

  // ---- deadlines ---------------------------------------------------------------------------

  /** When a listed timer fires: at its deadline, or at the first check after a later insertion. */
  function FireTime(s: State, t: int): int {
    Max(Key(s.due, t), Key(s.armed, t) + 1)
  }

  /** A listed timer has yet to fire; a check comes only upon timers inserted before its tick. */
  ghost predicate OkAt(s: State, t: int, checking: bool) {
    && t in s.due && Key(s.armed, t) <= s.now
    && FireTime(s, t) >= s.now + (if checking then 0 else 1)
    && (checking && Key(s.due, t) <= s.now ==> Key(s.armed, t) < s.now)
  }

  ghost predicate Window(s: State, checking: bool) {
    forall x :: x in s.list ==> OkAt(s, x, checking)
  }

  /** Deadlines lie less than half the counter range ahead. */
  ghost predicate Stamped(s: State) {
    forall x :: x in s.due ==> s.due[x] < s.now + HALF && x in s.period
  }

  ghost predicate Sane(s: State, checking: bool) {
    Ordered(s) && Stamped(s) && Window(s, checking)
  }

  /** The state between ticks. */
  ghost predicate Quiet(s: State) {
    Sane(s, false)
  }

  /** Between ticks a listed timer is due only if it was inserted since the last tick. */
  lemma OverdueIsNew(s: State, t: int)
    requires Quiet(s) && t in s.list && Key(s.due, t) <= s.now
    ensures Key(s.armed, t) == s.now && FireTime(s, t) == s.now + 1
  {
    assert OkAt(s, t, false);
  }

  lemma UnlinkSane(s: State, t: int, checking: bool)
    requires Sane(s, checking)
    ensures Sane(UnlinkTimer(s, t), checking)
  {
    hide Insert; hide Remove; hide Sorted; hide Distinct;
    UnlinkKeeps(s, t);
    forall x | x in UnlinkTimer(s, t).list ensures OkAt(UnlinkTimer(s, t), x, checking) { assert OkAt(s, x, checking); }
  }

  lemma StampSane(s: State, t: int, checking: bool)
    requires Sane(s, checking) && (t in s.period ==> Fitting(s.list, s.due, t, s.now + s.period[t]))
    ensures Sane(StampTimer(s, t), checking)
  {
    hide Insert; hide Remove; hide Sorted; hide Distinct; hide Fitting;
    StampKeeps(s, t);
    forall x | x in s.list ensures OkAt(StampTimer(s, t), x, checking) { assert OkAt(s, x, checking); }
  }

  lemma ArmSane(s: State, t: int, checking: bool)
    requires Sane(s, checking) && t in s.due && t !in s.list && (checking ==> s.now < s.due[t])
    ensures Sane(ArmTimer(s, t), checking)
  {
    hide Insert; hide Remove; hide Sorted; hide Distinct;
    ArmKeeps(s, t);
    forall x | x in ArmTimer(s, t).list ensures OkAt(ArmTimer(s, t), x, checking) {
      if x != t { assert OkAt(s, x, checking); }
    }
  }

  lemma StartSane(s: State, t: int, checking: bool)
    requires Sane(s, checking)
    ensures Sane(StartTimer(s, t), checking)
  {
    if t in s.period {
      UnlinkKeeps(s, t);
      UnlinkSane(s, t, checking);
      FittingAbsent(UnlinkTimer(s, t).list, s.due, t, s.now + s.period[t]);
      StampSane(UnlinkTimer(s, t), t, checking);
      hide Sane; hide Insert; hide Remove;
      ArmSane(StampTimer(UnlinkTimer(s, t), t), t, checking);
    }
  }

  lemma PeriodSane(s: State, t: int, ticks: Interval, checking: bool)
    requires Sane(s, checking)
    ensures Sane(SetPeriod(s, t, ticks), checking)
  {
    hide Sorted; hide Distinct;
    forall x | x in s.list ensures OkAt(SetPeriod(s, t, ticks), x, checking) { assert OkAt(s, x, checking); }
  }

  lemma ApplySane(s: State, op: Op, checking: bool)
    requires Sane(s, checking)
    ensures Sane(Apply(s, op), checking)
  {
    hide Sane; hide StartTimer; hide UnlinkTimer; hide SetPeriod;
    match op
    case Start(t) => StartSane(s, t, checking);
    case Stop(t) => UnlinkSane(s, t, checking);
    case SetTime(t, ticks) => PeriodSane(s, t, ticks, checking);
  }

  lemma {:induction false} ApplyAllSane(s: State, ops: seq<Op>, checking: bool)
    requires Sane(s, checking)
    ensures Sane(ApplyAll(s, ops), checking)
    decreases |ops|
  {
    hide Sane; hide Apply;
    if ops != [] {
      ApplySane(s, ops[0], checking);
      ApplyAllSane(Apply(s, ops[0]), ops[1..], checking);
    }
  }

  lemma FlagSane(s: State, active: set<int>, checking: bool)
    requires Sane(s, checking)
    ensures Sane(s.(active := active), checking)
  {
    hide Sorted; hide Distinct;
    forall x | x in s.list ensures OkAt(s.(active := active), x, checking) { assert OkAt(s, x, checking); }
  }

  lemma FireSane(s: State, cb: Script)
    requires Sane(s, true) && s.list != []
    ensures Sane(FireFirst(s, cb), true)
  {
    CalledKeeps(s);
    forall x | x in Called(s).list ensures OkAt(Called(s), x, true) { assert OkAt(s, x, true); }
    assert Sane(Called(s), true);
    hide Sane; hide Called; hide ApplyAll; hide StartTimer;
    ApplyAllSane(Called(s), cb(|s.log|), true);
    var r, t := Returned(s, cb), s.list[0];
    FlagSane(r, r.active - {t}, true);
    StartSane(r.(active := r.active - {t}), t, true);
  }

  // ---- what has fired ----------------------------------------------------------------------

  /** Every entry was made at the deadline or, if the timer was inserted no earlier than that, at the
      first check after the insertion; entries are in time order, and in deadline order within a check. */
  ghost predicate Punctual(log: seq<Fire>, now: int) {
    && (forall i :: 0 <= i < |log| ==> log[i].at == Max(log[i].due, log[i].armed + 1) <= now)
    && (forall i, j :: 0 <= i < j < |log| ==> log[i].at <= log[j].at && (log[i].at == log[j].at ==> log[i].due <= log[j].due))
  }

  /** What fired at this tick was due no later than anything still listed. */
  ghost predicate Behind(s: State) {
    forall i, x :: 0 <= i < |s.log| && x in s.list && s.log[i].at == s.now ==> s.log[i].due <= Key(s.due, x)
  }

  lemma FirstPunctual(s: State)
    requires Sane(s, true) && s.list != [] && Key(s.due, s.list[0]) <= s.now && Punctual(s.log, s.now) && Behind(s)
    ensures Punctual(Called(s).log, s.now)
    ensures forall i, x :: 0 <= i < |Called(s).log| && x in Called(s).list && Called(s).log[i].at == s.now ==>
      Called(s).log[i].due <= Key(s.due, x)
  {
    var t := s.list[0];
    Uncons(s.list);
    assert OkAt(s, t, true);
    var log := Called(s).log;
    forall i, x | 0 <= i < |log| && x in s.list[1..] && log[i].at == s.now ensures log[i].due <= Key(s.due, x) {
      if i < |s.log| { assert log[i] == s.log[i]; assert x in s.list; }
    }
    forall i, j | 0 <= i < j < |log| ensures log[i].at <= log[j].at && (log[i].at == log[j].at ==> log[i].due <= log[j].due) {
      if j == |s.log| { assert log[i] == s.log[i]; assert t in s.list; }
    }
  }

  /** Whatever a timeout function starts is due only after this tick. */
  ghost predicate NewLater(a: State, b: State) {
    b.now == a.now && forall x :: x in b.list ==> Key(b.due, x) > a.now || (x in a.list && Key(b.due, x) == Key(a.due, x))
  }

  lemma ApplyLater(s: State, op: Op)
    requires Ordered(s)
    ensures NewLater(s, Apply(s, op))
  {
    hide Insert; hide Remove; hide Sorted; hide Distinct;
    match op
    case Start(t) => StartKeeps(s, t);
    case Stop(t) => UnlinkKeeps(s, t);
    case SetTime(_, _) =>
  }

  lemma {:induction false} ApplyAllLater(s: State, ops: seq<Op>)
    requires Ordered(s)
    ensures NewLater(s, ApplyAll(s, ops))
    decreases |ops|
  {
    hide Apply; hide Ordered;
    if ops != [] {
      ApplyKeeps(s, ops[0]);
      ApplyLater(s, ops[0]);
      ApplyAllLater(Apply(s, ops[0]), ops[1..]);
    }
  }

  lemma FireLater(s: State, cb: Script)
    requires Ordered(s) && s.list != []
    ensures NewLater(Called(s), FireFirst(s, cb))
  {
    CalledKeeps(s);
    hide Ordered; hide ApplyAll; hide Called; hide StartTimer;
    ApplyAllKeeps(Called(s), cb(|s.log|));
    ApplyAllLater(Called(s), cb(|s.log|));
    var r, t := Returned(s, cb), s.list[0];
    OrderedFlags(r, r.active - {t});
    ApplyLater(r.(active := r.active - {t}), Start(t));
  }

  lemma OrderedFlags(s: State, active: set<int>)
    requires Ordered(s)
    ensures Ordered(s.(active := active))
  {}

  lemma FireBehind(s: State, cb: Script)
    requires Sane(s, true) && s.list != [] && Key(s.due, s.list[0]) <= s.now && Punctual(s.log, s.now) && Behind(s)
    ensures Punctual(FireFirst(s, cb).log, s.now) && Behind(FireFirst(s, cb))
  {
    FirstPunctual(s);
    FireKeeps(s, cb);
    FireLater(s, cb);
    hide Sane; hide FireFirst; hide Ordered; hide Max;
    var r := FireFirst(s, cb);
    forall i, x | 0 <= i < |r.log| && x in r.list && r.log[i].at == r.now ensures r.log[i].due <= Key(r.due, x) {
      PunctualAt(r.log, s.now, i);
    }
  }

  lemma PunctualAt(log: seq<Fire>, now: int, i: nat)
    requires Punctual(log, now) && i < |log|
    ensures log[i].due <= log[i].at <= now
  {}

  /** A check leaves no due timer on the list; all it fires has this tick as its time to fire. */
  lemma {:induction false} DrainKeeps(s: State, cb: Script)
    requires Sane(s, true) && Punctual(s.log, s.now) && Behind(s)
    ensures var r := Drain(s, cb);
      && Quiet(r) && r.now == s.now && r.period.Keys == s.period.Keys && r.periodic == s.periodic
      && Punctual(r.log, r.now) && forall x :: x in r.list ==> Key(r.due, x) > r.now
    decreases DueCount(s)
  {
    if s.list == [] || Key(s.due, s.list[0]) > s.now {
      forall x | x in s.list ensures s.now < Key(s.due, x) && OkAt(s, x, false) {
        Uncons(s.list);
        assert OkAt(s, x, true);
      }
    } else {
      FireKeeps(s, cb);
      FireSane(s, cb);
      FireBehind(s, cb);
      hide Punctual; hide Behind; hide FireFirst; hide Sane; hide Quiet;
      SaneOrdered(s, true);
      DrainKeeps(FireFirst(s, cb), cb);
    }
  }

  lemma SaneOrdered(s: State, checking: bool)
    requires Sane(s, checking)
    ensures Ordered(s)
  {}
}
