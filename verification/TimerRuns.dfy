/** Runs of the timers: ticks and calls, and the sections of calls, in any interleaving. */
module TimerRuns {
  import opened SortedRow
  import opened TimerSpec

  // ---- runs --------------------------------------------------------------------------------

  /** A whole call, a tick with the behaviour of its timeout functions, or one section of a call: the
      three of rt_timer_start, and the two of rt_timer_stop. */
  datatype Event =
    | Do(op: Op)
    | Tick(cb: Script)
    | Unlink(timer: int)
    | Stamp(timer: int)
    | Arm(timer: int)
    | Detach(timer: int)
    | Clear(timer: int)

  /** A start stamps and inserts a timer that it has taken off the list. If another start of the same
      timer has come in between, the stamp must leave the list in order, and the timer must be off the
      list again before it is inserted. */
  predicate Enabled(s: State, e: Event) {
    match e
    case Stamp(t) => t in s.period && Fitting(s.list, s.due, t, s.now + s.period[t])
    case Arm(t) => t in s.due && t !in s.list
    case _ => true
  }

  /** rt_tick_increase, as far as timers go. */
  ghost function TickOnce(s: State, cb: Script): State
    requires Ordered(s)
  {
    Drain(s.(now := s.now + 1), cb)
  }

  ghost function Step(s: State, e: Event): State
    requires Ordered(s)
  {
    match e
    case Do(op) => Apply(s, op)
    case Tick(cb) => TickOnce(s, cb)
    case Unlink(t) => UnlinkTimer(s, t)
    case Stamp(t) => StampTimer(s, t)
    case Arm(t) => ArmTimer(s, t)
    case Detach(t) => s.(list := Remove(s.list, t))
    case Clear(t) => s.(active := s.active - {t})
  }

  /** The state between ticks, with what has fired. */
  ghost predicate Healthy(s: State) {
    Quiet(s) && Punctual(s.log, s.now)
  }

  lemma HealthyOrdered(s: State)
    requires Healthy(s)
    ensures Ordered(s)
  {}

  lemma TickStarts(s: State)
    requires Healthy(s)
    ensures var n := s.(now := s.now + 1); Sane(n, true) && Punctual(n.log, n.now) && Behind(n)
  {
    var n := s.(now := s.now + 1);
    forall x | x in n.list ensures OkAt(n, x, true) { assert OkAt(s, x, false); }
  }

  lemma DetachKeeps(s: State, t: int)
    requires Healthy(s)
    ensures Healthy(s.(list := Remove(s.list, t)))
  {
    hide Sane; hide Punctual;
    UnlinkSane(s, t, false);
    FlagSane(UnlinkTimer(s, t), s.active, false);
  }

  lemma DoKeeps(s: State, op: Op)
    requires Healthy(s)
    ensures Healthy(Apply(s, op)) && Framed(s, Apply(s, op))
  {
    ApplySane(s, op, false);
    ApplyKeeps(s, op);
    hide Sane; hide Apply; hide Punctual;
  }

  lemma TickKeeps(s: State, cb: Script)
    requires Healthy(s)
    ensures var r := TickOnce(s, cb);
      && Healthy(r) && r.now == s.now + 1 && r.period.Keys == s.period.Keys && r.periodic == s.periodic
      && forall x :: x in r.list ==> Key(r.due, x) > r.now
  {
    TickStarts(s);
    hide Sane; hide Punctual; hide Behind; hide Drain;
    SaneOrdered(s.(now := s.now + 1), true);
    DrainKeeps(s.(now := s.now + 1), cb);
  }

  lemma StepKeeps(s: State, e: Event)
    requires Healthy(s) && Enabled(s, e)
    ensures var r := Step(s, e);
      && Healthy(r) && r.period.Keys == s.period.Keys && r.periodic == s.periodic
      && r.now == s.now + if e.Tick? then 1 else 0
  {
    HealthyOrdered(s);
    if e.Do? { DoKeeps(s, e.op); }
    if e.Tick? { TickKeeps(s, e.cb); }
    if e.Detach? { DetachKeeps(s, e.timer); }
    hide Sane; hide Apply; hide TickOnce; hide Punctual; hide Ordered; hide UnlinkTimer;
    match e
    case Unlink(t) => UnlinkSane(s, t, false); UnlinkFrame(s, t);
    case Stamp(t) => StampSane(s, t, false);
    case Arm(t) => ArmSane(s, t, false);
    case Clear(t) => FlagSane(s, s.active - {t}, false);
    case _ =>
  }

  lemma UnlinkFrame(s: State, t: int)
    ensures Framed(s, UnlinkTimer(s, t)) && UnlinkTimer(s, t).period == s.period
  {}

  /** No section comes at a time that the code could not reach, or at which it would insert twice. */
  ghost predicate Can(s: State, es: seq<Event>)
    requires Healthy(s)
    decreases |es|
  {
    es != [] ==>
      && Enabled(s, es[0])
      && (StepKeeps(s, es[0]);
          Can(Step(s, es[0]), es[1..]))
  }

  ghost function Run(s: State, es: seq<Event>): State
    requires Healthy(s) && Can(s, es)
    decreases |es|
  {
    if es == [] then s
    else
      StepKeeps(s, es[0]);
      Run(Step(s, es[0]), es[1..])
  }

  ghost function Ticks(es: seq<Event>): nat {
    if es == [] then 0 else (if es[0].Tick? then 1 else 0) + Ticks(es[1..])
  }

  lemma RunNothing(s: State)
    requires Healthy(s)
    ensures Can(s, []) && Run(s, []) == s && Ticks([]) == 0
  {}

  lemma RunNext(s: State, es: seq<Event>)
    requires Healthy(s) && Can(s, es) && es != []
    ensures Enabled(s, es[0]) && Ordered(s) && Healthy(Step(s, es[0])) && Can(Step(s, es[0]), es[1..])
    ensures Run(s, es) == Run(Step(s, es[0]), es[1..])
    ensures s.now + Ticks(es) == Step(s, es[0]).now + Ticks(es[1..])
  {
    StepKeeps(s, es[0]);
  }

  /** In every run, however the sections of calls are interleaved, the list stays sorted and without
      duplicates, a timer that is due stays listed between ticks only if it was inserted since the last
      tick, and every firing happens at the deadline or at the first check after a later insertion. */
  lemma {:induction false} RunKeeps(s: State, es: seq<Event>)
    requires Healthy(s) && Can(s, es)
    ensures var r := Run(s, es);
      && Healthy(r) && r.period.Keys == s.period.Keys && r.periodic == s.periodic && r.now == s.now + Ticks(es)
      && forall x :: x in r.list && Key(r.due, x) <= r.now ==> Key(r.armed, x) == r.now
    decreases |es|
  {
    if es == [] {
      forall x | x in s.list && Key(s.due, x) <= s.now ensures Key(s.armed, x) == s.now { OverdueIsNew(s, x); }
    } else {
      StepKeeps(s, es[0]);
      hide Healthy; hide Step; hide Enabled;
      RunKeeps(Step(s, es[0]), es[1..]);
    }
  }

  /** A run of two parts. */
  lemma {:induction false} RunSplit(s: State, a: seq<Event>, b: seq<Event>)
    requires Healthy(s) && Can(s, a + b)
    ensures Can(s, a) && Healthy(Run(s, a)) && Can(Run(s, a), b) && Run(s, a + b) == Run(Run(s, a), b)
    decreases |a|
  {
    if a == [] {
      assert a + b == b;
    } else {
      assert (a + b)[0] == a[0] && (a + b)[1..] == a[1..] + b;
      StepKeeps(s, a[0]);
      hide Healthy; hide Step; hide Enabled;
      RunSplit(Step(s, a[0]), a[1..], b);
    }
  }

  // ---- the life of one timer ---------------------------------------------------------------

  /** The times at which timer `t` fired. */
  ghost function FiresOf(log: seq<Fire>, t: int): seq<int> {
    if log == [] then []
    else FiresOf(log[..|log| - 1], t) + (if log[|log| - 1].timer == t then [log[|log| - 1].at] else [])
  }

  lemma FiresOfNext(log: seq<Fire>, f: Fire, t: int)
    ensures FiresOf(log + [f], t) == FiresOf(log, t) + if f.timer == t then [f.at] else []
  {
    assert (log + [f])[..|log|] == log;
  }

  /** Everything about timer `t`. */
  datatype Phase = Phase(listed: bool, due: int, armed: int, period: int, active: bool, fires: seq<int>)

  ghost function PhaseOf(s: State, t: int): Phase {
    Phase(t in s.list, Key(s.due, t), Key(s.armed, t), if t in s.period then s.period[t] else 0, t in s.active, FiresOf(s.log, t))
  }

  lemma PhaseIs(s: State, t: int)
    ensures PhaseOf(s, t) ==
      Phase(t in s.list, Key(s.due, t), Key(s.armed, t), if t in s.period then s.period[t] else 0, t in s.active, FiresOf(s.log, t))
  {}

  ghost predicate Leaves(cb: Script, t: int) {
    forall n: nat, op :: op in cb(n) ==> op.timer != t
  }

  lemma LeavesAt(cb: Script, t: int, n: nat)
    requires Leaves(cb, t)
    ensures forall op :: op in cb(n) ==> op.timer != t
  {}

  lemma StartOther(s: State, x: int, t: int)
    requires Ordered(s) && x != t
    ensures PhaseOf(StartTimer(s, x), t) == PhaseOf(s, t)
  {
    hide Insert; hide Remove; hide Sorted; hide Distinct;
    StartKeeps(s, x);
  }

  lemma ApplyOther(s: State, op: Op, t: int)
    requires Ordered(s) && op.timer != t
    ensures PhaseOf(Apply(s, op), t) == PhaseOf(s, t)
  {
    hide Insert; hide Remove; hide Sorted; hide Distinct; hide StartTimer;
    match op
    case Start(x) => StartOther(s, x, t);
    case Stop(x) => UnlinkKeeps(s, x);
    case SetTime(_, _) =>
  }

  lemma {:induction false} ApplyAllOther(s: State, ops: seq<Op>, t: int)
    requires Ordered(s) && forall op :: op in ops ==> op.timer != t
    ensures PhaseOf(ApplyAll(s, ops), t) == PhaseOf(s, t)
    decreases |ops|
  {
    if ops != [] {
      ApplyKeeps(s, ops[0]);
      ApplyOther(s, ops[0], t);
      ApplyAllOther(Apply(s, ops[0]), ops[1..], t);
    }
  }

  lemma CalledPhase(s: State, t: int)
    requires Ordered(s) && s.list != []
    ensures s.list[0] != t ==> PhaseOf(Called(s), t) == PhaseOf(s, t)
    ensures s.list[0] == t ==> PhaseOf(Called(s), t) == PhaseOf(s, t).(listed := false, fires := FiresOf(s.log, t) + [s.now])
  {
    CalledKeeps(s);
    var x := s.list[0];
    FiresOfNext(s.log, Fire(x, Key(s.due, x), Key(s.armed, x), s.now), t);
    if x != t { assert FiresOf(s.log, t) + [] == FiresOf(s.log, t); }
  }

  lemma ActivePhase(s: State, active: set<int>, t: int)
    ensures PhaseOf(s.(active := active), t) == PhaseOf(s, t).(active := t in active)
  {}

  /** Timer `t` when the timeout function of the first timer, which leaves it alone, returns. */
  lemma ReturnedPhase(s: State, cb: Script, t: int)
    requires Ordered(s) && s.list != [] && Leaves(cb, t)
    ensures var r := Returned(s, cb);
      && Ordered(r) && r.now == s.now && r.periodic == s.periodic && r.period.Keys == s.period.Keys
      && PhaseOf(r, t) == PhaseOf(Called(s), t)
  {
    CalledKeeps(s);
    LeavesAt(cb, t, |s.log|);
    hide ApplyAll; hide Leaves; hide PhaseOf; hide Ordered;
    ApplyAllOther(Called(s), cb(|s.log|), t);
    ApplyAllKeeps(Called(s), cb(|s.log|));
  }

  lemma FinishPhase(s: State, x: int, t: int)
    requires Ordered(s)
    ensures x != t ==> PhaseOf(Finish(s, x), t) == PhaseOf(s, t)
    ensures x == t ==>
      PhaseOf(Finish(s, t), t) ==
      if t in s.periodic && t in s.active && t in s.period then
        PhaseOf(s, t).(listed := true, due := s.now + s.period[t], armed := s.now, active := true)
      else PhaseOf(s, t).(active := false)
  {
    var off := s.(active := s.active - {x});
    OrderedFlags(s, s.active - {x});
    ActivePhase(s, s.active - {x}, t);
    if x != t { PhaseIs(s, t); }
    hide Ordered; hide PhaseOf; hide StartTimer;
    if x == t { StartPhase(off, t); } else { StartOther(off, x, t); }
  }

  /** Starting a timer in one step inserts it with a deadline one interval ahead. */
  lemma StartPhase(s: State, t: int)
    requires Ordered(s)
    ensures t in s.period ==>
      PhaseOf(StartTimer(s, t), t) == PhaseOf(s, t).(listed := true, due := s.now + s.period[t], armed := s.now, active := true)
    ensures t !in s.period ==> StartTimer(s, t) == s
  {
    hide Insert; hide Remove; hide Sorted; hide Distinct;
    StartKeeps(s, t);
  }

  /** The phase of a timer after a check at time `now`; a periodic timer starts again. */
  ghost function Checked(p: Phase, now: int, periodic: bool): Phase {
    if !p.listed || p.due > now then p
    else if periodic && p.active then p.(due := now + p.period, armed := now, fires := p.fires + [now])
    else p.(listed := false, active := false, fires := p.fires + [now])
  }

  /** What a round of the check means for a timer that its timeout functions leave alone. */
  lemma FirePhase(s: State, cb: Script, t: int)
    requires Ordered(s) && s.list != [] && Leaves(cb, t) && t in s.period
    ensures s.list[0] != t ==> PhaseOf(FireFirst(s, cb), t) == PhaseOf(s, t)
    ensures s.list[0] == t && Key(s.due, t) <= s.now ==> PhaseOf(FireFirst(s, cb), t) == Checked(PhaseOf(s, t), s.now, t in s.periodic)
  {
    CalledPhase(s, t);
    ReturnedPhase(s, cb, t);
    var r := Returned(s, cb);
    FinishPhase(r, s.list[0], t);
    PhaseIs(r, t);
    PhaseIs(s, t);
    hide Ordered; hide PhaseOf; hide Returned; hide Finish; hide Called; hide Leaves; hide FiresOf;
    if s.list[0] == t { assert t in s.list; }
  }

  /** A timer that is not due, or not listed, passes a check unchanged. */
  lemma CheckedLater(p: Phase, now: int, periodic: bool)
    requires p.period > 0
    ensures Checked(Checked(p, now, periodic), now, periodic) == Checked(p, now, periodic)
  {}

  lemma {:induction false} DrainPhase(s: State, cb: Script, t: int)
    requires Ordered(s) && Leaves(cb, t) && t in s.period
    ensures PhaseOf(Drain(s, cb), t) == Checked(PhaseOf(s, t), s.now, t in s.periodic)
    decreases DueCount(s)
  {
    if s.list == [] || Key(s.due, s.list[0]) > s.now {
      if s.list != [] { Uncons(s.list); }
    } else {
      FireKeeps(s, cb);
      FirePhase(s, cb, t);
      CheckedLater(PhaseOf(s, t), s.now, t in s.periodic);
      hide PhaseOf; hide Checked; hide FireFirst; hide Leaves; hide Ordered; hide Key;
      DrainPhase(FireFirst(s, cb), cb, t);
    }
  }

  ghost predicate LeavesAlone(e: Event, t: int) {
    match e
    case Do(op) => op.timer != t
    case Tick(cb) => Leaves(cb, t)
    case _ => e.timer != t
  }

  ghost predicate LeftAlone(es: seq<Event>, t: int) {
    forall e :: e in es ==> LeavesAlone(e, t)
  }

  lemma LeftAloneNext(es: seq<Event>, t: int)
    requires LeftAlone(es, t) && es != []
    ensures LeavesAlone(es[0], t) && LeftAlone(es[1..], t)
  {
    assert es[0] in es && forall e :: e in es[1..] ==> e in es;
  }

  lemma StepPhase(s: State, e: Event, t: int)
    requires Healthy(s) && LeavesAlone(e, t) && t in s.period
    ensures PhaseOf(Step(s, e), t) == if e.Tick? then Checked(PhaseOf(s, t), s.now + 1, t in s.periodic) else PhaseOf(s, t)
  {
    if e.Do? {
      ApplyOther(s, e.op, t);
    } else if e.Tick? {
      var n := s.(now := s.now + 1);
      assert PhaseOf(n, t) == PhaseOf(s, t);
      DrainPhase(n, e.cb, t);
    } else {
      SectionPhase(s, e, t);
    }
  }

  lemma SectionPhase(s: State, e: Event, t: int)
    requires Ordered(s) && !e.Do? && !e.Tick? && e.timer != t
    ensures PhaseOf(Step(s, e), t) == PhaseOf(s, t)
  {
    hide Insert; hide Remove; hide Sorted; hide Distinct;
    RemoveMembers(s.list, e.timer);
    InsertMembers(s.list, s.due, e.timer);
  }

  /** A listed timer has yet to fire. */
  lemma FiresLater(s: State, t: int)
    requires Healthy(s) && t in s.list
    ensures FireTime(s, t) > s.now && (Key(s.due, t) <= s.now + 1 <==> FireTime(s, t) == s.now + 1)
  {
    assert OkAt(s, t, false);
  }

  /** A timer that is not armed does not fire. */
  lemma {:induction false} UnlistedStays(s: State, es: seq<Event>, t: int)
    requires Healthy(s) && Can(s, es) && LeftAlone(es, t) && t in s.period && t !in s.list
    ensures PhaseOf(Run(s, es), t) == PhaseOf(s, t)
    decreases |es|
  {
    if es != [] {
      LeftAloneNext(es, t);
      StepKeeps(s, es[0]);
      StepPhase(s, es[0], t);
      hide Healthy; hide Step; hide Enabled;
      UnlistedStays(Step(s, es[0]), es[1..], t);
    }
  }

  /** A one-shot timer nobody touches fires exactly once, at its deadline or at the first check after
      a later insertion, and is then off the list and deactivated; before that it stays armed. */
  lemma {:induction false} OneShotFiresOnce(s: State, es: seq<Event>, t: int)
    requires Healthy(s) && Can(s, es) && LeftAlone(es, t)
    requires t in s.period && t !in s.periodic && t in s.list
    ensures PhaseOf(Run(s, es), t) ==
      if s.now + Ticks(es) < FireTime(s, t) then PhaseOf(s, t)
      else PhaseOf(s, t).(listed := false, active := false, fires := FiresOf(s.log, t) + [FireTime(s, t)])
    decreases |es|
  {
    hide *;
    FiresLater(s, t);
    PhaseIs(s, t);
    if es == [] {
      RunNothing(s);
    } else {
      LeftAloneNext(es, t);
      RunNext(s, es);
      OneShotStep(s, es[0], t);
      var s1 := Step(s, es[0]);
      if t in s1.list { OneShotFiresOnce(s1, es[1..], t); } else { TicksOnly(es); UnlistedStays(s1, es[1..], t); }
    }
  }

  lemma TicksOnly(es: seq<Event>)
    requires es != []
    ensures Ticks(es) == (if es[0].Tick? then 1 else 0) + Ticks(es[1..])
  {}

  /** An event either leaves a one-shot timer as it is or fires it. */
  lemma OneShotStep(s: State, e: Event, t: int)
    requires Healthy(s) && Ordered(s) && Enabled(s, e) && LeavesAlone(e, t) && t in s.period && t !in s.periodic && t in s.list
    ensures var r := Step(s, e); var f := FireTime(s, t);
      && t in r.period && t !in r.periodic && f > s.now
      && (if e.Tick? && f == s.now + 1 then
            t !in r.list && PhaseOf(r, t) == PhaseOf(s, t).(listed := false, active := false, fires := FiresOf(s.log, t) + [f])
          else t in r.list && PhaseOf(r, t) == PhaseOf(s, t) && FireTime(r, t) == f && FiresOf(r.log, t) == FiresOf(s.log, t))
  {
    FiresLater(s, t);
    StepKeeps(s, e);
    StepPhase(s, e, t);
    PhaseIs(s, t);
    PhaseIs(Step(s, e), t);
    hide Healthy; hide Step; hide Enabled; hide PhaseOf; hide FiresOf; hide Key; hide LeavesAlone;
  }

  /** The firing times start, start + period, ... up to `now`. */
  ghost function Schedule(start: int, period: int, now: int): seq<int>
    requires period > 0
    decreases if start <= now then now - start + 1 else 0
  {
    if start > now then [] else [start] + Schedule(start + period, period, now)
  }

  lemma ScheduleFrom(start: int, period: int, now: int)
    requires period > 0
    ensures Schedule(start, period, now) == if start > now then [] else [start] + Schedule(start + period, period, now)
  {}

  lemma NoneJoined(a: seq<int>)
    ensures a + [] == a
  {}

  lemma Joined(a: seq<int>, x: int, b: seq<int>)
    ensures a + [x] + b == a + ([x] + b)
  {}

  /** A periodic timer that is armed and activated. */
  ghost predicate Beating(s: State, t: int) {
    t in s.period && t in s.periodic && t in s.list && t in s.active
  }

  lemma IsBeating(s: State, t: int)
    ensures Beating(s, t) <==> t in s.period && t in s.periodic && t in s.list && t in s.active
  {}

  /** An event either leaves a periodic timer as it is or fires it and starts it again. */
  lemma PeriodicStep(s: State, e: Event, t: int)
    requires Healthy(s) && Ordered(s) && Enabled(s, e) && LeavesAlone(e, t) && Beating(s, t)
    ensures var r := Step(s, e); var f := FireTime(s, t);
      && Beating(r, t) && r.period[t] == s.period[t]
      && f >= s.now + 1
      && (if e.Tick? && f == s.now + 1 then FiresOf(r.log, t) == FiresOf(s.log, t) + [f] && FireTime(r, t) == f + s.period[t]
          else FiresOf(r.log, t) == FiresOf(s.log, t) && FireTime(r, t) == f)
  {
    FiresLater(s, t);
    StepKeeps(s, e);
    StepPhase(s, e, t);
    PhaseIs(s, t);
    PhaseIs(Step(s, e), t);
    hide Healthy; hide Step; hide Enabled; hide PhaseOf; hide FiresOf; hide Key; hide LeavesAlone;
  }

  /** A periodic timer nobody touches fires when its time comes and then every period. */
  lemma {:induction false} PeriodicFiresEvery(s: State, es: seq<Event>, t: int)
    requires Healthy(s) && Can(s, es) && LeftAlone(es, t) && Beating(s, t)
    ensures Beating(Run(s, es), t)
    ensures FiresOf(Run(s, es).log, t) == FiresOf(s.log, t) + Schedule(FireTime(s, t), s.period[t], s.now + Ticks(es))
    decreases |es|
  {
    hide *;
    IsBeating(s, t);
    FiresLater(s, t);
    var f, p, end := FireTime(s, t), s.period[t], s.now + Ticks(es);
    if es == [] {
      RunNothing(s);
      ScheduleFrom(f, p, end);
      NoneJoined(FiresOf(s.log, t));
    } else {
      LeftAloneNext(es, t);
      RunNext(s, es);
      PeriodicStep(s, es[0], t);
      var s1 := Step(s, es[0]);
      PeriodicFiresEvery(s1, es[1..], t);
      if es[0].Tick? && f == s.now + 1 {
        TicksOnly(es);
        ScheduleStep(FiresOf(s.log, t), f, p, end);
      }
    }
  }

  lemma ScheduleStep(fires: seq<int>, start: int, period: int, now: int)
    requires period > 0 && start <= now
    ensures fires + [start] + Schedule(start + period, period, now) == fires + Schedule(start, period, now)
  {
    ScheduleFrom(start, period, now);
    Joined(fires, start, Schedule(start + period, period, now));
  }

  // ---- a start in three steps --------------------------------------------------------------

  /** What taking a timer off the list, stamping it and inserting it do to its phase. */
  lemma OwnSections(s: State, t: int)
    requires Healthy(s) && t in s.period
    ensures PhaseOf(UnlinkTimer(s, t), t) == PhaseOf(s, t).(listed := false, active := false)
    ensures PhaseOf(StampTimer(s, t), t) == PhaseOf(s, t).(due := s.now + s.period[t])
    ensures PhaseOf(ArmTimer(s, t), t) == PhaseOf(s, t).(listed := true, armed := s.now, active := true)
  {
    hide Insert; hide Remove; hide Sorted; hide Distinct;
    RemoveMembers(s.list, t);
    RemoveKeeps(s.list, s.due, t);
    InsertMembers(s.list, s.due, t);
  }

  /** A start of `t`: its three sections, with anything that leaves `t` alone in between. */
  function Starting(t: int, a: seq<Event>, b: seq<Event>): seq<Event> {
    [Unlink(t)] + a + [Stamp(t)] + b + [Arm(t)]
  }

  lemma RunOne(s: State, e: Event, es: seq<Event>)
    requires Healthy(s) && Can(s, [e] + es)
    ensures Ordered(s) && Enabled(s, e) && Healthy(Step(s, e)) && Can(Step(s, e), es) && Run(s, [e] + es) == Run(Step(s, e), es)
  {
    assert ([e] + es)[0] == e && ([e] + es)[1..] == es;
    StepKeeps(s, e);
  }

  lemma OnlyOne(s: State, e: Event)
    requires Healthy(s) && Can(s, [e])
    ensures Enabled(s, e) && Run(s, [e]) == Step(s, e)
  {
    assert [e][1..] == [];
    StepKeeps(s, e);
  }

  /** After the first two sections and what comes in between: the timer is off the list with the
      deadline stamped when the second section read the tick. */
  lemma StampedWhen(s: State, a: seq<Event>, b: seq<Event>, t: int)
    requires Healthy(s) && t in s.period && LeftAlone(a, t) && LeftAlone(b, t) && Can(s, [Unlink(t)] + a + [Stamp(t)] + b)
    ensures var r := Run(s, [Unlink(t)] + a + [Stamp(t)] + b);
      && Healthy(r) && r.now == s.now + Ticks(a) + Ticks(b) && t in r.period && r.periodic == s.periodic
      && PhaseOf(r, t) == PhaseOf(s, t).(listed := false, active := false, due := s.now + Ticks(a) + s.period[t])
  {
    hide Healthy; hide Step; hide Enabled; hide PhaseOf; hide LeftAlone; hide Ordered;
    assert [Unlink(t)] + a + [Stamp(t)] + b == [Unlink(t)] + (a + ([Stamp(t)] + b));
    HealthyOrdered(s);
    RunOne(s, Unlink(t), a + ([Stamp(t)] + b));
    AfterUnlink(s, t);
    var s1 := Step(s, Unlink(t));
    RunSplit(s1, a, [Stamp(t)] + b);
    RunKeeps(s1, a);
    UnlistedStays(s1, a, t);
    var s2 := Run(s1, a);
    SamePeriod(s1, s2, t);
    StampedLater(s2, b, t);
  }

  lemma SamePeriod(a: State, b: State, t: int)
    requires PhaseOf(a, t) == PhaseOf(b, t) && a.period.Keys == b.period.Keys && t in a.period
    ensures t in b.period && b.period[t] == a.period[t] && (t in b.list <==> t in a.list)
  {}

  lemma StampedLater(s: State, b: seq<Event>, t: int)
    requires Healthy(s) && t in s.period && t !in s.list && LeftAlone(b, t) && Can(s, [Stamp(t)] + b)
    ensures var r := Run(s, [Stamp(t)] + b);
      && Healthy(r) && r.now == s.now + Ticks(b) && t in r.period && r.periodic == s.periodic
      && PhaseOf(r, t) == PhaseOf(s, t).(due := s.now + s.period[t])
  {
    hide Healthy; hide Step; hide Enabled; hide PhaseOf; hide LeftAlone; hide Ordered;
    HealthyOrdered(s);
    RunOne(s, Stamp(t), b);
    AfterStamp(s, t);
    var s1 := Step(s, Stamp(t));
    UnlistedStays(s1, b, t);
    RunKeeps(s1, b);
  }

  lemma AfterUnlink(s: State, t: int)
    requires Healthy(s) && t in s.period
    ensures var r := Step(s, Unlink(t));
      && PhaseOf(r, t) == PhaseOf(s, t).(listed := false, active := false) && t !in r.list
      && r.period == s.period && r.periodic == s.periodic && r.now == s.now
  {
    OwnSections(s, t);
  }

  lemma AfterStamp(s: State, t: int)
    requires Healthy(s) && t in s.period
    ensures var r := Step(s, Stamp(t));
      && PhaseOf(r, t) == PhaseOf(s, t).(due := s.now + s.period[t]) && r.list == s.list
      && r.period == s.period && r.periodic == s.periodic && r.now == s.now
  {
    OwnSections(s, t);
  }

  lemma AfterArm(s: State, t: int)
    requires Healthy(s) && t in s.period
    ensures var r := Step(s, Arm(t));
      && PhaseOf(r, t) == PhaseOf(s, t).(listed := true, armed := s.now, active := true)
      && r.period == s.period && r.periodic == s.periodic && r.now == s.now
  {
    OwnSections(s, t);
  }

  /** A start leaves the timer listed with the deadline its stamp gave it and the tick at which it was
      inserted. */
  lemma StartedPhase(s: State, a: seq<Event>, b: seq<Event>, t: int)
    requires Healthy(s) && t in s.period && LeftAlone(a, t) && LeftAlone(b, t) && Can(s, Starting(t, a, b))
    ensures var r := Run(s, Starting(t, a, b)); var at := s.now + Ticks(a);
      && Healthy(r) && r.now == at + Ticks(b) && t in r.period && r.periodic == s.periodic
      && PhaseOf(r, t) == PhaseOf(s, t).(listed := true, active := true, due := at + s.period[t], armed := at + Ticks(b))
      && t in r.list && t in r.active && r.period[t] == s.period[t] && FiresOf(r.log, t) == FiresOf(s.log, t)
      && FireTime(r, t) == Max(at + s.period[t], at + Ticks(b) + 1)
  {
    hide Healthy; hide Step; hide Enabled; hide PhaseOf; hide LeftAlone;
    var u := [Unlink(t)] + a + [Stamp(t)] + b;
    RunSplit(s, u, [Arm(t)]);
    StampedWhen(s, a, b, t);
    var s1 := Run(s, u);
    OnlyOne(s1, Arm(t));
    AfterArm(s1, t);
    RunKeeps(s, Starting(t, a, b));
    PhaseIs(s, t);
    PhaseIs(Run(s, Starting(t, a, b)), t);
  }

  lemma MaxIs(a: int, b: int)
    ensures Max(a, b) == if a >= b then a else b
  {}

  /** When a one-shot timer fires that is started and then left alone: at the deadline its stamp gave
      it, if and only if fewer than `period` ticks fall between stamp and insertion; and otherwise at the
      first check after the insertion. */
  lemma StartThenFires(s: State, a: seq<Event>, b: seq<Event>, es: seq<Event>, t: int)
    requires Healthy(s) && t in s.period && t !in s.periodic && LeftAlone(a, t) && LeftAlone(b, t) && LeftAlone(es, t)
    requires Can(s, Starting(t, a, b) + es)
    ensures var stamped := s.now + Ticks(a); var d := s.period[t];
      var fire := if Ticks(b) < d then stamped + d else stamped + Ticks(b) + 1;
      && (fire == stamped + d <==> Ticks(b) < d)
      && FiresOf(Run(s, Starting(t, a, b) + es).log, t) ==
         FiresOf(s.log, t) + if stamped + Ticks(b) + Ticks(es) < fire then [] else [fire]
  {
    hide *;
    RunSplit(s, Starting(t, a, b), es);
    StartedPhase(s, a, b, t);
    MaxIs(s.now + Ticks(a) + s.period[t], s.now + Ticks(a) + Ticks(b) + 1);
    var r := Run(s, Starting(t, a, b));
    PhaseIs(r, t);
    OneShotFiresOnce(r, es, t);
    PhaseIs(Run(r, es), t);
    NoneJoined(FiresOf(s.log, t));
  }

  /** The same for a periodic timer. */
  lemma StartThenFiresEvery(s: State, a: seq<Event>, b: seq<Event>, es: seq<Event>, t: int)
    requires Healthy(s) && t in s.period && t in s.periodic && LeftAlone(a, t) && LeftAlone(b, t) && LeftAlone(es, t)
    requires Can(s, Starting(t, a, b) + es)
    ensures var stamped := s.now + Ticks(a); var d := s.period[t];
      var first := if Ticks(b) < d then stamped + d else stamped + Ticks(b) + 1;
      FiresOf(Run(s, Starting(t, a, b) + es).log, t) ==
      FiresOf(s.log, t) + Schedule(first, d, stamped + Ticks(b) + Ticks(es))
  {
    hide *;
    RunSplit(s, Starting(t, a, b), es);
    StartedPhase(s, a, b, t);
    IsBeating(Run(s, Starting(t, a, b)), t);
    PeriodicFiresEvery(Run(s, Starting(t, a, b)), es, t);
    MaxIs(s.now + Ticks(a) + s.period[t], s.now + Ticks(a) + Ticks(b) + 1);
  }

  /** With nothing in between, the three sections are the start of one step. */
  lemma StartAtOnce(s: State, t: int)
    requires Healthy(s) && t in s.period
    ensures Can(s, Starting(t, [], [])) && Run(s, Starting(t, [], [])) == StartTimer(s, t)
  {
    hide *;
    StartSections(s, t);
    StartingAtOnce(t);
    var s1 := UnlinkTimer(s, t);
    var s2 := StampTimer(s1, t);
    var s3 := ArmTimer(s2, t);
    RunNothing(s3);
    CanNext(s2, Arm(t), []);
    CanNext(s1, Stamp(t), [Arm(t)] + []);
    CanNext(s, Unlink(t), [Stamp(t)] + ([Arm(t)] + []));
  }

  lemma StartingAtOnce(t: int)
    ensures Starting(t, [], []) == [Unlink(t)] + ([Stamp(t)] + ([Arm(t)] + []))
  {}

  lemma StartSections(s: State, t: int)
    requires Healthy(s) && t in s.period
    ensures var s1 := UnlinkTimer(s, t); var s2 := StampTimer(s1, t); var s3 := ArmTimer(s2, t);
      && Ordered(s) && Healthy(s1) && Ordered(s1) && Healthy(s2) && Ordered(s2) && Healthy(s3)
      && Enabled(s, Unlink(t)) && Enabled(s1, Stamp(t)) && Enabled(s2, Arm(t))
      && Step(s, Unlink(t)) == s1 && Step(s1, Stamp(t)) == s2 && Step(s2, Arm(t)) == s3 && StartTimer(s, t) == s3
  {
    hide Healthy; hide Ordered; hide Insert; hide Remove;
    var s1 := UnlinkTimer(s, t);
    HealthyOrdered(s);
    UnlinkKeeps(s, t);
    StepKeeps(s, Unlink(t));
    HealthyOrdered(s1);
    FittingAbsent(s1.list, s1.due, t, s1.now + s1.period[t]);
    StepKeeps(s1, Stamp(t));
    HealthyOrdered(StampTimer(s1, t));
    StepKeeps(StampTimer(s1, t), Arm(t));
  }

  /** For a caller that keeps interrupts off, and inside timeout functions: exactly one period later. */
  lemma StartAtOnceFires(s: State, es: seq<Event>, t: int)
    requires Healthy(s) && t in s.period && t !in s.periodic && LeftAlone(es, t) && Can(s, [Do(Start(t))] + es)
    ensures FiresOf(Run(s, [Do(Start(t))] + es).log, t) ==
            FiresOf(s.log, t) + if Ticks(es) < s.period[t] then [] else [s.now + s.period[t]]
  {
    hide *;
    RunOne(s, Do(Start(t)), es);
    DoStart(s, t);
    var r := Step(s, Do(Start(t)));
    PhaseIs(r, t);
    OneShotFiresOnce(r, es, t);
    PhaseIs(Run(r, es), t);
    NoneJoined(FiresOf(s.log, t));
  }

  /** As every blocking call does with its thread's timer: with its interval set to `d` and then started,
      it fires exactly `d` ticks later. */
  lemma SetThenFires(s: State, es: seq<Event>, t: int, d: Interval)
    requires Healthy(s) && t in s.period && t !in s.periodic && LeftAlone(es, t)
    requires Can(s, [Do(SetTime(t, d))] + ([Do(Start(t))] + es))
    ensures FiresOf(Run(s, [Do(SetTime(t, d))] + ([Do(Start(t))] + es)).log, t) ==
            FiresOf(s.log, t) + if Ticks(es) < d then [] else [s.now + d]
  {
    hide *;
    RunOne(s, Do(SetTime(t, d)), [Do(Start(t))] + es);
    DoSet(s, t, d);
    StartAtOnceFires(Step(s, Do(SetTime(t, d))), es, t);
  }

  lemma DoSet(s: State, t: int, d: Interval)
    requires Healthy(s) && t in s.period
    ensures var r := Step(s, Do(SetTime(t, d)));
      && Healthy(r) && r.now == s.now && r.periodic == s.periodic && t in r.period && r.period[t] == d && r.log == s.log
  {
    StepKeeps(s, Do(SetTime(t, d)));
  }

  lemma DoStart(s: State, t: int)
    requires Healthy(s) && t in s.period
    ensures var r := Step(s, Do(Start(t)));
      && r == StartTimer(s, t) && r.now == s.now && r.periodic == s.periodic && r.period == s.period && t in r.list
      && FireTime(r, t) == s.now + s.period[t] && FiresOf(r.log, t) == FiresOf(s.log, t)
  {
    StartPhase(s, t);
    PhaseIs(s, t);
    PhaseIs(StartTimer(s, t), t);
    StartFrame(s, t);
    hide Ordered; hide PhaseOf; hide StartTimer; hide FiresOf; hide Key;
  }

  lemma StartFrame(s: State, t: int)
    ensures Framed(s, StartTimer(s, t)) && StartTimer(s, t).period == s.period
  {}

  /** A tick whose timeout functions touch no timer. */
  function BareTick(): Event {
    Tick(_ => [])
  }

  lemma BareFacts(t: int)
    ensures LeftAlone([], t) && LeftAlone([BareTick()], t) && Ticks([]) == 0 && Ticks([BareTick()]) == 1
  {
    assert Leaves(BareTick().cb, t);
    assert [BareTick()][1..] == [];
  }

  lemma NoFires(t: int)
    ensures FiresOf([], t) == []
  {}

  /** A start of one tick that a tick interrupts between stamp and insertion: the timer is listed when
      it is already due, and fires a tick late. */
  lemma LateStart(s: State, t: int)
    requires Healthy(s) && s.list == [] && s.log == [] && t in s.period && s.period[t] == 1 && t !in s.periodic
    ensures var es := Starting(t, [], [BareTick()]);
      && Can(s, es) && t in Run(s, es).list && Key(Run(s, es).due, t) == Run(s, es).now
      && Can(s, es + [BareTick()]) && FiresOf(Run(s, es + [BareTick()]).log, t) == [s.now + 2]
  {
    hide *;
    LateStartCan(s, t);
    BareFacts(t);
    NoFires(t);
    StartedPhase(s, [], [BareTick()], t);
    PhaseIs(s, t);
    PhaseIs(Run(s, Starting(t, [], [BareTick()])), t);
    StartThenFires(s, [], [BareTick()], [BareTick()], t);
  }

  lemma LateStartCan(s: State, t: int)
    requires Healthy(s) && s.list == [] && t in s.period && s.period[t] == 1
    ensures var tick := BareTick(); var es := Starting(t, [], [tick]); Can(s, es) && Can(s, es + [tick])
  {
    var tick := BareTick();
    var s1 := UnlinkTimer(s, t);
    StepKeeps(s, Unlink(t));
    LateStampCan(s1, t);
    var es := Starting(t, [], [tick]);
    assert es == [Unlink(t)] + [Stamp(t), tick, Arm(t)] && es + [tick] == [Unlink(t)] + [Stamp(t), tick, Arm(t), tick];
    hide Healthy; hide UnlinkTimer; hide Starting; hide Can;
    CanNext(s, Unlink(t), [Stamp(t), tick, Arm(t)]);
    CanNext(s, Unlink(t), [Stamp(t), tick, Arm(t), tick]);
  }

  lemma LateStampCan(s: State, t: int)
    requires Healthy(s) && s.list == [] && t in s.period && s.period[t] == 1
    ensures var tick := BareTick(); Can(s, [Stamp(t), tick, Arm(t)]) && Can(s, [Stamp(t), tick, Arm(t), tick])
  {
    var tick := BareTick();
    StepKeeps(s, Stamp(t));
    var s2 := StampTimer(s, t);
    StepKeeps(s2, tick);
    assert Step(s2, tick) == s2.(now := s2.now + 1);
    LateArmCan(s2.(now := s2.now + 1), t);
    assert [Stamp(t), tick, Arm(t)] == [Stamp(t)] + ([tick] + [Arm(t)]);
    assert [Stamp(t), tick, Arm(t), tick] == [Stamp(t)] + ([tick] + [Arm(t), tick]);
    hide Healthy; hide StampTimer; hide TickOnce; hide Can;
    CanNext(s2, tick, [Arm(t)]);
    CanNext(s2, tick, [Arm(t), tick]);
    CanNext(s, Stamp(t), [tick] + [Arm(t)]);
    CanNext(s, Stamp(t), [tick] + [Arm(t), tick]);
  }

  lemma LateArmCan(s: State, t: int)
    requires Healthy(s) && s.list == [] && t in s.due
    ensures var tick := BareTick(); Can(s, [Arm(t)]) && Can(s, [Arm(t), tick])
  {
    var tick := BareTick();
    StepKeeps(s, Arm(t));
    var s4 := ArmTimer(s, t);
    StepKeeps(s4, tick);
    hide Healthy; hide ArmTimer; hide Ordered; hide TickOnce;
    assert [tick] + [] == [tick] && [Arm(t)] + [] == [Arm(t)] && [Arm(t)] + [tick] == [Arm(t), tick];
    RunNothing(Step(s4, tick));
    CanNext(s4, tick, []);
    RunNothing(s4);
    CanNext(s, Arm(t), []);
    CanNext(s, Arm(t), [tick]);
  }

  lemma CanNext(s: State, e: Event, es: seq<Event>)
    requires Healthy(s) && Ordered(s) && Enabled(s, e) && Healthy(Step(s, e)) && Can(Step(s, e), es)
    ensures Can(s, [e] + es) && Run(s, [e] + es) == Run(Step(s, e), es)
  {
    StepKeeps(s, e);
    assert ([e] + es)[0] == e && ([e] + es)[1..] == es;
  }

  /** A timer whose stop has taken it off the list does not fire, whatever comes before the flag is cleared. */
  lemma StopThenSilent(s: State, es: seq<Event>, t: int)
    requires Healthy(s) && LeftAlone(es, t) && t in s.period
    requires Can(s, [Detach(t)] + es)
    ensures FiresOf(Run(s, [Detach(t)] + es).log, t) == FiresOf(s.log, t)
  {
    RunOne(s, Detach(t), es);
    RemoveKeeps(s.list, s.due, t);
    UnlistedStays(Step(s, Detach(t)), es, t);
  }

  // ---- the ACTIVATED flag ------------------------------------------------------------------

  /** The flag of every timer but `t` says whether it is armed, and `t` is armed only if flagged. */
  ghost predicate FlagsBut(s: State, t: int) {
    (forall x :: x != t ==> (x in s.list <==> x in s.active)) && (t in s.list ==> t in s.active)
  }

  ghost predicate FlagsAgree(s: State) {
    forall x :: x in s.list <==> x in s.active
  }

  /** Whether the operations leave timer `t` started: the last one on `t` is a start. */
  function LeftStarted(ops: seq<Op>, t: int, before: bool): bool
    decreases |ops|
  {
    if ops == [] then before
    else LeftStarted(ops[1..], t,
           if ops[0].timer != t || ops[0].SetTime? then before else ops[0].Start?)
  }

  lemma ApplyFlags(s: State, op: Op, t: int)
    requires Ordered(s) && FlagsBut(s, t) && t in s.period
    ensures FlagsBut(Apply(s, op), t) && (FlagsAgree(s) ==> FlagsAgree(Apply(s, op)))
    ensures t in Apply(s, op).list <==> LeftStarted([op], t, t in s.list)
  {
    hide Insert; hide Remove; hide Sorted; hide Distinct;
    assert [op][1..] == [];
    match op
    case Start(x) => StartKeeps(s, x);
    case Stop(x) => UnlinkKeeps(s, x);
    case SetTime(_, _) =>
  }

  /** A timer is listed after the operations of a timeout function exactly if they leave it started. */
  lemma {:induction false} ApplyAllFlags(s: State, ops: seq<Op>, t: int)
    requires Ordered(s) && FlagsBut(s, t) && t in s.period
    ensures FlagsBut(ApplyAll(s, ops), t)
    ensures t in ApplyAll(s, ops).list <==> LeftStarted(ops, t, t in s.list)
    decreases |ops|
  {
    if ops != [] {
      assert [ops[0]][1..] == [];
      ApplyKeeps(s, ops[0]);
      ApplyFlags(s, ops[0], t);
      ApplyAllFlags(Apply(s, ops[0]), ops[1..], t);
    }
  }

  lemma StartFlags(s: State, t: int)
    requires Ordered(s) && (forall x :: x != t ==> (x in s.list <==> x in s.active)) && t in s.period
    ensures FlagsAgree(StartTimer(s, t))
  {
    hide Insert; hide Remove; hide Sorted; hide Distinct;
    StartKeeps(s, t);
  }

  /** A firing keeps every flag in step with the list, with one exception: a one-shot timer whose own
      timeout function leaves it started ends up armed but not flagged, so it cannot be stopped. */
  lemma FireFlags(s: State, cb: Script)
    requires Ordered(s) && s.list != [] && FlagsAgree(s) && s.list[0] in s.period
    ensures var t := s.list[0];
      FlagsAgree(FireFirst(s, cb)) <==> t in s.periodic || !LeftStarted(cb(|s.log|), t, false)
  {
    var t := s.list[0];
    CalledKeeps(s);
    ApplyAllFlags(Called(s), cb(|s.log|), t);
    ApplyAllKeeps(Called(s), cb(|s.log|));
    var r := Returned(s, cb);
    hide ApplyAll; hide Ordered; hide StartTimer;
    OrderedFlags(r, r.active - {t});
    if t in r.periodic && t in r.active { StartFlags(r.(active := r.active - {t}), t); }
  }

  /** A one-shot timer that starts itself from its timeout function is armed, and stopping it has no effect. */
  lemma SelfStart(s: State, cb: Script)
    requires Ordered(s) && s.list != [] && FlagsAgree(s) && s.list[0] in s.period && s.list[0] !in s.periodic
    requires cb(|s.log|) == [Start(s.list[0])]
    ensures var t := s.list[0]; var r := FireFirst(s, cb);
      !FlagsAgree(r) && t in r.list && t !in r.active && StopTimer(r, t) == r
  {
    FireFlags(s, cb);
    var t := s.list[0];
    CalledKeeps(s);
    assert [Start(t)][1..] == [];
    ApplyAllFlags(Called(s), [Start(t)], t);
  }
}
