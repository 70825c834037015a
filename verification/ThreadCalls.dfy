/** rt_thread_suspend, rt_thread_resume and rt_thread_startup in the pieces between which interrupts are
    enabled (src/thread.c). Other calls, whole or in pieces, and interrupts may come in between. */
module ThreadCalls {
  import opened Bitmap
  import opened SortedRow
  import S = Scheduler

  /** How far a call has come: a resume that has tested the state of its thread, or has taken it off
      its list; a suspend that has tested the state. */
  datatype Call = Tested(t: int) | Unlinked(t: int) | Suspending(t: int)

  datatype State = State(v: S.View, calls: map<int, Call>)

  datatype Event =
    | Whole(op: S.Op)               // a call with interrupts off
    | Prepare(t: int)               // rt_thread_startup before it resumes the thread
    | TestResume(c: int, t: int)
    | Unlink(c: int)
    | Insert(c: int)
    | TestSuspend(c: int, t: int)
    | Suspend(c: int)

  predicate Enabled(s: State, e: Event) {
    match e
    case Whole(op) => S.Enabled(s.v, op)
    case Prepare(t) => t in s.v.threads && s.v.threads[t].stat == S.Init && s.v.threads[t].initPrio < PRIORITIES
    case TestResume(c, t) => c !in s.calls && t in s.v.threads
    case Unlink(c) => c in s.calls && s.calls[c].Tested?
    case Insert(c) => c in s.calls && s.calls[c].Unlinked?
    case TestSuspend(c, t) => c !in s.calls && t in s.v.threads
    case Suspend(c) => c in s.calls && s.calls[c].Suspending?
  }

  /** The calls are about threads that have been started. */
  ghost predicate Live(s: State) {
    forall c :: c in s.calls ==> s.calls[c].t in s.v.threads && s.v.threads[s.calls[c].t].stat != S.Init
  }

  ghost predicate Good(s: State) {
    S.Sound(s.v) && Live(s)
  }

  function Prepared(v: S.View, t: int): S.View
    requires t in v.threads && v.threads[t].initPrio < PRIORITIES
  {
    v.(threads := v.threads[t := S.WithPriority(v.threads[t], v.threads[t].initPrio).(stat := S.Suspend)])
  }

  function Step(s: State, e: Event): State
    requires S.Shaped(s.v) && Enabled(s, e) && (forall c :: c in s.calls ==> s.calls[c].t in s.v.threads)
  {
    match e
    case Whole(op) => s.(v := S.Step(s.v, op))
    case Prepare(t) => s.(v := Prepared(s.v, t))
    case TestResume(c, t) => if s.v.threads[t].stat == S.Suspend then s.(calls := s.calls[c := Tested(t)]) else s
    case Unlink(c) => State(S.Unlinked(s.v, s.calls[c].t), s.calls[c := Unlinked(s.calls[c].t)])
    case Insert(c) => State(S.Push(s.v, s.calls[c].t), s.calls - {c})
    case TestSuspend(c, t) => if S.Runnable(s.v, t) then s.(calls := s.calls[c := Suspending(t)]) else s
    case Suspend(c) => State(S.SetStat(S.Pull(s.v, s.calls[c].t), s.calls[c].t, S.Suspend), s.calls - {c})
  }

  // ---- one section ----------------------------------------------------------------------------

  /** The section of rt_thread_suspend keeps them in step whatever has happened since its test. */
  lemma SuspendAlways(v: S.View, t: int)
    requires S.Sound(v) && t in v.threads && v.threads[t].stat != S.Init
    ensures S.Sound(S.SetStat(S.Pull(v, t), t, S.Suspend))
  {
    if v.threads[t].stat == S.Suspend {
      S.UnlinkExact(v, t);
      var p := v.threads[t].prio;
      assert S.Unlinked(v, t).lists[p] == v.lists[p];
      assert v.lists[p := v.lists[p]] == v.lists;
      assert v.threads[t := v.threads[t].(stat := S.Suspend)] == v.threads;
    } else {
      S.SuspendSound(v, t);
    }
  }

  /** The sections of a resume need their thread not to be ready; everything else is always fine. */
  predicate Clean(s: State, e: Event)
    requires Enabled(s, e)
  {
    match e
    case Unlink(c) => s.calls[c].t in s.v.threads && s.v.threads[s.calls[c].t].stat != S.Ready
    case Insert(c) => s.calls[c].t in s.v.threads && s.v.threads[s.calls[c].t].stat != S.Ready
    case _ => true
  }

  /** A step keeps ready threads listed, at their priority and once each, if and only if it is not a
      section of a resume whose thread is ready by now. */
  lemma StepSound(s: State, e: Event)
    requires Good(s) && Enabled(s, e)
    ensures S.Sound(Step(s, e).v) <==> Clean(s, e)
  {
    hide S.Sound; hide S.Push; hide S.Pull; hide S.Step; hide S.Unlinked; hide S.WithPriority; hide S.SetStat;
    S.SoundFacts(s.v, s.v.current);
    match e
    case Whole(op) => S.StepSound(s.v, op);
    case Prepare(t) => S.StartupSound(s.v, t);
    case Unlink(c) => S.UnlinkExact(s.v, s.calls[c].t);
    case Insert(c) => S.InsertExact(s.v, s.calls[c].t);
    case Suspend(c) => SuspendAlways(s.v, s.calls[c].t);
    case _ =>
  }

  // ---- what a step does to the state of a thread ------------------------------------------------

  /** The step makes thread `t` ready, or has it run: a resume, a timeout, its start, or the second
      section of a resume. */
  predicate Wakes(s: State, e: Event, t: int)
    requires Enabled(s, e)
  {
    match e
    case Whole(op) => !op.DoSchedule? && !op.DoSuspend? && !op.DoChange? && op.t == t
    case Insert(c) => s.calls[c].t == t
    case _ => false
  }

  lemma PushStat(v: S.View, x: int, t: int)
    requires S.Shaped(v) && x in v.threads && t in v.threads
    ensures S.Shaped(S.Push(v, x)) && t in S.Push(v, x).threads && S.Push(v, x).current == v.current
    ensures x != t ==> S.Push(v, x).threads[t] == v.threads[t]
    ensures S.Push(v, x).threads[t].stat == S.Init ==> v.threads[t].stat == S.Init
    ensures S.Push(v, x).threads.Keys == v.threads.Keys
  {}

  lemma DispatchStat(v: S.View, t: int)
    requires S.Sound(v) && t in v.threads
    ensures t in S.Dispatch(v).threads && S.Dispatch(v).threads.Keys == v.threads.Keys
    ensures v.threads[t].stat == S.Suspend <==> S.Dispatch(v).threads[t].stat == S.Suspend
    ensures S.Dispatch(v).threads[t].stat == S.Init <==> v.threads[t].stat == S.Init
  {
    hide S.Switch; hide S.Masks; hide Distinct;
    S.LeastFound(v.lists, 0);
    var p := S.Least(v.lists, 0);
    if p < PRIORITIES && !(v.threads[v.current].stat == S.Running && v.threads[v.current].prio < p) {
      S.TopReady(v, p);
      S.SwitchThreads(v, v.lists[p][0]);
      S.SoundFacts(v, t);
    }
  }

  lemma WholeStat(v: S.View, op: S.Op, t: int)
    requires S.Sound(v) && S.Enabled(v, op) && t in v.threads
    ensures var r := S.Step(v, op);
      && t in r.threads && (r.threads[t].stat == S.Init ==> v.threads[t].stat == S.Init)
      && (v.threads[t].stat == S.Suspend && (op.DoSchedule? || op.DoSuspend? || op.DoChange? || op.t != t) ==> r.threads[t].stat == S.Suspend)
  {
    hide S.Sound; hide S.Push; hide S.Pull; hide S.Dispatch; hide S.WithPriority;
    S.SoundFacts(v, t);
    match op
    case DoStartup(x) =>
      S.StartupSound(v, x);
      var v1 := Prepared(v, x);
      assert v1.threads[x].stat == S.Suspend by { SuspendedIs(v, x); }
      S.PushSound(v1, x);
      SoundShaped(v1);
      PushStat(v1, x, t);
      DispatchStat(S.Push(v1, x), t);
    case DoSuspend(x) => S.PullKeeps(v, x);
    case DoResume(x) => PushStat(v, x, t);
    case DoTimeout(x) => S.PushSound(v, x); PushStat(v, x, t); DispatchStat(S.Push(v, x), t);
    case DoChange(x, p) => ChangeStat(v, x, p, t);
    case DoSchedule => DispatchStat(v, t);
  }

  lemma SoundShaped(v: S.View)
    requires S.Sound(v)
    ensures S.Shaped(v)
  {}

  lemma SuspendedIs(v: S.View, t: int)
    requires t in v.threads && v.threads[t].initPrio < PRIORITIES
    ensures Prepared(v, t).threads[t].stat == S.Suspend
  {}

  lemma ChangeStat(v: S.View, x: int, p: nat, t: int)
    requires S.Sound(v) && x in v.threads && t in v.threads && p < PRIORITIES
    ensures var r := S.ChangePriority(v, x, p); t in r.threads && r.threads[t].stat == v.threads[t].stat
  {}

  /** A suspended thread stays suspended until a step wakes it, and no thread is initial again. */
  lemma StepStat(s: State, e: Event, t: int)
    requires Good(s) && Enabled(s, e) && t in s.v.threads
    ensures var r := Step(s, e).v;
      && t in r.threads && (r.threads[t].stat == S.Init ==> s.v.threads[t].stat == S.Init)
      && (s.v.threads[t].stat == S.Suspend && !Wakes(s, e, t) ==> r.threads[t].stat == S.Suspend)
  {
    hide S.Sound; hide S.Push; hide S.Pull; hide S.Step; hide S.WithPriority;
    S.SoundFacts(s.v, t);
    match e
    case Whole(op) => WholeStat(s.v, op, t);
    case Prepare(x) => SuspendedIs(s.v, x);
    case Insert(c) => PushStat(s.v, s.calls[c].t, t);
    case Suspend(c) => S.PullKeeps(s.v, s.calls[c].t);
    case _ =>
  }

  lemma StepLive(s: State, e: Event)
    requires Good(s) && Enabled(s, e)
    ensures Live(Step(s, e))
  {
    hide S.Sound; hide S.Push; hide S.Pull; hide S.Step; hide S.WithPriority; hide S.Unlinked;
    S.SoundFacts(s.v, s.v.current);
    var r := Step(s, e);
    forall c | c in r.calls ensures r.calls[c].t in r.v.threads && r.v.threads[r.calls[c].t].stat != S.Init {
      if c in s.calls { StepStat(s, e, s.calls[c].t); }
    }
  }

  lemma GoodFacts(s: State)
    requires Good(s)
    ensures S.Shaped(s.v) && forall c :: c in s.calls ==> s.calls[c].t in s.v.threads
  {}

  // ---- runs -------------------------------------------------------------------------------------

  lemma StepGood(s: State, e: Event)
    requires Good(s) && Enabled(s, e)
    ensures Good(Step(s, e)) <==> Clean(s, e)
  {
    hide S.Sound; hide Step; hide Clean; hide Live;
    StepSound(s, e);
    StepLive(s, e);
  }

  ghost predicate Can(s: State, es: seq<Event>)
    requires Good(s)
    decreases |es|
  {
    es != [] ==> Enabled(s, es[0]) && Clean(s, es[0]) && (StepGood(s, es[0]); Can(Step(s, es[0]), es[1..]))
  }

  ghost function Run(s: State, es: seq<Event>): State
    requires Good(s) && Can(s, es)
    decreases |es|
  {
    if es == [] then s else StepGood(s, es[0]); Run(Step(s, es[0]), es[1..])
  }

  /** Interleave the pieces of calls as you like: as long as no section of a resume finds its thread
      ready, the lists hold exactly the ready threads, and a call of the scheduler runs the most urgent one. */
  lemma {:induction false} RunSound(s: State, es: seq<Event>)
    requires Good(s) && Can(s, es)
    ensures var r := Run(s, es);
      Good(r) && ((exists t :: S.Runnable(r.v, t)) ==> S.MostUrgent(S.Dispatch(r.v)))
    decreases |es|
  {
    hide Step; hide Enabled; hide Clean; hide S.Dispatch; hide S.Sound;
    if es == [] {
      SoundShaped(s.v);
      S.DispatchUrgent(s.v);
    } else {
      GoodFacts(s);
      StepGood(s, es[0]);
      RunSound(Step(s, es[0]), es[1..]);
    }
  }

  /** A resume that is under way has its thread to itself, and the thread is still suspended. */
  ghost predicate Owned(s: State) {
    && (forall c :: c in s.calls && !s.calls[c].Suspending? ==>
          s.calls[c].t in s.v.threads && s.v.threads[s.calls[c].t].stat == S.Suspend)
    && (forall c, d :: c in s.calls && d in s.calls && c != d && !s.calls[c].Suspending? && !s.calls[d].Suspending? ==>
          s.calls[c].t != s.calls[d].t)
  }

  ghost predicate Resuming(s: State, t: int) {
    exists c :: c in s.calls && !s.calls[c].Suspending? && s.calls[c].t == t
  }

  /** The step is not another resume, timeout or start of a thread that a call under way resumes. */
  ghost predicate Exclusive(s: State, e: Event)
    requires Enabled(s, e)
  {
    match e
    case Whole(op) => op.DoSchedule? || op.DoSuspend? || op.DoChange? || !Resuming(s, op.t)
    case TestResume(_, t) => !Resuming(s, t)
    case _ => true
  }

  /** If no other resume of its thread comes in between, both sections of a resume are fine. */
  lemma OwnedKeeps(s: State, e: Event)
    requires Good(s) && Owned(s) && Enabled(s, e) && Exclusive(s, e)
    ensures Clean(s, e) && Good(Step(s, e)) && Owned(Step(s, e))
  {
    hide S.Sound; hide S.Push; hide S.Pull; hide S.Step; hide S.WithPriority; hide S.Unlinked; hide Live;
    assert Clean(s, e);
    StepGood(s, e);
    S.SoundFacts(s.v, s.v.current);
    GoodFacts(s);
    var r := Step(s, e);
    forall c | c in r.calls && !r.calls[c].Suspending?
      ensures r.calls[c].t in r.v.threads && r.v.threads[r.calls[c].t].stat == S.Suspend
    {
      if c in s.calls { StepStat(s, e, s.calls[c].t); }
    }
  }

  ghost predicate AllExclusive(s: State, es: seq<Event>)
    requires Good(s) && Owned(s)
    decreases |es|
  {
    es != [] ==> Enabled(s, es[0]) && Exclusive(s, es[0]) && (OwnedKeeps(s, es[0]); AllExclusive(Step(s, es[0]), es[1..]))
  }

  /** A run in which no thread is resumed while another resume of it is under way can happen as it is,
      and keeps the lists in step. */
  lemma {:induction false} ExclusiveSound(s: State, es: seq<Event>)
    requires Good(s) && Owned(s) && AllExclusive(s, es)
    ensures Can(s, es) && Good(Run(s, es)) && Owned(Run(s, es))
    decreases |es|
  {
    hide Step; hide Enabled; hide Clean; hide Exclusive; hide Good; hide Owned;
    if es != [] {
      GoodFacts(s);
      OwnedKeeps(s, es[0]);
      ExclusiveSound(Step(s, es[0]), es[1..]);
    }
  }

  // ---- nothing in between -----------------------------------------------------------------------

  lemma CanNext(s: State, e: Event, es: seq<Event>)
    requires Good(s) && Enabled(s, e) && Clean(s, e) && Good(Step(s, e)) && Can(Step(s, e), es)
    ensures Can(s, [e] + es) && Run(s, [e] + es) == Run(Step(s, e), es)
  {
    StepGood(s, e);
    assert ([e] + es)[0] == e && ([e] + es)[1..] == es;
  }

  lemma CanNothing(s: State)
    requires Good(s)
    ensures Can(s, []) && Run(s, []) == s
  {}

  /** The pieces of a resume, one after the other. */
  lemma ResumePieces(s: State, c: int, t: int)
    requires Good(s) && c !in s.calls && t in s.v.threads && s.v.threads[t].stat == S.Suspend
    ensures var s1 := s.(calls := s.calls[c := Tested(t)]); var s2 := s.(calls := s.calls[c := Unlinked(t)]);
      && Good(s1) && Good(s2)
      && Enabled(s, TestResume(c, t)) && Clean(s, TestResume(c, t)) && Step(s, TestResume(c, t)) == s1
      && Enabled(s1, Unlink(c)) && Clean(s1, Unlink(c)) && Step(s1, Unlink(c)) == s2
      && Enabled(s2, Insert(c)) && Clean(s2, Insert(c)) && Good(Step(s2, Insert(c)))
      && Step(s2, Insert(c)) == Step(s, Whole(S.DoResume(t)))
  {
    hide S.Sound; hide S.Push; hide S.Unlinked;
    var s1 := s.(calls := s.calls[c := Tested(t)]);
    var s2 := s.(calls := s.calls[c := Unlinked(t)]);
    S.UnlinkExact(s.v, t);
    S.SoundFacts(s.v, t);
    assert s1.calls[c := Unlinked(t)] == s2.calls && s2.calls - {c} == s.calls;
    StepGood(s2, Insert(c));
  }

  /** With nothing in between, the pieces of a resume are the call with interrupts off. */
  lemma ResumeAtOnce(s: State, c: int, t: int)
    requires Good(s) && c !in s.calls && t in s.v.threads && s.v.threads[t].stat == S.Suspend
    ensures Can(s, [TestResume(c, t)] + ([Unlink(c)] + ([Insert(c)] + [])))
    ensures Run(s, [TestResume(c, t)] + ([Unlink(c)] + ([Insert(c)] + []))) == Step(s, Whole(S.DoResume(t)))
  {
    hide *;
    ResumePieces(s, c, t);
    GoodFacts(s);
    var s1 := s.(calls := s.calls[c := Tested(t)]);
    var s2 := s.(calls := s.calls[c := Unlinked(t)]);
    GoodFacts(s1);
    GoodFacts(s2);
    CanNothing(Step(s2, Insert(c)));
    CanNext(s2, Insert(c), []);
    CanNext(s1, Unlink(c), [Insert(c)] + []);
    CanNext(s, TestResume(c, t), [Unlink(c)] + ([Insert(c)] + []));
  }

  /** The pieces of a start: preparation, the pieces of a resume, and the scheduler. */
  function Starting(c: int, t: int): seq<Event> {
    [Prepare(t)] + ([TestResume(c, t)] + ([Unlink(c)] + ([Insert(c)] + ([Whole(S.DoSchedule)] + []))))
  }

  lemma PreparePiece(s: State, t: int)
    requires Good(s) && Enabled(s, Prepare(t))
    ensures var s1 := Step(s, Prepare(t));
      && Clean(s, Prepare(t)) && Good(s1) && s1.calls == s.calls && t in s1.v.threads && s1.v.threads[t].stat == S.Suspend && Enabled(s1, Whole(S.DoResume(t)))
      && var s2 := Step(s1, Whole(S.DoResume(t)));
      && Good(s2) && Enabled(s2, Whole(S.DoSchedule)) && Clean(s2, Whole(S.DoSchedule)) && Good(Step(s2, Whole(S.DoSchedule)))
      && Step(s2, Whole(S.DoSchedule)) == Step(s, Whole(S.DoStartup(t)))
  {
    hide S.Sound; hide S.Push; hide S.Dispatch; hide S.WithPriority;
    S.SoundFacts(s.v, t);
    StepGood(s, Prepare(t));
    var s1 := Step(s, Prepare(t));
    S.SoundFacts(s1.v, t);
    StepGood(s1, Whole(S.DoResume(t)));
    var s2 := Step(s1, Whole(S.DoResume(t)));
    S.SoundFacts(s2.v, s2.v.current);
    StepGood(s2, Whole(S.DoSchedule));
  }

  /** With nothing in between, they are the start with interrupts off. */
  lemma StartAtOnce(s: State, c: int, t: int)
    requires Good(s) && c !in s.calls && Enabled(s, Prepare(t))
    ensures Enabled(s, Whole(S.DoStartup(t))) && Can(s, Starting(c, t)) && Run(s, Starting(c, t)) == Step(s, Whole(S.DoStartup(t)))
  {
    StartEnabled(s, t);
    StartingIs(c, t);
    hide *;
    GoodFacts(s);
    PreparePiece(s, t);
    var p := Step(s, Prepare(t));
    GoodFacts(p);
    ResumePieces(p, c, t);
    var s1 := p.(calls := p.calls[c := Tested(t)]);
    var s2 := p.(calls := p.calls[c := Unlinked(t)]);
    var s3 := Step(p, Whole(S.DoResume(t)));
    GoodFacts(s1);
    GoodFacts(s2);
    GoodFacts(s3);
    CanNothing(Step(s3, Whole(S.DoSchedule)));
    CanNext(s3, Whole(S.DoSchedule), []);
    CanNext(s2, Insert(c), [Whole(S.DoSchedule)] + []);
    CanNext(s1, Unlink(c), [Insert(c)] + ([Whole(S.DoSchedule)] + []));
    CanNext(p, TestResume(c, t), [Unlink(c)] + ([Insert(c)] + ([Whole(S.DoSchedule)] + [])));
    CanNext(s, Prepare(t), [TestResume(c, t)] + ([Unlink(c)] + ([Insert(c)] + ([Whole(S.DoSchedule)] + []))));
  }

  lemma StartEnabled(s: State, t: int)
    ensures Enabled(s, Prepare(t)) ==> Enabled(s, Whole(S.DoStartup(t)))
  {}

  lemma StartingIs(c: int, t: int)
    ensures Starting(c, t) == [Prepare(t)] + ([TestResume(c, t)] + ([Unlink(c)] + ([Insert(c)] + ([Whole(S.DoSchedule)] + []))))
  {}

  lemma SuspendPieces(s: State, c: int, t: int)
    requires Good(s) && c !in s.calls && S.Runnable(s.v, t)
    ensures var s1 := s.(calls := s.calls[c := Suspending(t)]);
      && Good(s1) && Enabled(s, TestSuspend(c, t)) && Clean(s, TestSuspend(c, t)) && Step(s, TestSuspend(c, t)) == s1
      && Enabled(s1, Suspend(c)) && Clean(s1, Suspend(c)) && Good(Step(s1, Suspend(c)))
      && Step(s1, Suspend(c)) == Step(s, Whole(S.DoSuspend(t)))
  {
    hide S.Sound; hide S.Pull;
    var s1 := s.(calls := s.calls[c := Suspending(t)]);
    S.SoundFacts(s.v, t);
    assert s1.calls - {c} == s.calls;
    StepGood(s1, Suspend(c));
  }

  /** The same for a suspend. */
  lemma SuspendAtOnce(s: State, c: int, t: int)
    requires Good(s) && c !in s.calls && S.Runnable(s.v, t)
    ensures Can(s, [TestSuspend(c, t)] + ([Suspend(c)] + []))
    ensures Run(s, [TestSuspend(c, t)] + ([Suspend(c)] + [])) == Step(s, Whole(S.DoSuspend(t)))
  {
    hide *;
    SuspendPieces(s, c, t);
    GoodFacts(s);
    var s1 := s.(calls := s.calls[c := Suspending(t)]);
    GoodFacts(s1);
    CanNothing(Step(s1, Suspend(c)));
    CanNext(s1, Suspend(c), []);
    CanNext(s, TestSuspend(c, t), [Suspend(c)] + []);
  }

  // ---- a second resume in between ---------------------------------------------------------------

  /** A thread is suspended, a resume has taken it off its list, and an interrupt resumes it before the
      second section: that section inserts it a second time, whatever the other threads are doing. */
  lemma ResumedTwice(s: State, c: int)
    requires Good(s) && c in s.calls && s.calls[c].Unlinked?
    requires s.v.threads[s.calls[c].t].stat == S.Suspend && s.calls[c].t != s.v.current
    ensures var t := s.calls[c].t; var s1 := Step(s, Whole(S.DoResume(t))); var p := s.v.threads[t].prio;
      && Good(s1) && Enabled(s1, Insert(c)) && !Clean(s1, Insert(c)) && !S.Sound(Step(s1, Insert(c)).v)
      && Step(s1, Insert(c)).v.lists[p] == s.v.lists[p] + [t, t]
  {
    var t := s.calls[c].t;
    var s1 := Step(s, Whole(S.DoResume(t)));
    StepGood(s, Whole(S.DoResume(t)));
    StepGood(s1, Insert(c));
    StepSound(s1, Insert(c));
    hide S.Sound; hide S.Masks;
    assert s.v.lists[s.v.threads[t].prio] + [t] + [t] == s.v.lists[s.v.threads[t].prio] + [t, t];
  }

  /** The same between the test and the first section: the thread is ready and on no list, and nothing
      will ever choose it. */
  lemma ResumedThenUnlinked(s: State, c: int)
    requires Good(s) && c in s.calls && s.calls[c].Tested?
    requires s.v.threads[s.calls[c].t].stat == S.Suspend && s.calls[c].t != s.v.current
    ensures var t := s.calls[c].t; var s1 := Step(s, Whole(S.DoResume(t)));
      && Good(s1) && Enabled(s1, Unlink(c)) && !S.Sound(Step(s1, Unlink(c)).v)
      && Step(s1, Unlink(c)).v.threads[t].stat == S.Ready
      && forall q :: 0 <= q < |Step(s1, Unlink(c)).v.lists| ==> t !in Step(s1, Unlink(c)).v.lists[q]
  {
    var t := s.calls[c].t;
    var s1 := Step(s, Whole(S.DoResume(t)));
    StepGood(s, Whole(S.DoResume(t)));
    StepSound(s1, Unlink(c));
    hide S.Sound; hide S.Masks; hide Remove;
    forall q | 0 <= q < |s1.v.lists| ensures t !in Remove(s1.v.lists[q], t) { RemoveMembers(s1.v.lists[q], t); }
  }
}
