/** Ready lists, thread states and the choice of the next thread (src/scheduler.c, src/thread.c,
    single processor, two-level bitmap). */
module Scheduler {
  import opened Bitmap
  import opened Modular
  import opened SortedRow

  datatype Stat = Init | Ready | Suspend | Running

  datatype Thread = Thread(
    stat: Stat,
    prio: nat,              // current_priority
    initPrio: nat,
    number: nat,
    numberMask: bv32,
    highMask: bv8)

  datatype View = View(
    lists: seq<seq<int>>,   // rt_thread_priority_table
    threads: map<int, Thread>,
    current: int)           // rt_current_thread

  function WithPriority(th: Thread, p: nat): Thread
    requires p < PRIORITIES
  {
    th.(prio := p, number := p / 8, numberMask := M32(p / 8), highMask := M8(p % 8))
  }

  // ---- the steps ----------------------------------------------------------------------------

  predicate Shaped(v: View) {
    |v.lists| == PRIORITIES && v.current in v.threads && forall t :: t in v.threads ==> v.threads[t].prio < PRIORITIES
  }

  function SetStat(v: View, t: int, stat: Stat): View
    requires t in v.threads
  {
    v.(threads := v.threads[t := v.threads[t].(stat := stat)])
  }

  /** rt_schedule_insert_thread. */
  function Push(v: View, t: int): View
    requires Shaped(v) && t in v.threads
  {
    if t == v.current then SetStat(v, t, Running)
    else
      var p := v.threads[t].prio;
      SetStat(v, t, Ready).(lists := v.lists[p := v.lists[p] + [t]])
  }

  /** rt_schedule_remove_thread. */
  function Pull(v: View, t: int): View
    requires Shaped(v) && t in v.threads
  {
    var p := v.threads[t].prio;
    v.(lists := v.lists[p := Remove(v.lists[p], t)])
  }

  /** The most urgent non-empty list, or the number of lists if there is none. */
  function Least(lists: seq<seq<int>>, p: nat): nat
    requires p <= |lists|
    decreases |lists| - p
  {
    if p == |lists| || lists[p] != [] then p else Least(lists, p + 1)
  }

  /** rt_schedule with the scheduler unlocked. */
  function Dispatch(v: View): View
    requires Shaped(v)
  {
    var p := Least(v.lists, 0);
    var from := v.threads[v.current];
    if p == PRIORITIES || (from.stat == Running && from.prio < p) then v
    else
      LeastFound(v.lists, 0);
      Switch(v, v.lists[p][0])
  }

  function Switch(v: View, to: int): View
    requires Shaped(v)
  {
    if to !in v.threads then v
    else
      var v1 := v.(current := to);
      var v2 := if v.threads[v.current].stat == Running then Push(v1, v.current) else v1;
      SetStat(Pull(v2, to), to, Running)
  }

  lemma {:induction false} LeastFound(lists: seq<seq<int>>, p: nat)
    requires p <= |lists|
    ensures p <= Least(lists, p) <= |lists|
    ensures Least(lists, p) < |lists| ==> lists[Least(lists, p)] != []
    ensures forall q :: p <= q < Least(lists, p) ==> lists[q] == []
    decreases |lists| - p
  {
    if p < |lists| && lists[p] == [] { LeastFound(lists, p + 1); }
  }

  /** rt_thread_suspend. */
  function SuspendThread(v: View, t: int): View
    requires Shaped(v) && t in v.threads
  {
    if v.threads[t].stat != Ready && v.threads[t].stat != Running then v
    else SetStat(Pull(v, t), t, Suspend)
  }

  /** rt_thread_resume. */
  function ResumeThread(v: View, t: int): View
    requires Shaped(v) && t in v.threads
  {
    if v.threads[t].stat != Suspend then v else Push(v, t)
  }

  /** The first section of rt_thread_resume: rt_list_remove takes the thread off whatever list it is
      on; the bitmap is left alone. */
  function Unlinked(v: View, t: int): View {
    v.(lists := seq(|v.lists|, i requires 0 <= i < |v.lists| => Remove(v.lists[i], t)))
  }

  /** RT_THREAD_CTRL_CHANGE_PRIORITY. */
  function ChangePriority(v: View, t: int, p: nat): View
    requires Shaped(v) && t in v.threads && p < PRIORITIES
  {
    if v.threads[t].stat == Ready then
      var v1 := Pull(v, t);
      Push(v1.(threads := v1.threads[t := WithPriority(v1.threads[t], p)]), t)
    else v.(threads := v.threads[t := WithPriority(v.threads[t], p)])
  }

  /** rt_thread_startup, before and after its call of the scheduler. */
  function Started(v: View, t: int): View
    requires Shaped(v) && t in v.threads && v.threads[t].initPrio < PRIORITIES
  {
    var th := WithPriority(v.threads[t], v.threads[t].initPrio).(stat := Suspend);
    ResumeThread(v.(threads := v.threads[t := th]), t)
  }

  function Startup(v: View, t: int): View
    requires Shaped(v) && t in v.threads && v.threads[t].initPrio < PRIORITIES
  {
    Dispatch(Started(v, t))
  }

  /** rt_thread_timeout. */
  function Timeout(v: View, t: int): View
    requires Shaped(v) && t in v.threads
  {
    Dispatch(Push(v, t))
  }

  // ---- what every step keeps ------------------------------------------------------------------

  /** A thread is in the list of priority `p` exactly if it is ready at that priority. */
  predicate ReadyAt(v: View, t: int, p: nat) {
    t in v.threads && v.threads[t].stat == Ready && v.threads[t].prio == p
  }

  ghost predicate Masks(th: Thread) {
    th.stat != Init ==> th.prio < PRIORITIES && th == WithPriority(th, th.prio)
  }

  /** Ready threads are exactly the listed ones, at their priority and once each; only the current
      thread runs, and it is not listed. */
  ghost predicate Sound(v: View) {
    && Shaped(v)
    && v.threads[v.current].stat != Ready && v.threads[v.current].stat != Init
    && (forall t :: t in v.threads ==> Masks(v.threads[t]) && (v.threads[t].stat == Running ==> t == v.current))
    && (forall p :: 0 <= p < PRIORITIES ==> Distinct(v.lists[p]))
    && (forall p, t :: 0 <= p < PRIORITIES ==> (t in v.lists[p] <==> ReadyAt(v, t, p)))
  }

  /** A thread that is neither listed nor running becomes ready, or runs on if it is the current one. */
  lemma PushSound(v: View, t: int)
    requires Sound(v) && t in v.threads && v.threads[t].stat == Suspend
    ensures Sound(Push(v, t))
  {
    hide M32; hide M8; hide Distinct;
    if t != v.current {
      var p := v.threads[t].prio;
      AppendDistinct(v.lists[p], t);
    }
  }

  lemma SuspendSound(v: View, t: int)
    requires Sound(v) && t in v.threads
    ensures Sound(SuspendThread(v, t))
  {
    hide M32; hide M8; hide Distinct; hide Remove;
    RemoveDistinct(v.lists[v.threads[t].prio], t);
  }

  lemma ChangeSound(v: View, t: int, p: nat)
    requires Sound(v) && t in v.threads && p < PRIORITIES
    ensures Sound(ChangePriority(v, t, p))
  {
    hide Distinct; hide Remove; hide M32; hide M8;
    if v.threads[t].stat == Ready {
      var q := v.threads[t].prio;
      RemoveDistinct(v.lists[q], t);
      assert t !in v.lists[p] || p == q;
      if p != q { AppendDistinct(v.lists[p], t); } else { AppendDistinct(Remove(v.lists[p], t), t); }
    }
  }

  lemma SwitchSound(v: View, to: int)
    requires Sound(v) && to in v.threads && v.threads[to].stat == Ready
    requires v.threads[v.current].stat == Running || v.threads[v.current].stat == Suspend
    ensures Sound(Switch(v, to))
  {
    hide M32; hide M8; hide Distinct; hide Remove;
    var p := v.threads[to].prio;
    if v.threads[v.current].stat == Running {
      AppendDistinct(v.lists[v.threads[v.current].prio], v.current);
      RemoveDistinct(Push(v.(current := to), v.current).lists[p], to);
    } else {
      RemoveDistinct(v.lists[p], to);
    }
  }

  // ---- the sections of a resume ---------------------------------------------------------------

  /** Taking a thread off its list by hand keeps the lists in step with the thread states exactly if
      the thread is not ready. */
  lemma UnlinkExact(v: View, t: int)
    requires Sound(v) && t in v.threads
    ensures Sound(Unlinked(v, t)) <==> v.threads[t].stat != Ready
    ensures v.threads[t].stat != Ready ==> Unlinked(v, t) == v
  {
    hide Distinct; hide Remove; hide Masks;
    var p := v.threads[t].prio;
    if v.threads[t].stat == Ready {
      RemoveMembers(v.lists[p], t);
      assert ReadyAt(Unlinked(v, t), t, p);
      assert Unlinked(v, t).lists[p] == Remove(v.lists[p], t);
    } else {
      forall q | 0 <= q < |v.lists| ensures Remove(v.lists[q], t) == v.lists[q] {
        assert !ReadyAt(v, t, q);
        RemoveAbsent(v.lists[q], t);
      }
      assert Unlinked(v, t).lists == v.lists;
    }
  }

  /** Inserting a thread without a test keeps them in step exactly if it is not ready already. */
  lemma InsertExact(v: View, t: int)
    requires Sound(v) && t in v.threads && v.threads[t].stat != Init
    ensures Sound(Push(v, t)) <==> v.threads[t].stat != Ready
  {
    hide Masks;
    var p := v.threads[t].prio;
    if v.threads[t].stat == Ready {
      assert ReadyAt(v, t, p);
      assert t in v.lists[p];
      AppendTwice(v.lists[p], t);
      assert Push(v, t).lists[p] == v.lists[p] + [t];
    } else if v.threads[t].stat == Suspend {
      PushSound(v, t);
    } else {
      assert v.threads[t := v.threads[t].(stat := Running)] == v.threads;
    }
  }

  lemma {:induction false} AppendTwice(row: seq<int>, t: int)
    requires t in row
    ensures !Distinct(row + [t])
  {
    Uncons(row);
    assert (row + [t])[1..] == row[1..] + [t];
    if row[0] == t { assert (row[1..] + [t])[|row| - 1] == t; } else { AppendTwice(row[1..], t); }
  }

  /** Taking a thread off its list by hand leaves the bitmap right exactly if it is not the only ready
      thread of its priority. */
  lemma UnlinkAgrees(v: View, table: seq<bv8>, group: bv32, t: int)
    requires Sound(v) && t in v.threads && Agrees(v.lists, table, group)
    ensures Agrees(Unlinked(v, t).lists, table, group) <==> v.lists[v.threads[t].prio] != [t]
  {
    hide Masks; hide Marked; hide Has32; hide Remove; hide Distinct;
    var p, u := v.threads[t].prio, Unlinked(v, t).lists;
    forall q | 0 <= q < PRIORITIES ensures (u[q] != [] <==> v.lists[q] != []) <==> v.lists[q] != [t] {
      RemoveEmpties(v.lists[q], t);
    }
    forall q | 0 <= q < PRIORITIES && v.lists[q] == [t] ensures q == p {
      assert t in v.lists[q];
      assert ReadyAt(v, t, q);
    }
  }

  lemma RemoveEmpties(row: seq<int>, t: int)
    requires Distinct(row)
    ensures Remove(row, t) == [] <==> row == [] || row == [t]
  {
    if row != [] && row[0] == t {
      RemoveAbsent(row[1..], t);
      assert row == [row[0]] + row[1..];
    }
  }

  // ---- the choice -----------------------------------------------------------------------------

  /** A thread that may run: ready, or running already. */
  predicate Runnable(v: View, t: int) {
    t in v.threads && (v.threads[t].stat == Ready || v.threads[t].stat == Running)
  }

  /** The current thread runs, and no runnable thread is more urgent. */
  ghost predicate MostUrgent(v: View) {
    && v.current in v.threads && v.threads[v.current].stat == Running
    && forall t :: Runnable(v, t) ==> v.threads[v.current].prio <= v.threads[t].prio
  }

  lemma LeastBound(v: View, t: int)
    requires Sound(v) && t in v.threads && v.threads[t].stat == Ready
    ensures Least(v.lists, 0) <= v.threads[t].prio
  {
    LeastFound(v.lists, 0);
    assert ReadyAt(v, t, v.threads[t].prio);
    assert t in v.lists[v.threads[t].prio];
  }

  /** What a switch does to each thread. */
  lemma SwitchThreads(v: View, to: int)
    requires Shaped(v) && to in v.threads && to != v.current
    ensures var v' := Switch(v, to); var from := v.threads[v.current];
      && v'.current == to
      && v'.threads == v.threads[v.current := if from.stat == Running then from.(stat := Ready) else from]
                                [to := v.threads[to].(stat := Running)]
  {}

  /** rt_schedule keeps the invariant, changes no priority, starts and stops nobody, and if any thread
      is runnable it leaves the most urgent one running. */
  lemma DispatchUrgent(v: View)
    requires Sound(v)
    ensures var v' := Dispatch(v);
      && Sound(v') && v'.threads.Keys == v.threads.Keys
      && (forall t :: t in v.threads ==> v'.threads[t].prio == v.threads[t].prio && (Runnable(v', t) <==> Runnable(v, t)))
      && ((exists t :: Runnable(v, t)) ==> MostUrgent(v'))
  {
    hide Switch; hide Remove; hide Distinct; hide Masks; hide Push;
    LeastFound(v.lists, 0);
    forall t | t in v.threads && v.threads[t].stat == Ready ensures Least(v.lists, 0) <= v.threads[t].prio {
      LeastBound(v, t);
    }
    var p := Least(v.lists, 0);
    if p < PRIORITIES && !(v.threads[v.current].stat == Running && v.threads[v.current].prio < p) {
      var to := v.lists[p][0];
      assert to in v.lists[p];
      assert ReadyAt(v, to, p);
      SwitchSound(v, to);
      SwitchThreads(v, to);
    }
  }

  // ---- rotation -------------------------------------------------------------------------------

  /** The current thread runs at the priority of the first non-empty list. */
  ghost predicate Shares(v: View) {
    Sound(v) && v.threads[v.current].stat == Running && Least(v.lists, 0) == v.threads[v.current].prio
  }

  /** The threads that share the top priority: the running one, then the others in turn. */
  ghost function Ring(v: View): seq<int>
    requires Sound(v)
  {
    [v.current] + v.lists[v.threads[v.current].prio]
  }

  lemma LeastIs(lists: seq<seq<int>>, p: nat, q: nat)
    requires p <= q < |lists| && lists[q] != [] && forall k :: p <= k < q ==> lists[k] == []
    ensures Least(lists, p) == q
    decreases q - p
  {
    if p < q { LeastIs(lists, p + 1, q); }
  }

  lemma SwitchLists(v: View, to: int)
    requires Shaped(v) && to in v.threads && to != v.current && v.threads[v.current].stat == Running
    requires v.threads[to].prio == v.threads[v.current].prio
    ensures var p := v.threads[to].prio;
      Switch(v, to).lists == v.lists[p := Remove(v.lists[p] + [v.current], to)]
  {
    hide Remove;
  }

  /** rt_schedule moves the running thread to the end of the ring. */
  lemma DispatchRotates(v: View)
    requires Shares(v)
    ensures var v' := Dispatch(v); var p := v.threads[v.current].prio;
      && Shares(v') && v'.threads[v'.current].prio == p
      && Ring(v') == Ring(v)[1..] + [v.current]
      && forall q :: 0 <= q < PRIORITIES && q != p ==> v'.lists[q] == v.lists[q]
  {
    hide Distinct; hide Masks;
    DispatchUrgent(v);
    LeastFound(v.lists, 0);
    var p := v.threads[v.current].prio;
    var row := v.lists[p];
    var to := row[0];
    assert to in row;
    assert ReadyAt(v, to, p);
    SwitchThreads(v, to);
    assert (row + [v.current])[0] == to;
    AppendDistinct(row, v.current);
    RemoveDistinct(row + [v.current], to);
    var v' := Dispatch(v);
    assert v' == Switch(v, to);
    assert (row + [v.current])[1..] == row[1..] + [v.current];
    SwitchLists(v, to);
    assert v'.lists == v.lists[p := row[1..] + [v.current]];
    LeastIs(v'.lists, 0, p);
  }

  ghost function Dispatches(v: View, k: nat): View
    requires Sound(v)
    decreases k
  {
    if k == 0 then v else DispatchUrgent(v); Dispatches(Dispatch(v), k - 1)
  }

  ghost function Rotated(ring: seq<int>, k: nat): seq<int>
    requires ring != []
    decreases k
  {
    if k == 0 then ring else Rotated(ring[1..] + [ring[0]], k - 1)
  }

  lemma {:induction false} RotatedAt(ring: seq<int>, k: nat, i: nat)
    requires i < |ring|
    ensures |Rotated(ring, k)| == |ring| && Rotated(ring, k)[i] == ring[(i + k) % |ring|]
    decreases k
  {
    if k > 0 {
      var next := ring[1..] + [ring[0]];
      RotatedAt(next, k - 1, i);
      var j := (i + k - 1) % |ring|;
      ModStep(i + k - 1, |ring|);
      assert next[j] == if j + 1 == |ring| then ring[0] else ring[j + 1];
    }
  }

  lemma {:induction false} DispatchesRing(v: View, k: nat)
    requires Shares(v)
    ensures Shares(Dispatches(v, k)) && Ring(Dispatches(v, k)) == Rotated(Ring(v), k)
    ensures Dispatches(v, k).threads[Dispatches(v, k).current].prio == v.threads[v.current].prio
    decreases k
  {
    hide Shares; hide Sound; hide Dispatch;
    SharesIs(v);
    if k > 0 {
      DispatchRotates(v);
      DispatchUrgent(v);
      var v' := Dispatch(v);
      assert Ring(v)[0] == v.current;
      DispatchesRing(v', k - 1);
    }
  }

  lemma SharesIs(v: View)
    requires Shares(v)
    ensures Sound(v) && v.current in v.threads && v.threads[v.current].prio < PRIORITIES == |v.lists| && Ring(v) != [] && Ring(v)[0] == v.current
  {}

  /** Repeated calls run the threads of the ring in turn: the k-th call runs thread k modulo the
      length of the ring, so every thread runs exactly once in each cycle. */
  lemma RoundRobin(v: View, k: nat)
    requires Shares(v)
    ensures Sound(Dispatches(v, k)) && Dispatches(v, k).current == Ring(v)[k % |Ring(v)|]
    ensures Distinct(Ring(v))
  {
    DispatchesRing(v, k);
    SharesIs(Dispatches(v, k));
    RotatedAt(Ring(v), k, 0);
    assert Ring(v)[1..] == v.lists[v.threads[v.current].prio];
    assert v.current !in v.lists[v.threads[v.current].prio];
  }

  // ---- runs -----------------------------------------------------------------------------------

  datatype Op =
    | DoStartup(t: int) | DoSuspend(t: int) | DoResume(t: int) | DoTimeout(t: int)
    | DoChange(t: int, p: nat) | DoSchedule

  /** What the code asserts of its callers. */
  predicate Enabled(v: View, op: Op) {
    match op
    case DoStartup(t) => t in v.threads && v.threads[t].stat == Init && v.threads[t].initPrio < PRIORITIES
    case DoSuspend(t) => t in v.threads
    case DoResume(t) => t in v.threads
    case DoTimeout(t) => t in v.threads && v.threads[t].stat == Suspend
    case DoChange(t, p) => t in v.threads && p < PRIORITIES
    case DoSchedule => true
  }

  function Step(v: View, op: Op): View
    requires Shaped(v) && Enabled(v, op)
  {
    match op
    case DoStartup(t) => Startup(v, t)
    case DoSuspend(t) => SuspendThread(v, t)
    case DoResume(t) => ResumeThread(v, t)
    case DoTimeout(t) => Timeout(v, t)
    case DoChange(t, p) => ChangePriority(v, t, p)
    case DoSchedule => Dispatch(v)
  }

  lemma StartupSound(v: View, t: int)
    requires Sound(v) && t in v.threads && v.threads[t].stat == Init && v.threads[t].initPrio < PRIORITIES
    ensures var th := WithPriority(v.threads[t], v.threads[t].initPrio).(stat := Suspend);
      Sound(v.(threads := v.threads[t := th]))
  {
    hide M32; hide M8; hide Distinct;
  }

  lemma StepSound(v: View, op: Op)
    requires Sound(v) && Enabled(v, op)
    ensures Sound(Step(v, op))
  {
    hide Push; hide Pull; hide Dispatch; hide ChangePriority; hide WithPriority; hide Masks;
    match op
    case DoStartup(t) =>
      StartupSound(v, t);
      var th := WithPriority(v.threads[t], v.threads[t].initPrio).(stat := Suspend);
      var v1 := v.(threads := v.threads[t := th]);
      PushSound(v1, t);
      DispatchUrgent(Push(v1, t));
    case DoSuspend(t) => SuspendSound(v, t);
    case DoResume(t) => if v.threads[t].stat == Suspend { PushSound(v, t); }
    case DoTimeout(t) => PushSound(v, t); DispatchUrgent(Push(v, t));
    case DoChange(t, p) => ChangeSound(v, t, p);
    case DoSchedule => DispatchUrgent(v);
  }

  /** `ops` can happen one after the other from `v`. */
  ghost predicate Can(v: View, ops: seq<Op>)
    requires Sound(v)
    decreases |ops|
  {
    ops == [] || (Enabled(v, ops[0]) && (StepSound(v, ops[0]); Can(Step(v, ops[0]), ops[1..])))
  }

  ghost function Run(v: View, ops: seq<Op>): View
    requires Sound(v) && Can(v, ops)
    decreases |ops|
  {
    if ops == [] then v else StepSound(v, ops[0]); Run(Step(v, ops[0]), ops[1..])
  }

  // ---- threads as their callers see them --------------------------------------------------------

  /** Whether a thread was started, whether it is awake, and its priority. */
  datatype Life = Life(started: bool, awake: bool, prio: nat)

  /** What an operation does to them, whoever runs. */
  ghost function Live(m: map<int, Life>, init: map<int, nat>, op: Op): map<int, Life> {
    match op
    case DoStartup(t) => if t in init then m[t := Life(true, true, init[t])] else m
    case DoSuspend(t) => if t in m then m[t := m[t].(awake := false)] else m
    case DoResume(t) => if t in m && m[t].started then m[t := m[t].(awake := true)] else m
    case DoTimeout(t) => if t in m then m[t := m[t].(awake := true)] else m
    case DoChange(t, p) => if t in m then m[t := m[t].(prio := p)] else m
    case DoSchedule => m
  }

  ghost function Lives(m: map<int, Life>, init: map<int, nat>, ops: seq<Op>): map<int, Life>
    decreases |ops|
  {
    if ops == [] then m else Lives(Live(m, init, ops[0]), init, ops[1..])
  }

  ghost function LifeOf(th: Thread): Life {
    Life(th.stat != Init, th.stat == Ready || th.stat == Running, th.prio)
  }

  ghost function LivesOf(v: View): map<int, Life> {
    map t | t in v.threads :: LifeOf(v.threads[t])
  }

  ghost function Inits(v: View): map<int, nat> {
    map t | t in v.threads :: v.threads[t].initPrio
  }

  lemma DispatchLives(v: View)
    requires Sound(v)
    ensures LivesOf(Dispatch(v)) == LivesOf(v) && Inits(Dispatch(v)) == Inits(v)
  {
    hide Switch; hide Distinct; hide Masks;
    LeastFound(v.lists, 0);
    var p := Least(v.lists, 0);
    if p < PRIORITIES && !(v.threads[v.current].stat == Running && v.threads[v.current].prio < p) {
      var to := v.lists[p][0];
      assert to in v.lists[p];
      assert ReadyAt(v, to, p);
      SwitchThreads(v, to);
    }
  }

  lemma PushLives(v: View, t: int)
    requires Shaped(v) && t in v.threads && v.threads[t].stat != Init
    ensures LivesOf(Push(v, t)) == LivesOf(v)[t := LifeOf(v.threads[t]).(awake := true)] && Inits(Push(v, t)) == Inits(v)
  {}

  lemma SuspendLives(v: View, t: int)
    requires Shaped(v) && t in v.threads
    ensures LivesOf(SuspendThread(v, t)) == LivesOf(v)[t := LifeOf(v.threads[t]).(awake := false)] && Inits(SuspendThread(v, t)) == Inits(v)
  {
    hide Remove;
  }

  lemma ChangeLives(v: View, t: int, p: nat)
    requires Sound(v) && t in v.threads && p < PRIORITIES
    ensures LivesOf(ChangePriority(v, t, p)) == LivesOf(v)[t := LifeOf(v.threads[t]).(prio := p)] && Inits(ChangePriority(v, t, p)) == Inits(v)
  {
    hide Remove; hide M32; hide M8; hide Distinct; hide Masks;
  }

  lemma StartupLives(v: View, t: int)
    requires Sound(v) && t in v.threads && v.threads[t].stat == Init && v.threads[t].initPrio < PRIORITIES
    ensures LivesOf(Startup(v, t)) == LivesOf(v)[t := Life(true, true, v.threads[t].initPrio)] && Inits(Startup(v, t)) == Inits(v)
  {
    hide Push; hide Dispatch; hide M32; hide M8; hide Masks; hide Distinct;
    StartupSound(v, t);
    var th := WithPriority(v.threads[t], v.threads[t].initPrio).(stat := Suspend);
    var v1 := v.(threads := v.threads[t := th]);
    PushSound(v1, t);
    PushLives(v1, t);
    DispatchLives(Push(v1, t));
    assert Inits(v1) == Inits(v);
    assert LivesOf(v1)[t := Life(true, true, th.prio)] == LivesOf(v)[t := Life(true, true, th.prio)];
  }

  lemma StepLives(v: View, op: Op)
    requires Sound(v) && Enabled(v, op)
    ensures LivesOf(Step(v, op)) == Live(LivesOf(v), Inits(v), op) && Inits(Step(v, op)) == Inits(v)
  {
    hide Push; hide Dispatch; hide SuspendThread; hide ChangePriority; hide Startup; hide Sound;
    SoundFacts(v, v.current);
    match op {
      case DoStartup(t) => StartupLives(v, t);
      case DoSuspend(t) => SuspendLives(v, t);
      case DoResume(t) =>
        if v.threads[t].stat == Suspend { PushLives(v, t); }
        else { assert LivesOf(v) == LivesOf(v)[t := LifeOf(v.threads[t])]; }
      case DoTimeout(t) => PushLives(v, t); PushSound(v, t); DispatchLives(Push(v, t));
      case DoChange(t, p) => ChangeLives(v, t, p);
      case DoSchedule => DispatchLives(v);
    }
  }

  /** Over any run every thread is awake, and has the priority, that the operations say, and the
      scheduler then runs a most urgent one of those that are awake. */
  lemma {:induction false} RunLives(v: View, ops: seq<Op>)
    requires Sound(v) && Can(v, ops)
    ensures LivesOf(Run(v, ops)) == Lives(LivesOf(v), Inits(v), ops)
    decreases |ops|
  {
    hide Sound; hide Step; hide Enabled; hide LivesOf; hide Inits; hide Live;
    SoundFacts(v, v.current);
    if ops != [] {
      StepSound(v, ops[0]);
      StepLives(v, ops[0]);
      RunLives(Step(v, ops[0]), ops[1..]);
    }
  }

  /** A switch runs the thread that has been first in the list of the most urgent priority, and leaves
      the others of that list in turn. */
  lemma DispatchFirst(v: View, p: nat)
    requires Sound(v) && p < PRIORITIES && v.lists[p] != [] && forall q :: 0 <= q < p ==> v.lists[q] == []
    requires v.threads[v.current].stat == Running ==> v.threads[v.current].prio > p
    ensures var v' := Dispatch(v); v'.current == v.lists[p][0] && v'.lists[p] == v.lists[p][1..]
  {
    hide Masks; hide Distinct;
    LeastIs(v.lists, 0, p);
    var to := v.lists[p][0];
    assert to in v.lists[p];
    assert ReadyAt(v, to, p);
    RemoveDistinct(v.lists[p], to);
  }

  /** In every reachable state the lists hold exactly the ready threads, and a call of the scheduler
      there runs the most urgent thread. */
  lemma {:induction false} RunUrgent(v: View, ops: seq<Op>)
    requires Sound(v) && Can(v, ops)
    ensures var r := Run(v, ops);
      Sound(r) && ((exists t :: Runnable(r, t)) ==> MostUrgent(Dispatch(r)))
    decreases |ops|
  {
    hide Sound; hide Step; hide Dispatch; hide Enabled;
    if ops != [] {
      SoundFacts(v, v.current);
      StepSound(v, ops[0]);
      RunUrgent(Step(v, ops[0]), ops[1..]);
    } else {
      DispatchUrgent(v);
    }
  }

  // ---- the scheduler --------------------------------------------------------------------------

  lemma MasksAre(th: Thread)
    requires th.stat != Init && Masks(th)
    ensures th.prio < PRIORITIES && th.number == th.prio / 8 < WORDS
    ensures th.numberMask == M32(th.prio / 8) && th.highMask == M8(th.prio % 8)
  {}

  lemma AgreesShape(lists: seq<seq<int>>, table: seq<bv8>, group: bv32)
    requires Agrees(lists, table, group)
    ensures |lists| == PRIORITIES && |table| == WORDS
  {}

  lemma EmptyAgrees(lists: seq<seq<int>>, table: seq<bv8>)
    requires |lists| == PRIORITIES && |table| == WORDS
    requires (forall p :: 0 <= p < PRIORITIES ==> lists[p] == []) && forall n :: 0 <= n < WORDS ==> table[n] == 0
    ensures Agrees(lists, table, 0)
  {
    hide Has32; hide Has8;
    forall p | 0 <= p < PRIORITIES ensures !Marked(table, p) { Zero8(table[p / 8]); }
    forall n | 0 <= n < WORDS ensures !Has32(0, n) { NoBits(n); }
  }

  lemma SoundFacts(v: View, t: int)
    requires Sound(v)
    ensures Shaped(v) && v.current in v.threads && (t in v.threads ==> Masks(v.threads[t]))
    ensures v.threads[v.current].stat == Running || v.threads[v.current].stat == Suspend
  {}

  lemma PushOther(v: View, t: int, u: int)
    requires Shaped(v) && t in v.threads && u in v.threads && u != t
    ensures Shaped(Push(v, t)) && u in Push(v, t).threads && Push(v, t).threads[u] == v.threads[u]
  {}

  lemma PullKeeps(v: View, t: int)
    requires Shaped(v) && t in v.threads
    ensures Shaped(Pull(v, t)) && Pull(v, t).threads == v.threads && Pull(v, t).current == v.current
  {}

  lemma TopReady(v: View, p: nat)
    requires Sound(v) && p < PRIORITIES && v.lists[p] != []
    ensures var to := v.lists[p][0]; to in v.threads && to != v.current && v.threads[to].stat == Ready
  {
    assert v.lists[p][0] in v.lists[p];
    assert ReadyAt(v, v.lists[p][0], p);
  }

  lemma DispatchIs(v: View, p: nat)
    requires Shaped(v) && p < PRIORITIES && v.lists[p] != [] && Least(v.lists, 0) == p
    ensures var from := v.threads[v.current];
      Dispatch(v) == if from.stat == Running && from.prio < p then v else Switch(v, v.lists[p][0])
  {}

  lemma NothingReady(v: View)
    requires Shaped(v) && forall p :: 0 <= p < PRIORITIES ==> v.lists[p] == []
    ensures Dispatch(v) == v
  {
    LeastFound(v.lists, 0);
  }

  lemma CurrentUnlisted(v: View)
    requires Sound(v)
    ensures Pull(v, v.current) == v
  {
    var p := v.threads[v.current].prio;
    RemoveDistinct(v.lists[p], v.current);
    assert !ReadyAt(v, v.current, p);
    assert v.lists[p := v.lists[p]] == v.lists;
  }

  class System {
    var lists: seq<seq<int>>
    var table: seq<bv8>           // rt_thread_ready_table
    var group: bv32               // rt_thread_ready_priority_group
    var threads: map<int, Thread>
    var current: int
    var lockNest: int             // rt_scheduler_lock_nest

    ghost function Abs(): View
      reads this
    {
      View(lists, threads, current)
    }

    /** The bitmap always says which ready lists are non-empty. */
    ghost predicate Valid()
      reads this
    {
      Sound(Abs()) && Agrees(lists, table, group)
    }

    /** The bitmap and the masks, in the middle of an operation. */
    ghost predicate Mapped(t: int)
      reads this
    {
      Shaped(Abs()) && Agrees(lists, table, group) && t in threads && threads[t].stat != Init && Masks(threads[t])
    }

    /** The state after the first thread has been chosen. */
    constructor (threads: map<int, Thread>, first: int)
      requires first in threads && threads[first].stat == Running
      requires forall t :: t in threads ==>
        threads[t].prio < PRIORITIES && Masks(threads[t]) && (t == first || threads[t].stat == Init)
      ensures Valid() && Abs() == View(seq(PRIORITIES, _ => []), threads, first)
    {
      lists, table, group := seq(PRIORITIES, _ => []), seq(WORDS, _ => 0), 0;
      this.threads, current, lockNest := threads, first, 0;
      new;
      EmptyAgrees(lists, table);
    }

    method InsertThread(t: int)
      requires Mapped(t)
      modifies `lists, `table, `group, `threads
      ensures Abs() == Push(old(Abs()), t) && Agrees(lists, table, group)
    {
      hide Agrees; hide Masks; hide M32; hide M8; hide SetGroup;
      MasksAre(threads[t]);
      var th := threads[t];
      if t == current {
        threads := threads[t := th.(stat := Running)];
        return;
      }
      threads := threads[t := th.(stat := Ready)];
      AgreesShape(lists, table, group);
      FillAgrees(lists, table, group, th.prio, lists[th.prio] + [t]);
      lists := lists[th.prio := lists[th.prio] + [t]];
      table := table[th.number := table[th.number] | th.highMask];
      group := SetGroup(group, th.numberMask);
    }

    method RemoveThread(t: int)
      requires Mapped(t)
      modifies `lists, `table, `group
      ensures Abs() == Pull(old(Abs()), t) && Agrees(lists, table, group)
    {
      hide Agrees; hide Masks; hide M32; hide M8; hide Clear; hide ClearGroup; hide WithPriority;
      MasksAre(threads[t]);
      AgreesShape(lists, table, group);
      var th := threads[t];
      var row := Remove(lists[th.prio], t);
      ghost var was := lists;
      lists := lists[th.prio := row];
      if row == [] {
        DrainAgrees(was, table, group, th.prio);
        table := table[th.number := Clear(table[th.number], th.highMask)];
        if table[th.number] == 0 { group := ClearGroup(group, th.numberMask); }
      } else {
        StayAgrees(was, table, group, th.prio, row);
      }
    }

    /** rt_schedule. */
    method Schedule()
      requires Valid()
      modifies `lists, `table, `group, `threads, `current
      ensures Valid() && Abs() == if lockNest == 0 then Dispatch(old(Abs())) else old(Abs())
    {
      hide Agrees; hide Sound; hide Masks; hide Push; hide Pull; hide Dispatch;
      if lockNest != 0 { return; }
      ghost var v := Abs();
      SoundFacts(v, current);
      AgreesShape(lists, table, group);
      TopIsLeast(lists, table, group);
      DispatchUrgent(v);
      if group != 0 {
        var p := Top(table, group);
        var to := lists[p][0];
        var needInsert := false;
        LeastIs(lists, 0, p);
        TopReady(v, p);
        DispatchIs(v, p);
        if threads[current].stat == Running {
          if threads[current].prio < p { to := current; } else { needInsert := true; }
        }
        if to != current {
          var from := current;
          current := to;
          PushOther(v.(current := to), from, to);
          SoundFacts(v, to);
          if needInsert { InsertThread(from); }
          RemoveThread(to);
          threads := threads[to := threads[to].(stat := Running)];
        } else {
          CurrentUnlisted(v);
          RemoveThread(current);
          threads := threads[current := threads[current].(stat := Running)];
          assert threads == old(threads);
        }
      } else {
        NothingReady(v);
      }
    }

    /** rt_thread_suspend. */
    method SuspendIt(t: int) returns (ok: bool)
      requires Valid() && t in threads
      modifies `lists, `table, `group, `threads
      ensures Valid() && Abs() == SuspendThread(old(Abs()), t)
      ensures ok <==> old(threads[t].stat) == Ready || old(threads[t].stat) == Running
    {
      hide Agrees; hide Sound; hide Masks; hide Push; hide Pull;
      ghost var v := Abs();
      SoundFacts(v, t);
      SuspendSound(v, t);
      if threads[t].stat != Ready && threads[t].stat != Running { return false; }
      RemoveThread(t);
      PullKeeps(v, t);
      threads := threads[t := threads[t].(stat := Suspend)];
      return true;
    }

    /** The first section of rt_thread_resume. */
    method UnlinkIt(t: int)
      requires Valid() && t in threads
      modifies `lists
      ensures Abs() == Unlinked(old(Abs()), t)
      ensures Valid() <==> threads[t].stat != Ready
      ensures Agrees(lists, table, group) <==> old(lists)[threads[t].prio] != [t]
    {
      hide Agrees; hide Sound; hide Masks; hide Remove;
      ghost var v := Abs();
      SoundFacts(v, t);
      UnlinkExact(v, t);
      UnlinkAgrees(v, table, group, t);
      var i := 0;
      while i < |lists|
        invariant 0 <= i <= |lists| == |v.lists|
        invariant forall q :: 0 <= q < |lists| ==> lists[q] == if q < i then Remove(v.lists[q], t) else v.lists[q]
      {
        lists := lists[i := Remove(lists[i], t)];
        i := i + 1;
      }
      assert lists == Unlinked(v, t).lists;
    }

    /** The second section of rt_thread_resume, which does not test the thread. */
    method InsertIt(t: int)
      requires Valid() && t in threads && threads[t].stat != Init
      modifies `lists, `table, `group, `threads
      ensures Abs() == Push(old(Abs()), t) && Agrees(lists, table, group)
      ensures Valid() <==> old(threads[t].stat) != Ready
    {
      hide Agrees; hide Sound; hide Masks; hide Push;
      SoundFacts(Abs(), t);
      InsertExact(Abs(), t);
      InsertThread(t);
    }

    /** rt_thread_resume. */
    method ResumeIt(t: int) returns (ok: bool)
      requires Valid() && t in threads
      modifies `lists, `table, `group, `threads
      ensures Valid() && Abs() == ResumeThread(old(Abs()), t)
      ensures ok <==> old(threads[t].stat) == Suspend
    {
      hide Agrees; hide Sound; hide Masks; hide Push;
      SoundFacts(Abs(), t);
      UnlinkExact(Abs(), t);
      if threads[t].stat != Suspend { return false; }
      UnlinkIt(t);
      InsertIt(t);
      return true;
    }

    /** rt_thread_timeout. */
    method TimeoutIt(t: int)
      requires Valid() && t in threads && threads[t].stat == Suspend
      modifies `lists, `table, `group, `threads, `current
      ensures Valid() && Abs() == if lockNest == 0 then Timeout(old(Abs()), t) else Push(old(Abs()), t)
    {
      hide Agrees; hide Sound; hide Masks; hide Push; hide Dispatch;
      UnlinkExact(Abs(), t);
      UnlinkIt(t);
      InsertIt(t);
      Schedule();
    }

    /** rt_thread_startup. */
    method StartupIt(t: int)
      requires Valid() && t in threads && threads[t].stat == Init && threads[t].initPrio < PRIORITIES
      modifies `lists, `table, `group, `threads, `current
      ensures Valid() && Abs() == if lockNest == 0 then Startup(old(Abs()), t) else Started(old(Abs()), t)
    {
      hide Agrees; hide Sound; hide Masks; hide Push; hide Dispatch;
      SoundFacts(Abs(), t);
      StartupSound(Abs(), t);
      threads := threads[t := WithPriority(threads[t], threads[t].initPrio).(stat := Suspend)];
      var _ := ResumeIt(t);
      Schedule();
    }

    /** RT_THREAD_CTRL_CHANGE_PRIORITY. */
    method Reprioritise(t: int, p: nat)
      requires Valid() && t in threads && p < PRIORITIES
      modifies `lists, `table, `group, `threads
      ensures Valid() && Abs() == ChangePriority(old(Abs()), t, p)
    {
      hide Agrees; hide Sound; hide M32; hide M8; hide Push; hide Pull;
      ghost var v := Abs();
      SoundFacts(v, t);
      ChangeSound(v, t, p);
      if threads[t].stat == Ready {
        RemoveThread(t);
        PullKeeps(v, t);
        threads := threads[t := WithPriority(threads[t], p)];
        InsertThread(t);
      } else {
        threads := threads[t := WithPriority(threads[t], p)];
      }
    }
  }
}
