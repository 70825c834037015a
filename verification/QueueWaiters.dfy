/** The receivers that wait at a message queue (src/ipc.c).

    Linking a message resumes the first of them. A receiver that was resumed tests the queue again when
    it runs; other receivers may have taken the message in between. */
module QueueWaiters {
  import opened SortedRow
  import M = Mailbox
  import Q = MessageQueue

  datatype State = State(
    q: Q.State,
    receivers: seq<int>,       // suspend_thread
    woken: set<int>,           // resumed without error and not yet run
    failed: map<int, M.Err>,   // resumed with an error and not yet run
    fifo: bool,
    prio: map<int, int>)

  // ---- the steps ----------------------------------------------------------------------------

  predicate Idle(s: State, t: int) {
    t !in s.receivers && t !in s.woken && t !in s.failed
  }

  /** The first waiting receiver is resumed. */
  function Wake(s: State): State {
    if s.receivers == [] then s else s.(receivers := s.receivers[1..], woken := s.woken + {s.receivers[0]})
  }

  /** The last section of rt_mq_send and of rt_mq_urgent. */
  function Link(s: State, t: int): State
    requires t in s.q.held && s.q.held[t].Sender?
  {
    Wake(s.(q := if s.q.held[t].urgent then Q.LinkFront(s.q, t) else Q.LinkBack(s.q, t)))
  }

  /** rt_mq_recv from a test of its loop to the section that takes the message, or to the point where
      it blocks. */
  function Recv(s: State, t: int, timeout: int): State {
    if s.q.entry > 0 then s.(q := Q.Take(s.q, t))
    else if timeout == 0 then s
    else s.(receivers := Enqueue(s.receivers, s.fifo, s.prio, t))
  }

  /** A resumed receiver runs again, with `left` of its waiting time. */
  function Resume(s: State, t: int, left: int): State {
    Recv(s.(woken := s.woken - {t}), t, left)
  }

  /** rt_thread_timeout of a waiting receiver. */
  function Expire(s: State, t: int): State {
    s.(receivers := Remove(s.receivers, t), failed := s.failed[t := M.Etimeout])
  }

  function Fail(s: State, t: int): State {
    s.(failed := s.failed - {t})
  }

  /** rt_mq_control with RT_IPC_CMD_RESET. */
  function Reset(s: State): State {
    s.(receivers := [], failed := M.Dismissed(s.receivers, s.failed), q := Q.Reset(s.q))
  }

  // ---- the invariant ------------------------------------------------------------------------

  /** A thread is in at most one place, and holds no node while it waits; those who wait stand in line. */
  ghost predicate Places(s: State) {
    && InLine(s.receivers, s.fifo, s.prio)
    && (forall t :: t in s.receivers ==> t !in s.woken && t !in s.failed && t !in s.q.held)
    && (forall t :: t in s.woken ==> t !in s.failed && t !in s.q.held)
    && (forall t :: t in s.failed ==> t !in s.q.held)
  }

  /** While somebody waits, every message is matched by a receiver that has been resumed for it and
      will run; `r` of them may be running. */
  ghost predicate Matched(s: State, r: nat) {
    s.receivers != [] ==> s.q.entry <= |s.woken| + r
  }

  ghost predicate Inv(s: State) {
    Q.Inv(s.q) && Places(s) && Matched(s, 0)
  }

  lemma LinkHeld(q: Q.State, t: int)
    requires t in q.held && q.held[t].Sender?
    ensures Q.LinkBack(q, t).held == Q.LinkFront(q, t).held == q.held - {t}
    ensures Q.LinkBack(q, t).entry == Q.LinkFront(q, t).entry == q.entry + 1
  {}

  lemma TakeHeld(q: Q.State, t: int)
    requires Q.Inv(q) && q.entry > 0
    ensures Q.Take(q, t).entry == q.entry - 1 && Q.Take(q, t).held.Keys == q.held.Keys + {t}
  {
    Q.FirstLinked(q.next, q.head, q.queue);
    hide Q.Linked;
  }

  lemma LinkKeeps(s: State, t: int)
    requires Inv(s) && t in s.q.held && s.q.held[t].Sender? && s.q.held[t].filled
    ensures Inv(Link(s, t))
  {
    hide Q.Inv; hide Q.LinkBack; hide Q.LinkFront; hide InLine;
    Q.LinkKeeps(s.q, t);
    LinkHeld(s.q, t);
    if s.receivers != [] {
      Uncons(s.receivers);
      var first := s.receivers[0];
      assert first in s.receivers && first !in s.woken;
      FirstInLine(s.receivers, s.fifo, s.prio);
    }
  }

  lemma RecvKeeps(s: State, t: int, timeout: int)
    requires Q.Inv(s.q) && Places(s) && Matched(s, 1) && Idle(s, t) && t !in s.q.held
    ensures Inv(Recv(s, t, timeout))
  {
    hide Q.Inv; hide Q.Take; hide InLine; hide Enqueue;
    if s.q.entry > 0 {
      Q.TakeKeeps(s.q, t);
      TakeHeld(s.q, t);
    } else {
      EnqueueJoins(s.receivers, s.fifo, s.prio, t);
    }
  }

  lemma ResumeKeeps(s: State, t: int, left: int)
    requires Inv(s) && t in s.woken
    ensures Inv(Resume(s, t, left))
  {
    hide Q.Inv; hide Recv; hide InLine;
    RecvKeeps(s.(woken := s.woken - {t}), t, left);
  }

  lemma ExpireKeeps(s: State, t: int)
    requires Inv(s) && t in s.receivers
    ensures Inv(Expire(s, t)) && t in Expire(s, t).failed && Expire(s, t).failed[t] == M.Etimeout
  {
    hide Q.Inv; hide InLine; hide Remove;
    RemoveMembers(s.receivers, t);
    RemoveInLine(s.receivers, s.fifo, s.prio, t);
    M.RemoveNone(s.receivers, t);
  }

  lemma FailKeeps(s: State, t: int)
    requires Inv(s) && t in s.failed
    ensures Inv(Fail(s, t)) && Idle(Fail(s, t), t)
  {
    hide Q.Inv; hide InLine;
  }

  /** A reset empties the queue and tells every waiting receiver. */
  lemma ResetKeeps(s: State)
    requires Inv(s)
    ensures Inv(Reset(s)) && Reset(s).q.msgs == []
    ensures forall t :: t in s.receivers ==> t in Reset(s).failed && Reset(s).failed[t] == M.Eerror
  {
    hide Q.Inv; hide M.Dismissed; hide Q.Reset;
    Q.ResetKeeps(s.q);
    M.DismissedIs(s.receivers, s.failed);
  }

  // ---- runs -----------------------------------------------------------------------------------

  datatype Op =
    | Own(op: Q.Op)                        // a section that touches no wait list
    | DoLink(t: int)
    | DoRecv(t: int, timeout: int) | DoResume(t: int, left: int)
    | DoExpire(t: int) | DoFail(t: int) | DoReset

  predicate Enabled(s: State, op: Op) {
    match op
    case Own(o) => Q.Enabled(s.q, o) && (o.DoFill? || o.DoGiveBack? || (o.DoGrab? && Idle(s, o.t)))
    case DoLink(t) => t in s.q.held && s.q.held[t].Sender? && s.q.held[t].filled
    case DoRecv(t, _) => Idle(s, t) && t !in s.q.held
    case DoResume(t, _) => t in s.woken
    case DoExpire(t) => t in s.receivers
    case DoFail(t) => t in s.failed
    case DoReset => true
  }

  ghost function Step(s: State, op: Op): State
    requires Inv(s) && Enabled(s, op)
  {
    match op
    case Own(o) => s.(q := Q.Step(s.q, o))
    case DoLink(t) => Link(s, t)
    case DoRecv(t, timeout) => Recv(s, t, timeout)
    case DoResume(t, left) => Resume(s, t, left)
    case DoExpire(t) => Expire(s, t)
    case DoFail(t) => Fail(s, t)
    case DoReset => Reset(s)
  }

  lemma OwnHeld(q: Q.State, o: Q.Op)
    requires Q.Inv(q) && Q.Enabled(q, o) && (o.DoFill? || o.DoGiveBack? || o.DoGrab?)
    ensures Q.Step(q, o).entry == q.entry && forall t :: t in Q.Step(q, o).held ==> t in q.held || (o.DoGrab? && t == o.t)
  {
    hide Q.Inv;
    if o.DoFill? { Q.FillKeeps(q, o.t); }
  }

  lemma OwnKeeps(s: State, o: Q.Op)
    requires Inv(s) && Enabled(s, Own(o))
    ensures Inv(s.(q := Q.Step(s.q, o)))
  {
    hide Q.Inv; hide Q.Step; hide InLine; hide Q.Enabled;
    Q.StepKeeps(s.q, o);
    OwnHeld(s.q, o);
  }

  lemma StepKeeps(s: State, op: Op)
    requires Inv(s) && Enabled(s, op)
    ensures Inv(Step(s, op))
  {
    if op.Own? { OwnKeeps(s, op.op); }
    if op.DoRecv? { InvOwes(s); }
    hide Inv; hide Link; hide Recv; hide Resume; hide Expire; hide Fail; hide Reset; hide Q.Step; hide Idle;
    match op
    case Own(_) =>
    case DoLink(t) => LinkKeeps(s, t);
    case DoRecv(t, timeout) => RecvKeeps(s, t, timeout);
    case DoResume(t, left) => ResumeKeeps(s, t, left);
    case DoExpire(t) => ExpireKeeps(s, t);
    case DoFail(t) => FailKeeps(s, t);
    case DoReset => ResetKeeps(s);
  }

  lemma InvOwes(s: State)
    requires Inv(s)
    ensures Q.Inv(s.q) && Places(s) && Matched(s, 1)
  {}

  /** `ops` can happen one after the other from `s`. */
  ghost predicate Can(s: State, ops: seq<Op>)
    requires Inv(s)
    decreases |ops|
  {
    ops == [] || (Enabled(s, ops[0]) && (StepKeeps(s, ops[0]); Can(Step(s, ops[0]), ops[1..])))
  }

  ghost function Run(s: State, ops: seq<Op>): State
    requires Inv(s) && Can(s, ops)
    decreases |ops|
  {
    if ops == [] then s else StepKeeps(s, ops[0]); Run(Step(s, ops[0]), ops[1..])
  }

  /** In every state of every run no wake-up is lost: with nobody resumed and still to run, no receiver
      waits at a queue that holds a message. */
  lemma {:induction false} RunKeeps(s: State, ops: seq<Op>)
    requires Inv(s) && Can(s, ops)
    ensures var r := Run(s, ops); Inv(r) && (r.woken == {} && r.q.entry > 0 ==> r.receivers == [])
    decreases |ops|
  {
    hide Step; hide Enabled; hide Q.Inv; hide Places;
    if ops != [] {
      StepKeeps(s, ops[0]);
      RunKeeps(Step(s, ops[0]), ops[1..]);
    }
  }

  // ---- the queue as its callers see it ------------------------------------------------------------

  /** What an operation does to the messages and to the calls under way, whoever waits. */
  ghost function Move(q: Q.Calls, op: Op): Q.Calls {
    match op
    case Own(o) => Q.Move(q, o)
    case DoLink(t) => Q.Move(q, Q.DoLink(t))
    case DoRecv(t, _) => Q.Move(q, Q.DoTake(t))
    case DoResume(t, _) => Q.Move(q, Q.DoTake(t))
    case DoReset => Q.Move(q, Q.DoReset)
    case _ => q
  }

  ghost function Moves(q: Q.Calls, ops: seq<Op>): Q.Calls
    decreases |ops|
  {
    if ops == [] then q else Moves(Move(q, ops[0]), ops[1..])
  }

  lemma RecvSeen(s: State, t: int, timeout: int, q: Q.Calls)
    requires Q.Inv(s.q) && t !in s.q.held && Q.Seen(s.q, q)
    ensures Q.Seen(Recv(s, t, timeout).q, Q.Move(q, Q.DoTake(t)))
  {
    hide Q.Take; hide Enqueue;
    if s.q.entry > 0 { Q.StepSeen(s.q, Q.DoTake(t), q); }
  }

  lemma StepSeen(s: State, op: Op, q: Q.Calls)
    requires Inv(s) && Enabled(s, op) && Q.Seen(s.q, q)
    ensures Q.Seen(Step(s, op).q, Move(q, op))
  {
    hide Q.Inv; hide Q.Seen; hide Q.Move; hide Q.Reset; hide Q.LinkBack; hide Q.LinkFront; hide Recv; hide InLine; hide Remove;
    match op {
      case Own(o) => Q.StepSeen(s.q, o, q);
      case DoLink(t) => Q.StepSeen(s.q, Q.DoLink(t), q);
      case DoRecv(t, timeout) => RecvSeen(s, t, timeout, q);
      case DoResume(t, left) => RecvSeen(s.(woken := s.woken - {t}), t, left, q);
      case DoReset => Q.StepSeen(s.q, Q.DoReset, q);
      case _ =>
    }
  }

  /** Over any run the queue is the deque of its messages, and a receiver that had to wait, however
      often, takes the first message there is when it runs. */
  lemma {:induction false} RunIsDeque(s: State, ops: seq<Op>, q: Q.Calls)
    requires Inv(s) && Can(s, ops) && Q.Seen(s.q, q)
    ensures Q.Seen(Run(s, ops).q, Moves(q, ops))
    decreases |ops|
  {
    hide Step; hide Enabled; hide Inv; hide Q.Seen; hide Move;
    if ops != [] {
      StepKeeps(s, ops[0]);
      StepSeen(s, ops[0], q);
      RunIsDeque(Step(s, ops[0]), ops[1..], Move(q, ops[0]));
    }
  }

  /** Whoever an operation wakes stood first in the line, and there is none more urgent in a line by
      urgency. */
  lemma WokenInTurn(s: State, op: Op, t: int)
    requires Inv(s) && Enabled(s, op)
    ensures var r := Step(s, op);
      t in r.woken && t !in s.woken ==>
        && s.receivers != [] && t == s.receivers[0] && r.receivers == s.receivers[1..]
        && (s.fifo || forall x :: x in s.receivers ==> Key(s.prio, t) <= Key(s.prio, x))
  {
    hide Q.Inv; hide Q.Step; hide Q.Take; hide Q.Reset; hide Q.LinkBack; hide Q.LinkFront; hide InLine; hide Remove; hide Enqueue; hide M.Dismissed; hide Q.Enabled;
    if s.receivers != [] { FirstInLine(s.receivers, s.fifo, s.prio); }
  }

  /** Whoever an operation makes wait joins the line in turn. */
  lemma BlockedInTurn(s: State, op: Op, t: int)
    requires Inv(s) && Enabled(s, op)
    ensures var r := Step(s, op);
      t in r.receivers && t !in s.receivers ==> Joined(s.receivers, r.receivers, s.fifo, s.prio, t)
  {
    hide Q.Inv; hide Q.Step; hide Q.Take; hide Q.Reset; hide Q.LinkBack; hide Q.LinkFront; hide InLine; hide Remove; hide Enqueue; hide Joined; hide Q.Enabled;
    if op.DoRecv? || op.DoResume? { EnqueueJoins(s.receivers, s.fifo, s.prio, op.t); }
    if op.DoExpire? { RemoveMembers(s.receivers, op.t); }
  }

  // ---- the object -----------------------------------------------------------------------------

  class WaitQueue {
    const queue: Q.Queue
    var receivers: seq<int>
    var woken: set<int>
    var failed: map<int, M.Err>
    const fifo: bool
    const prio: map<int, int>

    ghost function Abs(): State
      reads this, queue
    {
      State(queue.Abs(), receivers, woken, failed, fifo, prio)
    }

    /** rt_mq_init. */
    constructor (maxMsgs: nat, msgSize: nat, blank: seq<int>, fifo: bool, prio: map<int, int>)
      requires |blank| == msgSize
      ensures Inv(Abs()) && fresh(queue) && receivers == []
    {
      hide Q.Inv;
      queue := new Q.Queue(maxMsgs, msgSize, blank);
      receivers, woken, failed := [], {}, map[];
      this.fifo, this.prio := fifo, prio;
    }

    /** The last section of rt_mq_send and rt_mq_urgent: links the filled node and resumes a receiver. */
    method LinkIt(ghost t: int, n: int, urgent: bool, ghost msg: seq<int>)
      requires Inv(Abs()) && t in queue.held && queue.held[t] == Q.Sender(n, urgent, msg, true)
      modifies this, queue
      ensures Inv(Abs()) && Abs() == Link(old(Abs()), t)
      ensures queue.msgs == if urgent then [msg] + old(queue.msgs) else old(queue.msgs) + [msg]
    {
      hide Inv; hide Q.Inv; hide Q.LinkBack; hide Q.LinkFront; hide Places; hide Matched;
      LinkKeeps(Abs(), t);
      InvOwes(Abs());
      if urgent { queue.LinkFrontIt(t, n, msg); } else { queue.LinkBackIt(t, n, msg); }
      if receivers != [] {
        woken := woken + {receivers[0]};
        receivers := receivers[1..];
      }
    }

    /** rt_mq_recv from a test of its loop: a node with the first message, a timeout, or `blocked`. */
    method RecvWait(t: int, timeout: int) returns (blocked: bool, r: M.Err, n: int)
      requires Q.Inv(queue.Abs()) && Places(Abs()) && Matched(Abs(), 1) && Idle(Abs(), t) && t !in queue.held
      modifies this, queue
      ensures Inv(Abs()) && Abs() == Recv(old(Abs()), t, timeout)
      ensures blocked <==> old(queue.entry) == 0 && timeout != 0
      ensures !blocked ==> r == if old(queue.entry) > 0 then M.Eok else M.Etimeout
      ensures blocked ==> t in receivers
      ensures !blocked && r == M.Eok ==> old(queue.msgs) != [] && t in queue.held && queue.held[t] == Q.Receiver(n, old(queue.msgs[0]))
    {
      RecvKeeps(Abs(), t, timeout);
      hide Inv; hide Q.Inv; hide Q.Take; hide Enqueue; hide Places; hide Idle;
      if queue.entry == 0 {
        if timeout == 0 { return false, M.Etimeout, Q.NULL; }
        M.EnqueueMember(receivers, fifo, prio, t);
        receivers := Enqueue(receivers, fifo, prio, t);
        return true, M.Eok, Q.NULL;
      }
      n := queue.TakeIt(t);
      return false, M.Eok, n;
    }

    /** A resumed receiver tests again, with `left` of its waiting time. */
    method ContinueRecv(t: int, left: int) returns (blocked: bool, r: M.Err, n: int)
      requires Inv(Abs()) && t in woken
      modifies this, queue
      ensures Inv(Abs()) && Abs() == Resume(old(Abs()), t, left)
      ensures blocked <==> old(queue.entry) == 0 && left != 0
      ensures !blocked ==> r == if old(queue.entry) > 0 then M.Eok else M.Etimeout
      ensures !blocked && r == M.Eok ==> old(queue.msgs) != [] && t in queue.held && queue.held[t] == Q.Receiver(n, old(queue.msgs[0]))
    {
      WokenReceives(Abs(), t);
      hide Inv; hide Q.Inv; hide Places; hide Matched; hide Idle; hide Recv;
      woken := woken - {t};
      blocked, r, n := RecvWait(t, left);
    }

    /** rt_thread_timeout of a waiting receiver. */
    method ExpireIt(t: int)
      requires Inv(Abs()) && t in receivers
      modifies this
      ensures Inv(Abs()) && Abs() == Expire(old(Abs()), t)
    {
      hide Inv; hide Remove;
      ExpireKeeps(Abs(), t);
      receivers := Remove(receivers, t);
      failed := failed[t := M.Etimeout];
    }

    /** rt_mq_control with RT_IPC_CMD_RESET. */
    method ResetIt()
      requires Inv(Abs())
      modifies this, queue
      ensures Inv(Abs()) && Abs() == Reset(old(Abs()))
    {
      hide Inv; hide Q.Inv; hide M.Dismissed; hide Q.Reset; hide Places; hide Matched;
      ResetKeeps(Abs());
      InvOwes(Abs());
      failed := M.Dismissed(receivers, failed);
      receivers := [];
      queue.ResetIt();
    }
  }

  lemma WokenReceives(s: State, t: int)
    requires Inv(s) && t in s.woken
    ensures var s1 := s.(woken := s.woken - {t});
      Q.Inv(s.q) && Places(s1) && Matched(s1, 1) && Idle(s1, t) && t !in s.q.held
  {
    hide Q.Inv; hide InLine;
  }
}
