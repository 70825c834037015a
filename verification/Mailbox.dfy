/** A mailbox: a bounded ring of mails with waiting receivers and waiting senders (src/ipc.c).

    Every section that runs with interrupts disabled is one step. A thread that was woken has left
    its wait list but has not run yet; others may run in between. */
module Mailbox {
  import opened Modular
  import opened SortedRow

  datatype Err = Eok | Etimeout | Eerror | Efull

  datatype State = State(
    pool: seq<int>,            // msg_pool; its length is size
    inOff: nat,
    outOff: nat,
    entry: nat,
    receivers: seq<int>,       // suspend_thread
    senders: seq<int>,         // suspend_sender_thread
    wokenReceivers: set<int>,  // resumed without error and not yet run
    wokenSenders: set<int>,
    failed: map<int, Err>,     // resumed with an error and not yet run
    mail: map<int, int>,       // what a blocked sender wants to send
    fifo: bool,
    prio: map<int, int>,
    accepted: seq<int>,        // mails put in, without those that a reset threw away
    delivered: seq<int>)       // mails taken out

  // ---- the ring -----------------------------------------------------------------------------

  function Wrap(x: nat, size: nat): nat {
    if x >= size then x - size else x
  }

  /** The mails in the box, oldest first. */
  function Contents(pool: seq<int>, outOff: nat, entry: nat): seq<int>
    requires outOff + entry <= 2 * |pool| && (entry > 0 ==> outOff < |pool|)
    decreases entry
  {
    if entry == 0 then []
    else [pool[outOff]] + Contents(pool, Wrap(outOff + 1, |pool|), entry - 1)
  }

  predicate RingOk(pool: seq<int>, inOff: nat, outOff: nat, entry: nat) {
    && entry <= |pool| && inOff == Wrap(outOff + entry, |pool|)
    && (|pool| == 0 ==> outOff == 0) && (|pool| > 0 ==> outOff < |pool|)
  }

  /** The stored offset is the remainder it stands for. */
  lemma InOffset(pool: seq<int>, inOff: nat, outOff: nat, entry: nat)
    requires RingOk(pool, inOff, outOff, entry) && |pool| > 0
    ensures inOff == (outOff + entry) % |pool|
  {
    if outOff + entry >= |pool| {
      ModIs(outOff + entry, |pool|, 1, inOff);
    } else {
      ModIs(outOff + entry, |pool|, 0, inOff);
    }
  }

  lemma {:induction false} ContentsPut(pool: seq<int>, outOff: nat, entry: nat, v: int)
    requires outOff < |pool| && entry < |pool|
    ensures var p := Wrap(outOff + entry, |pool|);
      Contents(pool[p := v], outOff, entry + 1) == Contents(pool, outOff, entry) + [v]
    decreases entry
  {
    var p := Wrap(outOff + entry, |pool|);
    if entry == 0 {
      assert Contents(pool[p := v], Wrap(outOff + 1, |pool|), 0) == [];
    } else {
      var next := Wrap(outOff + 1, |pool|);
      assert Wrap(next + (entry - 1), |pool|) == p;
      ContentsPut(pool, next, entry - 1, v);
      assert pool[p := v][outOff] == pool[outOff];
    }
  }

  // ---- the steps ----------------------------------------------------------------------------

  ghost predicate Ring(s: State) {
    RingOk(s.pool, s.inOff, s.outOff, s.entry)
  }

  /** The mail goes in, and the first waiting receiver is resumed. */
  function Put(s: State, v: int): State
    requires RingOk(s.pool, s.inOff, s.outOff, s.entry) && s.entry < |s.pool|
  {
    var s1 := s.(pool := s.pool[s.inOff := v], inOff := Wrap(s.inOff + 1, |s.pool|), entry := s.entry + 1,
                 accepted := s.accepted + [v]);
    if s.receivers == [] then s1
    else s1.(receivers := s.receivers[1..], wokenReceivers := s.wokenReceivers + {s.receivers[0]})
  }

  /** The oldest mail comes out, and the first waiting sender is resumed. */
  function Get(s: State): State
    requires RingOk(s.pool, s.inOff, s.outOff, s.entry) && s.entry > 0
  {
    var s1 := s.(outOff := Wrap(s.outOff + 1, |s.pool|), entry := s.entry - 1,
                 delivered := s.delivered + [s.pool[s.outOff]]);
    if s.senders == [] then s1
    else s1.(senders := s.senders[1..], wokenSenders := s.wokenSenders + {s.senders[0]})
  }

  /** rt_mb_send_wait from a test of its loop to its end or to the next point where it blocks. */
  function Send(s: State, t: int, v: int, timeout: int): State
    requires RingOk(s.pool, s.inOff, s.outOff, s.entry)
  {
    if s.entry < |s.pool| then Put(s, v)
    else if timeout == 0 then s
    else s.(senders := Enqueue(s.senders, s.fifo, s.prio, t), mail := s.mail[t := v])
  }

  /** rt_mb_recv, likewise. */
  function Recv(s: State, t: int, timeout: int): State
    requires RingOk(s.pool, s.inOff, s.outOff, s.entry)
  {
    if s.entry > 0 then Get(s)
    else if timeout == 0 then s
    else s.(receivers := Enqueue(s.receivers, s.fifo, s.prio, t))
  }

  /** rt_thread_timeout of a waiting thread. */
  function Expire(s: State, t: int): State {
    s.(receivers := Remove(s.receivers, t), senders := Remove(s.senders, t), failed := s.failed[t := Etimeout])
  }

  /** A woken sender runs again, with `left` of its waiting time. */
  function ResumeSend(s: State, t: int, left: int): State
    requires RingOk(s.pool, s.inOff, s.outOff, s.entry) && t in s.mail
  {
    Send(s.(wokenSenders := s.wokenSenders - {t}), t, s.mail[t], left)
  }

  function ResumeRecv(s: State, t: int, left: int): State
    requires RingOk(s.pool, s.inOff, s.outOff, s.entry)
  {
    Recv(s.(wokenReceivers := s.wokenReceivers - {t}), t, left)
  }

  /** A thread woken with an error returns it. */
  function Fail(s: State, t: int): State {
    s.(failed := s.failed - {t})
  }

  /** All of `row`, resumed with RT_ERROR. */
  function Dismissed(row: seq<int>, failed: map<int, Err>): map<int, Err> {
    if row == [] then failed else Dismissed(row[1..], failed[row[0] := Eerror])
  }

  /** rt_mb_control with RT_IPC_CMD_RESET. */
  function Reset(s: State): State {
    s.(receivers := [], senders := [], failed := Dismissed(s.senders, Dismissed(s.receivers, s.failed)),
       entry := 0, inOff := 0, outOff := 0, accepted := s.delivered)
  }

  // ---- the invariant ------------------------------------------------------------------------

  /** The box is a queue: what went in is what came out and what is inside, in order. */
  ghost predicate Fifo(s: State) {
    Ring(s) && s.accepted == s.delivered + Contents(s.pool, s.outOff, s.entry)
  }

  /** A thread is in at most one place, and those who wait stand in line. */
  ghost predicate Places(s: State) {
    && InLine(s.receivers, s.fifo, s.prio) && InLine(s.senders, s.fifo, s.prio)
    && (forall t :: t in s.receivers ==> t !in s.senders && t !in s.wokenReceivers && t !in s.wokenSenders && t !in s.failed)
    && (forall t :: t in s.senders ==> t !in s.wokenReceivers && t !in s.wokenSenders && t !in s.failed && t in s.mail)
    && (forall t :: t in s.wokenReceivers ==> t !in s.wokenSenders && t !in s.failed)
    && (forall t :: t in s.wokenSenders ==> t !in s.failed && t in s.mail)
  }

  /** No wake-up is lost: while somebody waits, every mail or free slot it could use is matched by a
      thread that has been woken for it and will run. */
  ghost predicate NoLostWakeup(s: State) {
    && (s.receivers != [] ==> s.entry <= |s.wokenReceivers|)
    && (s.senders != [] ==> |s.pool| - s.entry <= |s.wokenSenders|)
  }

  ghost predicate Inv(s: State) {
    Fifo(s) && Places(s) && NoLostWakeup(s)
  }

  predicate Idle(s: State, t: int) {
    t !in s.receivers && t !in s.senders && t !in s.wokenReceivers && t !in s.wokenSenders && t !in s.failed
  }

  lemma Regroup(a: seq<int>, b: seq<int>, c: seq<int>)
    ensures a + b + c == a + (b + c)
  {}

  lemma Taken(pool: seq<int>, outOff: nat, entry: nat)
    requires 0 < entry <= |pool| && outOff < |pool|
    ensures Contents(pool, outOff, entry) == [pool[outOff]] + Contents(pool, Wrap(outOff + 1, |pool|), entry - 1)
  {}

  lemma GetRing(s: State)
    requires Ring(s) && s.entry > 0
    ensures Ring(Get(s)) && Get(s).pool == s.pool && Get(s).outOff == Wrap(s.outOff + 1, |s.pool|)
    ensures Get(s).entry == s.entry - 1 && Get(s).accepted == s.accepted && Get(s).delivered == s.delivered + [s.pool[s.outOff]]
  {}

  lemma PutFifo(s: State, v: int)
    requires Fifo(s) && s.entry < |s.pool|
    ensures Fifo(Put(s, v)) && Contents(Put(s, v).pool, Put(s, v).outOff, Put(s, v).entry) == Contents(s.pool, s.outOff, s.entry) + [v]
  {
    hide Contents;
    ContentsPut(s.pool, s.outOff, s.entry, v);
    Regroup(s.delivered, Contents(s.pool, s.outOff, s.entry), [v]);
  }

  lemma GetFifo(s: State)
    requires Fifo(s) && s.entry > 0
    ensures Fifo(Get(s))
    ensures Contents(s.pool, s.outOff, s.entry) == [s.pool[s.outOff]] + Contents(s.pool, Get(s).outOff, Get(s).entry)
  {
    hide Contents;
    var first, next := s.pool[s.outOff], Wrap(s.outOff + 1, |s.pool|);
    Taken(s.pool, s.outOff, s.entry);
    Regroup(s.delivered, [first], Contents(s.pool, next, s.entry - 1));
    GetRing(s);
  }

  lemma PutPlaces(s: State, v: int)
    requires Places(s) && RingOk(s.pool, s.inOff, s.outOff, s.entry) && s.entry < |s.pool|
    ensures Places(Put(s, v))
    ensures |Put(s, v).wokenReceivers| == |s.wokenReceivers| + if s.receivers == [] then 0 else 1
  {
    hide InLine;
    if s.receivers != [] {
      Uncons(s.receivers);
      FirstInLine(s.receivers, s.fifo, s.prio);
      var t := s.receivers[0];
      assert t in s.receivers && t !in s.wokenReceivers;
    }
  }

  lemma GetPlaces(s: State)
    requires Places(s) && RingOk(s.pool, s.inOff, s.outOff, s.entry) && s.entry > 0
    ensures Places(Get(s))
    ensures |Get(s).wokenSenders| == |s.wokenSenders| + if s.senders == [] then 0 else 1
  {
    hide InLine;
    if s.senders != [] {
      Uncons(s.senders);
      FirstInLine(s.senders, s.fifo, s.prio);
      var t := s.senders[0];
      assert t in s.senders && t !in s.wokenSenders;
    }
  }

  /** The invariant while one of the woken threads is running: it may still owe a wake-up. */
  ghost predicate Owing(s: State, r: nat, w: nat) {
    && Fifo(s) && Places(s)
    && (s.receivers != [] ==> s.entry <= |s.wokenReceivers| + r)
    && (s.senders != [] ==> |s.pool| - s.entry <= |s.wokenSenders| + w)
  }

  lemma EnqueuePlaces(s: State, t: int, v: int)
    requires Places(s) && Idle(s, t)
    ensures Places(s.(senders := Enqueue(s.senders, s.fifo, s.prio, t), mail := s.mail[t := v]))
    ensures Places(s.(receivers := Enqueue(s.receivers, s.fifo, s.prio, t)))
  {
    hide Enqueue; hide InLine;
    EnqueueJoins(s.senders, s.fifo, s.prio, t);
    EnqueueJoins(s.receivers, s.fifo, s.prio, t);
  }

  lemma SendKeeps(s: State, t: int, v: int, timeout: int)
    requires Owing(s, 0, 1) && Idle(s, t)
    ensures Inv(Send(s, t, v, timeout))
  {
    hide Contents; hide Enqueue; hide Places; hide InLine;
    if s.entry < |s.pool| {
      PutFifo(s, v);
      PutPlaces(s, v);
    } else {
      EnqueuePlaces(s, t, v);
    }
  }

  lemma RecvKeeps(s: State, t: int, timeout: int)
    requires Owing(s, 1, 0) && Idle(s, t)
    ensures Inv(Recv(s, t, timeout))
  {
    hide Contents; hide Enqueue; hide Places; hide InLine;
    if s.entry > 0 {
      GetFifo(s);
      GetPlaces(s);
    } else {
      EnqueuePlaces(s, t, 0);
    }
  }

  lemma ResumeSendKeeps(s: State, t: int, left: int)
    requires Inv(s) && t in s.wokenSenders
    ensures t in s.mail && Inv(ResumeSend(s, t, left))
  {
    hide Send;
    WokenSends(s, t);
    SendKeeps(s.(wokenSenders := s.wokenSenders - {t}), t, s.mail[t], left);
  }

  lemma WokenSends(s: State, t: int)
    requires Inv(s) && t in s.wokenSenders
    ensures var s1 := s.(wokenSenders := s.wokenSenders - {t});
      t in s.mail && Fifo(s) && Owing(s1, 0, 1) && Idle(s1, t)
  {
    hide Contents; hide InLine;
  }

  lemma ResumeRecvKeeps(s: State, t: int, left: int)
    requires Inv(s) && t in s.wokenReceivers
    ensures Inv(ResumeRecv(s, t, left))
  {
    hide Recv;
    WokenReceives(s, t);
    RecvKeeps(s.(wokenReceivers := s.wokenReceivers - {t}), t, left);
  }

  lemma WokenReceives(s: State, t: int)
    requires Inv(s) && t in s.wokenReceivers
    ensures var s1 := s.(wokenReceivers := s.wokenReceivers - {t});
      Fifo(s) && Owing(s1, 1, 0) && Idle(s1, t)
  {
    hide Contents; hide InLine;
  }

  lemma RemoveNone(row: seq<int>, t: int)
    ensures row == [] ==> Remove(row, t) == []
  {}

  lemma ExpireKeeps(s: State, t: int)
    requires Inv(s) && (t in s.receivers || t in s.senders)
    ensures Inv(Expire(s, t)) && t in Expire(s, t).failed && Expire(s, t).failed[t] == Etimeout
  {
    hide Contents; hide InLine; hide Remove;
    RemoveMembers(s.receivers, t);
    RemoveMembers(s.senders, t);
    RemoveInLine(s.receivers, s.fifo, s.prio, t);
    RemoveInLine(s.senders, s.fifo, s.prio, t);
    RemoveNone(s.receivers, t);
    RemoveNone(s.senders, t);
  }

  lemma {:induction false} DismissedIs(row: seq<int>, failed: map<int, Err>)
    ensures forall t :: t in Dismissed(row, failed) <==> t in row || t in failed
    ensures forall t :: t in Dismissed(row, failed) ==> Dismissed(row, failed)[t] == if t in row then Eerror else failed[t]
  {
    if row != [] {
      Uncons(row);
      DismissedIs(row[1..], failed[row[0] := Eerror]);
    }
  }

  /** A reset empties the box and tells every waiting thread. */
  lemma ResetKeeps(s: State)
    requires Inv(s)
    ensures Inv(Reset(s))
    ensures forall t :: t in s.receivers || t in s.senders ==> t in Reset(s).failed && Reset(s).failed[t] == Eerror
  {
    hide Dismissed;
    DismissedIs(s.receivers, s.failed);
    DismissedIs(s.senders, Dismissed(s.receivers, s.failed));
    assert s.delivered + [] == s.delivered;
  }

  lemma FailKeeps(s: State, t: int)
    requires Inv(s) && t in s.failed
    ensures Inv(Fail(s, t)) && Idle(Fail(s, t), t)
  {
    hide Contents; hide InLine;
  }

  // ---- runs -----------------------------------------------------------------------------------

  datatype Op =
    | DoSend(t: int, v: int, timeout: int) | DoRecv(t: int, timeout: int)
    | DoResumeSend(t: int, left: int) | DoResumeRecv(t: int, left: int)
    | DoExpire(t: int) | DoFail(t: int) | DoReset

  predicate Enabled(s: State, op: Op) {
    match op
    case DoSend(t, _, _) => Idle(s, t)
    case DoRecv(t, _) => Idle(s, t)
    case DoResumeSend(t, _) => t in s.wokenSenders
    case DoResumeRecv(t, _) => t in s.wokenReceivers
    case DoExpire(t) => t in s.receivers || t in s.senders
    case DoFail(t) => t in s.failed
    case DoReset => true
  }

  ghost function Step(s: State, op: Op): State
    requires Inv(s) && Enabled(s, op)
  {
    match op
    case DoSend(t, v, timeout) => Send(s, t, v, timeout)
    case DoRecv(t, timeout) => Recv(s, t, timeout)
    case DoResumeSend(t, left) => ResumeSend(s, t, left)
    case DoResumeRecv(t, left) => ResumeRecv(s, t, left)
    case DoExpire(t) => Expire(s, t)
    case DoFail(t) => Fail(s, t)
    case DoReset => Reset(s)
  }

  lemma StepKeeps(s: State, op: Op)
    requires Inv(s) && Enabled(s, op)
    ensures Inv(Step(s, op))
  {
    hide Send; hide Recv; hide ResumeSend; hide ResumeRecv; hide Expire; hide Fail; hide Reset; hide Inv; hide Idle;
    match op
    case DoSend(t, v, timeout) => InvOwing(s); SendKeeps(s, t, v, timeout);
    case DoRecv(t, timeout) => InvOwing(s); RecvKeeps(s, t, timeout);
    case DoResumeSend(t, left) => ResumeSendKeeps(s, t, left);
    case DoResumeRecv(t, left) => ResumeRecvKeeps(s, t, left);
    case DoExpire(t) => ExpireKeeps(s, t);
    case DoFail(t) => FailKeeps(s, t);
    case DoReset => ResetKeeps(s);
  }

  lemma InvOwing(s: State)
    requires Inv(s)
    ensures Owing(s, 0, 1) && Owing(s, 1, 0)
  {}

  /** `ops` can happen one after the other from `s`. */
  ghost predicate Can(s: State, ops: seq<Op>)
    requires Inv(s)
    decreases |ops|
  {
    ops == [] || (Enabled(s, ops[0]) && (StepKeeps(s, ops[0]); Can(Step(s, ops[0]), ops[1..])))
  }

  ghost function Run(s: State, ops: seq<Op>): State
    requires Inv(s) && Can(s, ops)
    decreases |ops|
  {
    if ops == [] then s else StepKeeps(s, ops[0]); Run(Step(s, ops[0]), ops[1..])
  }

  /** In every state of every run the box is a bounded queue and no wake-up is lost: with nobody
      woken and still to run, no receiver waits at a box with mail and no sender at one with room. */
  lemma {:induction false} RunKeeps(s: State, ops: seq<Op>)
    requires Inv(s) && Can(s, ops)
    ensures var r := Run(s, ops);
      && Inv(r) && r.entry <= |r.pool|
      && (r.wokenReceivers == {} && r.entry > 0 ==> r.receivers == [])
      && (r.wokenSenders == {} && r.entry < |r.pool| ==> r.senders == [])
    decreases |ops|
  {
    hide Step; hide Enabled; hide Contents; hide InLine; hide Places;
    if ops != [] {
      StepKeeps(s, ops[0]);
      RunKeeps(Step(s, ops[0]), ops[1..]);
    }
  }

  // ---- the box as its callers see it ------------------------------------------------------------

  /** A bounded queue of mails, and the mail that every thread last asked to send. */
  datatype Queue = Queue(size: nat, accepted: seq<int>, delivered: seq<int>, asked: map<int, int>)

  ghost function Accept(q: Queue, t: int): Queue {
    if t in q.asked && |q.accepted| < |q.delivered| + q.size then q.(accepted := q.accepted + [q.asked[t]]) else q
  }

  ghost function Serve(q: Queue): Queue {
    if |q.delivered| < |q.accepted| then q.(delivered := q.delivered + [q.accepted[|q.delivered|]]) else q
  }

  /** What an operation does to the queue, whoever waits. */
  ghost function Move(q: Queue, op: Op): Queue {
    match op
    case DoSend(t, v, _) => Accept(q.(asked := q.asked[t := v]), t)
    case DoResumeSend(t, _) => Accept(q, t)
    case DoRecv(_, _) => Serve(q)
    case DoResumeRecv(_, _) => Serve(q)
    case DoReset => q.(accepted := q.delivered)
    case _ => q
  }

  ghost function Moves(q: Queue, ops: seq<Op>): Queue
    decreases |ops|
  {
    if ops == [] then q else Moves(Move(q, ops[0]), ops[1..])
  }

  /** A sender that waits, or was woken and has not run, still has its mail. */
  ghost predicate Seen(s: State, q: Queue) {
    && |s.pool| == q.size && s.accepted == q.accepted && s.delivered == q.delivered
    && forall t :: t in s.senders || t in s.wokenSenders ==> t in s.mail && t in q.asked && s.mail[t] == q.asked[t]
  }

  lemma {:induction false} ContentsLength(pool: seq<int>, outOff: nat, entry: nat)
    requires outOff + entry <= 2 * |pool| && (entry > 0 ==> outOff < |pool|)
    ensures |Contents(pool, outOff, entry)| == entry
    decreases entry
  {
    if entry > 0 { ContentsLength(pool, Wrap(outOff + 1, |pool|), entry - 1); }
  }

  lemma FifoCount(s: State)
    requires Fifo(s)
    ensures |s.accepted| == |s.delivered| + s.entry
    ensures s.entry > 0 ==> s.accepted[|s.delivered|] == s.pool[s.outOff]
  {
    ContentsLength(s.pool, s.outOff, s.entry);
    if s.entry > 0 { Taken(s.pool, s.outOff, s.entry); }
  }

  lemma SendSeen(s: State, q: Queue, t: int, timeout: int)
    requires Fifo(s) && Seen(s, q) && t in q.asked
    ensures Seen(Send(s, t, q.asked[t], timeout), Accept(q, t))
  {
    hide Contents; hide Enqueue;
    FifoCount(s);
    EnqueueIn(s.senders, s.fifo, s.prio, t);
  }

  lemma EnqueueIn(row: seq<int>, fifo: bool, key: map<int, int>, t: int)
    ensures forall x :: x in Enqueue(row, fifo, key, t) <==> x == t || x in row
  {
    InsertMembers(row, key, t);
  }

  lemma RecvSeen(s: State, q: Queue, t: int, timeout: int)
    requires Fifo(s) && Seen(s, q)
    ensures Seen(Recv(s, t, timeout), Serve(q))
  {
    hide Contents; hide Enqueue;
    FifoCount(s);
    if s.entry > 0 && s.senders != [] { Uncons(s.senders); }
  }

  lemma AskSeen(s: State, q: Queue, t: int, v: int)
    requires Seen(s, q) && Idle(s, t)
    ensures Seen(s, q.(asked := q.asked[t := v]))
  {}

  lemma RestSeen(s: State, q: Queue, op: Op)
    requires Inv(s) && Enabled(s, op) && Seen(s, q) && (op.DoExpire? || op.DoFail? || op.DoReset?)
    ensures Seen(Step(s, op), Move(q, op))
  {
    hide Contents; hide InLine; hide Remove; hide Dismissed;
    if op.DoExpire? { RemoveMembers(s.senders, op.t); }
  }

  lemma StepSeen(s: State, q: Queue, op: Op)
    requires Inv(s) && Enabled(s, op) && Seen(s, q)
    ensures Seen(Step(s, op), Move(q, op))
  {
    hide Send; hide Recv; hide Accept; hide Serve; hide Contents; hide InLine; hide Fifo;
    match op {
      case DoSend(t, v, timeout) =>
        AskSeen(s, q, t, v);
        SendSeen(s, q.(asked := q.asked[t := v]), t, timeout);
      case DoResumeSend(t, left) =>
        WokenSends(s, t);
        SendSeen(s.(wokenSenders := s.wokenSenders - {t}), q, t, left);
      case DoRecv(t, timeout) => RecvSeen(s, q, t, timeout);
      case DoResumeRecv(t, left) =>
        WokenReceives(s, t);
        RecvSeen(s.(wokenReceivers := s.wokenReceivers - {t}), q, t, left);
      case _ => RestSeen(s, q, op);
    }
  }

  /** Over any run the box is that queue: every mail that goes in is the one its thread last asked to
      send, however often it had to wait again, and mails come out in the order in which they went in. */
  lemma {:induction false} RunIsQueue(s: State, q: Queue, ops: seq<Op>)
    requires Inv(s) && Can(s, ops) && Seen(s, q)
    ensures Seen(Run(s, ops), Moves(q, ops))
    decreases |ops|
  {
    hide Step; hide Move; hide Enabled; hide Inv; hide Seen;
    if ops != [] {
      StepKeeps(s, ops[0]);
      StepSeen(s, q, ops[0]);
      RunIsQueue(Step(s, ops[0]), Move(q, ops[0]), ops[1..]);
    }
  }

  /** Nobody is newly woken but the first of `row`, who leaves it. */
  ghost predicate OnlyWakes(woken: set<int>, woken': set<int>, row: seq<int>, row': seq<int>) {
    forall t :: t in woken' && t !in woken ==> row != [] && t == row[0] && row' == row[1..]
  }

  ghost predicate Wakes(s: State, r: State) {
    && OnlyWakes(s.wokenReceivers, r.wokenReceivers, s.receivers, r.receivers)
    && OnlyWakes(s.wokenSenders, r.wokenSenders, s.senders, r.senders)
  }

  lemma SendWakes(s: State, t: int, v: int, timeout: int)
    requires Ring(s)
    ensures Wakes(s, Send(s, t, v, timeout))
  {
    hide Enqueue;
  }

  lemma RecvWakes(s: State, t: int, timeout: int)
    requires Ring(s)
    ensures Wakes(s, Recv(s, t, timeout))
  {
    hide Enqueue;
  }

  lemma StepWakes(s: State, op: Op)
    requires Inv(s) && Enabled(s, op)
    ensures Wakes(s, Step(s, op))
  {
    hide Contents; hide Send; hide Recv; hide Remove; hide InLine; hide Dismissed;
    match op {
      case DoSend(x, v, timeout) => SendWakes(s, x, v, timeout);
      case DoRecv(x, timeout) => RecvWakes(s, x, timeout);
      case DoResumeSend(x, left) => SendWakes(s.(wokenSenders := s.wokenSenders - {x}), x, s.mail[x], left);
      case DoResumeRecv(x, left) => RecvWakes(s.(wokenReceivers := s.wokenReceivers - {x}), x, left);
      case _ =>
    }
  }

  /** Whoever an operation wakes stood first in its line, and there is none more urgent in a line by
      urgency. */
  lemma WokenInTurn(s: State, op: Op, t: int)
    requires Inv(s) && Enabled(s, op)
    ensures var r := Step(s, op);
      && (t in r.wokenReceivers && t !in s.wokenReceivers ==>
          s.receivers != [] && t == s.receivers[0] && r.receivers == s.receivers[1..] && MostUrgent(s, t, s.receivers))
      && (t in r.wokenSenders && t !in s.wokenSenders ==>
          s.senders != [] && t == s.senders[0] && r.senders == s.senders[1..] && MostUrgent(s, t, s.senders))
  {
    hide Step; hide InLine; hide Fifo; hide Enabled;
    StepWakes(s, op);
    if s.receivers != [] { FirstInLine(s.receivers, s.fifo, s.prio); }
    if s.senders != [] { FirstInLine(s.senders, s.fifo, s.prio); }
  }

  /** Nobody is new in a line but `t`, who is in its place. */
  ghost predicate OnlyJoins(row: seq<int>, row': seq<int>, s: State, t: int) {
    forall x :: x in row' && x !in row ==> x == t && Joined(row, row', s.fifo, s.prio, t)
  }

  lemma SendJoins(s: State, t: int, v: int, timeout: int)
    requires Ring(s) && Places(s) && Idle(s, t)
    ensures var r := Send(s, t, v, timeout); OnlyJoins(s.receivers, r.receivers, s, t) && OnlyJoins(s.senders, r.senders, s, t)
  {
    hide InLine; hide Enqueue; hide Joined;
    EnqueueJoins(s.senders, s.fifo, s.prio, t);
  }

  lemma RecvJoins(s: State, t: int, timeout: int)
    requires Ring(s) && Places(s) && Idle(s, t)
    ensures var r := Recv(s, t, timeout); OnlyJoins(s.receivers, r.receivers, s, t) && OnlyJoins(s.senders, r.senders, s, t)
  {
    hide InLine; hide Enqueue; hide Joined;
    EnqueueJoins(s.receivers, s.fifo, s.prio, t);
  }

  /** Whoever an operation makes wait joins its line in turn. */
  lemma BlockedInTurn(s: State, op: Op, t: int)
    requires Inv(s) && Enabled(s, op)
    ensures var r := Step(s, op);
      && (t in r.receivers && t !in s.receivers ==> Joined(s.receivers, r.receivers, s.fifo, s.prio, t))
      && (t in r.senders && t !in s.senders ==> Joined(s.senders, r.senders, s.fifo, s.prio, t))
  {
    hide Contents; hide Send; hide Recv; hide Remove; hide InLine; hide Joined;
    match op {
      case DoSend(x, v, timeout) => SendJoins(s, x, v, timeout);
      case DoRecv(x, timeout) => RecvJoins(s, x, timeout);
      case DoResumeSend(x, left) => SendJoins(s.(wokenSenders := s.wokenSenders - {x}), x, s.mail[x], left);
      case DoResumeRecv(x, left) => RecvJoins(s.(wokenReceivers := s.wokenReceivers - {x}), x, left);
      case DoExpire(x) => RemoveMembers(s.receivers, x); RemoveMembers(s.senders, x);
      case _ =>
    }
  }

  ghost predicate MostUrgent(s: State, t: int, row: seq<int>) {
    s.fifo || forall x :: x in row ==> Key(s.prio, t) <= Key(s.prio, x)
  }

  // ---- the object -----------------------------------------------------------------------------

  class Box {
    const pool: array<int>       // msg_pool
    var inOff: nat
    var outOff: nat
    var entry: nat
    var receivers: seq<int>
    var senders: seq<int>
    var mail: map<int, int>
    const fifo: bool
    const prio: map<int, int>

    var wokenReceivers: set<int>
    var wokenSenders: set<int>
    var failed: map<int, Err>
    ghost var accepted: seq<int>
    ghost var delivered: seq<int>

    ghost function Abs(): State
      reads this, pool
    {
      State(pool[..], inOff, outOff, entry, receivers, senders, wokenReceivers, wokenSenders, failed, mail,
            fifo, prio, accepted, delivered)
    }

    /** rt_mb_init. */
    constructor (size: nat, fifo: bool, prio: map<int, int>)
      ensures Inv(Abs()) && fresh(pool) && pool.Length == size && entry == 0 && Seen(Abs(), Queue(size, [], [], map[]))
    {
      pool := new int[size];
      inOff, outOff, entry, receivers, senders, mail := 0, 0, 0, [], [], map[];
      this.fifo, this.prio := fifo, prio;
      wokenReceivers, wokenSenders, failed, accepted, delivered := {}, {}, map[], [], [];
    }

    /** The end of rt_mb_send_wait: stores the mail and resumes a receiver. */
    method Store(v: int)
      requires Ring(Abs()) && entry < pool.Length
      modifies this, pool
      ensures Abs() == Put(old(Abs()), v)
    {
      pool[inOff] := v;
      inOff := inOff + 1;
      if inOff >= pool.Length { inOff := 0; }
      entry := entry + 1;
      accepted := accepted + [v];
      if receivers != [] {
        wokenReceivers := wokenReceivers + {receivers[0]};
        receivers := receivers[1..];
      }
    }

    /** The end of rt_mb_recv: takes the oldest mail out and resumes a sender. */
    method Fetch() returns (v: int)
      requires Ring(Abs()) && entry > 0
      modifies this
      ensures Abs() == Get(old(Abs())) && delivered == old(delivered) + [v]
    {
      v := pool[outOff];
      delivered := delivered + [v];
      outOff := outOff + 1;
      if outOff >= pool.Length { outOff := 0; }
      entry := entry - 1;
      if senders != [] {
        wokenSenders := wokenSenders + {senders[0]};
        senders := senders[1..];
      }
    }

    /** rt_mb_send_wait from a test of its loop: stored, refused, or `blocked`. */
    method SendWait(t: int, v: int, timeout: int) returns (blocked: bool, r: Err)
      requires Owing(Abs(), 0, 1) && Idle(Abs(), t)
      modifies this, pool
      ensures Inv(Abs()) && Abs() == Send(old(Abs()), t, v, timeout)
      ensures blocked <==> old(entry) == pool.Length && timeout != 0
      ensures blocked ==> t in senders && mail == old(mail)[t := v] && accepted == old(accepted)
      ensures !blocked ==> r == if old(entry) < pool.Length then Eok else Efull
      ensures !blocked && r == Eok ==> accepted == old(accepted) + [v] && mail == old(mail)
    {
      hide Inv; hide Owing; hide Put; hide Enqueue; hide Idle;
      OwingRing(Abs(), 0, 1);
      SendKeeps(Abs(), t, v, timeout);
      if entry == pool.Length {
        if timeout == 0 { return false, Efull; }
        EnqueueMember(senders, fifo, prio, t);
        senders := Enqueue(senders, fifo, prio, t);
        mail := mail[t := v];
        return true, Eok;
      }
      PutFifo(Abs(), v);
      PutAccepts(Abs(), v);
      Store(v);
      return false, Eok;
    }

    /** rt_mb_recv from a test of its loop: the oldest mail, a timeout, or `blocked`. */
    method RecvWait(t: int, timeout: int) returns (blocked: bool, r: Err, v: int)
      requires Owing(Abs(), 1, 0) && Idle(Abs(), t)
      modifies this
      ensures Inv(Abs()) && Abs() == Recv(old(Abs()), t, timeout)
      ensures blocked <==> old(entry) == 0 && timeout != 0
      ensures blocked ==> t in receivers
      ensures !blocked ==> r == if old(entry) > 0 then Eok else Etimeout
      ensures !blocked && r == Eok ==> delivered == old(delivered) + [v]
    {
      hide Inv; hide Owing; hide Get; hide Enqueue; hide Idle;
      OwingRing(Abs(), 1, 0);
      RecvKeeps(Abs(), t, timeout);
      if entry == 0 {
        if timeout == 0 { return false, Etimeout, 0; }
        EnqueueMember(receivers, fifo, prio, t);
        receivers := Enqueue(receivers, fifo, prio, t);
        return true, Eok, 0;
      }
      v := Fetch();
      return false, Eok, v;
    }

    /** A woken sender tests again, with `left` of its waiting time. */
    method ContinueSend(t: int, left: int) returns (blocked: bool, r: Err)
      requires Inv(Abs()) && t in wokenSenders && t in mail
      modifies this, pool
      ensures Inv(Abs()) && Abs() == ResumeSend(old(Abs()), t, left)
      ensures blocked <==> old(entry) == pool.Length && left != 0
      ensures !blocked ==> r == if old(entry) < pool.Length then Eok else Efull
      ensures !blocked && r == Eok ==> accepted == old(accepted) + [old(mail)[t]]
    {
      hide Inv; hide Owing; hide Send; hide Idle;
      WokenSends(Abs(), t);
      wokenSenders := wokenSenders - {t};
      blocked, r := SendWait(t, mail[t], left);
    }

    /** A woken receiver tests again. */
    method ContinueRecv(t: int, left: int) returns (blocked: bool, r: Err, v: int)
      requires Inv(Abs()) && t in wokenReceivers
      modifies this
      ensures Inv(Abs()) && Abs() == ResumeRecv(old(Abs()), t, left)
      ensures blocked <==> old(entry) == 0 && left != 0
      ensures !blocked ==> r == if old(entry) > 0 then Eok else Etimeout
      ensures !blocked && r == Eok ==> delivered == old(delivered) + [v]
    {
      hide Inv; hide Owing; hide Recv; hide Idle;
      WokenReceives(Abs(), t);
      wokenReceivers := wokenReceivers - {t};
      blocked, r, v := RecvWait(t, left);
    }

    /** rt_thread_timeout of a waiting sender or receiver. */
    method ExpireIt(t: int)
      requires Inv(Abs()) && (t in receivers || t in senders)
      modifies this
      ensures Inv(Abs()) && Abs() == Expire(old(Abs()), t) && t in failed && failed[t] == Etimeout
    {
      hide Inv; hide Remove;
      ExpireKeeps(Abs(), t);
      receivers, senders := Remove(receivers, t), Remove(senders, t);
      failed := failed[t := Etimeout];
    }

    /** rt_mb_control with RT_IPC_CMD_RESET. */
    method ResetIt()
      requires Inv(Abs())
      modifies this
      ensures Inv(Abs()) && Abs() == Reset(old(Abs()))
    {
      hide Inv;
      ResetKeeps(Abs());
      failed := Dismissed(receivers, failed);
      receivers := [];
      failed := Dismissed(senders, failed);
      senders := [];
      entry, inOff, outOff := 0, 0, 0;
      accepted := delivered;
    }
  }

  lemma OwingRing(s: State, r: nat, w: nat)
    requires Owing(s, r, w)
    ensures Fifo(s) && Ring(s) && s.entry <= |s.pool|
  {}

  lemma PutAccepts(s: State, v: int)
    requires Ring(s) && s.entry < |s.pool|
    ensures Put(s, v).accepted == s.accepted + [v] && Put(s, v).mail == s.mail
  {}

  lemma EnqueueMember(row: seq<int>, fifo: bool, key: map<int, int>, t: int)
    ensures t in Enqueue(row, fifo, key, t)
  {
    InsertMembers(row, key, t);
    assert (row + [t])[|row|] == t;
  }
}
