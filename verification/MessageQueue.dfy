/** A message queue: fixed nodes that move between a free list, the queue, and the threads that fill
    or empty them outside the interrupt-disabled sections (src/ipc.c).

    Each interrupt-disabled section, and each piece of work on a node a thread holds, is one step. */
module MessageQueue {
  import opened SortedRow

  const NULL := -1

  /** What a thread does with the node it holds. */
  datatype Hold =
    | Sender(node: int, urgent: bool, msg: seq<int>, filled: bool)
    | Receiver(node: int, msg: seq<int>)

  datatype Place = Free | Queued | Held(t: int)

  datatype State = State(
    next: map<int, int>,         // node->next
    data: map<int, seq<int>>,    // the bytes behind each node
    head: int,                   // msg_queue_head
    tail: int,                   // msg_queue_tail
    free: int,                   // msg_queue_free
    entry: nat,
    msgSize: nat,
    held: map<int, Hold>,        // nodes in the hands of threads
    queue: seq<int>,             // the nodes from head on
    frees: seq<int>,             // the nodes from free on
    msgs: seq<seq<int>>,         // the messages in the queue, as their senders gave them
    place: map<int, Place>)

  // ---- linked nodes -------------------------------------------------------------------------

  /** From `p`, the next pointers run through `nodes` and end. */
  ghost predicate Linked(next: map<int, int>, p: int, nodes: seq<int>)
    decreases |nodes|
  {
    if nodes == [] then p == NULL
    else p == nodes[0] && p != NULL && p in next && Linked(next, next[p], nodes[1..])
  }

  lemma {:induction false} LinkedFrame(next: map<int, int>, next': map<int, int>, p: int, nodes: seq<int>)
    requires Linked(next, p, nodes) && forall n :: n in nodes && n in next ==> n in next' && next'[n] == next[n]
    ensures Linked(next', p, nodes)
    decreases |nodes|
  {
    if nodes != [] {
      Uncons(nodes);
      assert p in nodes;
      LinkedFrame(next, next', next[p], nodes[1..]);
    }
  }

  lemma {:induction false} LinkedAppend(next: map<int, int>, p: int, nodes: seq<int>, n: int)
    requires Linked(next, p, nodes) && nodes != [] && Distinct(nodes)
    requires n !in nodes && n != NULL && n in next && next[n] == NULL
    ensures Linked(next[nodes[|nodes| - 1] := n], p, nodes + [n])
    decreases |nodes|
  {
    Uncons(nodes);
    var next' := next[nodes[|nodes| - 1] := n];
    assert (nodes + [n])[1..] == nodes[1..] + [n];
    if |nodes| == 1 {
      assert nodes[1..] == [] && ([] + [n])[1..] == [];
      assert Linked(next', n, [n]);
    } else {
      assert nodes[1..][|nodes| - 2] == nodes[|nodes| - 1];
      LinkedAppend(next, next[p], nodes[1..], n);
    }
  }

  // ---- the steps ----------------------------------------------------------------------------

  /** rt_mq_send and rt_mq_urgent, first section: a free node, if there is one. */
  function Grab(s: State, t: int, msg: seq<int>, urgent: bool): State {
    if s.free == NULL || s.free !in s.next || s.frees == [] then s
    else s.(free := s.next[s.free], frees := s.frees[1..],
            held := s.held[t := Sender(s.free, urgent, msg, false)], place := s.place[s.free := Held(t)])
  }

  /** The bytes of a slot after a message was copied to its start. */
  function Filled(slot: seq<int>, msg: seq<int>): seq<int> {
    if |msg| <= |slot| then msg + slot[|msg|..] else msg
  }

  /** The message is copied into the node; for an ordinary message its next pointer is cleared. */
  function Fill(s: State, t: int): State
    requires t in s.held && s.held[t].Sender? && s.held[t].node in s.data
  {
    var h := s.held[t];
    s.(data := s.data[h.node := Filled(s.data[h.node], h.msg)],
       next := if h.urgent then s.next else s.next[h.node := NULL],
       held := s.held[t := h.(filled := true)])
  }

  /** rt_mq_send, second section. */
  function LinkBack(s: State, t: int): State
    requires t in s.held && s.held[t].Sender?
  {
    var n := s.held[t].node;
    s.(next := if s.tail != NULL then s.next[s.tail := n] else s.next,
       tail := n,
       head := if s.head == NULL then n else s.head,
       entry := s.entry + 1,
       queue := s.queue + [n], msgs := s.msgs + [s.held[t].msg],
       held := s.held - {t}, place := s.place[n := Queued])
  }

  /** rt_mq_urgent, second section. */
  function LinkFront(s: State, t: int): State
    requires t in s.held && s.held[t].Sender?
  {
    var n := s.held[t].node;
    s.(next := s.next[n := s.head],
       head := n,
       tail := if s.tail == NULL then n else s.tail,
       entry := s.entry + 1,
       queue := [n] + s.queue, msgs := [s.held[t].msg] + s.msgs,
       held := s.held - {t}, place := s.place[n := Queued])
  }

  /** rt_mq_recv with a message in the queue, the section that takes it. */
  function Take(s: State, t: int): State {
    if s.head !in s.next || s.queue == [] || s.msgs == [] || s.entry == 0 then s
    else s.(head := s.next[s.head],
            tail := if s.tail == s.head then NULL else s.tail,
            entry := s.entry - 1,
            queue := s.queue[1..], msgs := s.msgs[1..],
            held := s.held[t := Receiver(s.head, s.msgs[0])], place := s.place[s.head := Held(t)])
  }

  /** rt_mq_recv, last section. */
  function GiveBack(s: State, t: int): State
    requires t in s.held
  {
    var n := s.held[t].node;
    s.(next := s.next[n := s.free], free := n, frees := [n] + s.frees, held := s.held - {t}, place := s.place[n := Free])
  }

  /** One round of the loop of the reset: the first message becomes a free node. */
  function Discard(s: State): State {
    if s.head !in s.next || s.queue == [] || s.msgs == [] then s
    else s.(head := s.next[s.head],
            tail := if s.tail == s.head then NULL else s.tail,
            next := s.next[s.head := s.free], free := s.head,
            queue := s.queue[1..], msgs := s.msgs[1..], frees := [s.head] + s.frees, place := s.place[s.head := Free])
  }

  // ---- the invariant ------------------------------------------------------------------------

  /** Every node is in exactly one place: the free list, the queue, or one thread's hands. */
  ghost predicate Places(s: State) {
    && s.next.Keys == s.place.Keys == s.data.Keys && NULL !in s.place
    && Distinct(s.queue) && Distinct(s.frees)
    && (forall n :: n in s.queue <==> n in s.place && s.place[n] == Queued)
    && (forall n :: n in s.frees <==> n in s.place && s.place[n] == Free)
    && (forall t :: t in s.held ==> s.held[t].node in s.place && s.place[s.held[t].node] == Held(t))
    && (forall n :: n in s.place && s.place[n].Held? ==> s.place[n].t in s.held && s.held[s.place[n].t].node == n)
  }

  /** The pointers run through exactly those nodes; head is null iff tail is. */
  ghost predicate Pointers(s: State) {
    && Linked(s.next, s.head, s.queue) && Linked(s.next, s.free, s.frees)
    && s.tail == (if s.queue == [] then NULL else s.queue[|s.queue| - 1])
    && (forall t :: t in s.held && s.held[t].Sender? && s.held[t].filled && !s.held[t].urgent ==>
      s.held[t].node in s.next && s.next[s.held[t].node] == NULL)
  }

  ghost predicate Holds(slot: seq<int>, msg: seq<int>, msgSize: nat) {
    |slot| == msgSize && 0 < |msg| <= msgSize && slot[..|msg|] == msg
  }

  /** Each queued node, and each node a thread has filled or taken, holds its message. */
  ghost predicate Contents(s: State) {
    && |s.msgs| == |s.queue|
    && (forall n :: n in s.data ==> |s.data[n]| == s.msgSize)
    && (forall i :: 0 <= i < |s.queue| ==> s.queue[i] in s.data && Holds(s.data[s.queue[i]], s.msgs[i], s.msgSize))
    && (forall t :: t in s.held ==> 0 < |s.held[t].msg| <= s.msgSize && s.held[t].node in s.data)
    && (forall t :: t in s.held && (s.held[t].Receiver? || s.held[t].filled) ==>
      Holds(s.data[s.held[t].node], s.held[t].msg, s.msgSize))
  }

  ghost predicate Inv(s: State) {
    Places(s) && Pointers(s) && Contents(s) && s.entry == |s.queue|
  }

  lemma GrabPlaces(s: State, t: int, msg: seq<int>, urgent: bool)
    requires Places(s) && Pointers(s) && t !in s.held
    ensures Places(Grab(s, t, msg, urgent))
  {
    hide Linked;
    if s.frees != [] { Uncons(s.frees); FirstLinked(s.next, s.free, s.frees); }
  }

  lemma FirstLinked(next: map<int, int>, p: int, nodes: seq<int>)
    requires Linked(next, p, nodes)
    ensures nodes == [] ==> p == NULL
    ensures nodes != [] ==> p == nodes[0] && p != NULL && p in next && Linked(next, next[p], nodes[1..])
  {}

  lemma GrabKeeps(s: State, t: int, msg: seq<int>, urgent: bool)
    requires Inv(s) && t !in s.held && 0 < |msg| <= s.msgSize
    ensures Inv(Grab(s, t, msg, urgent))
    ensures Grab(s, t, msg, urgent) == s <==> s.frees == []
  {
    hide Linked; hide Distinct; hide Places; hide Holds;
    FirstLinked(s.next, s.free, s.frees);
    GrabPlaces(s, t, msg, urgent);
    assert s.frees != [] ==> t in Grab(s, t, msg, urgent).held;
    if s.frees != [] { FreeKnown(s); }
  }

  lemma FreeKnown(s: State)
    requires Places(s) && s.frees != []
    ensures s.frees[0] in s.place && s.frees[0] in s.data && s.frees[0] in s.next
  {
    var n := s.frees[0];
    assert n in s.frees;
  }

  lemma HeldApart(s: State, t: int)
    requires Places(s) && t in s.held
    ensures var n := s.held[t].node;
      && n in s.next && n in s.data && n != NULL && n !in s.queue && n !in s.frees
      && forall u :: u in s.held && u != t ==> s.held[u].node != n
  {}

  lemma FilledHolds(slot: seq<int>, msg: seq<int>, msgSize: nat)
    requires |slot| == msgSize && 0 < |msg| <= msgSize
    ensures Holds(Filled(slot, msg), msg, msgSize)
  {}

  lemma FillKeeps(s: State, t: int)
    requires Inv(s) && t in s.held && s.held[t].Sender?
    ensures s.held[t].node in s.data && Inv(Fill(s, t)) && t in Fill(s, t).held && Fill(s, t).held[t] == s.held[t].(filled := true)
  {
    HeldApart(s, t);
    FillPlaces(s, t);
    FillPointers(s, t);
    FillContents(s, t);
    hide Places; hide Pointers; hide Contents;
  }

  lemma FillPointers(s: State, t: int)
    requires Places(s) && Pointers(s) && t in s.held && s.held[t].Sender? && s.held[t].node in s.data
    ensures Pointers(Fill(s, t))
  {
    HeldApart(s, t);
    var r := Fill(s, t);
    LinkedFrame(s.next, r.next, s.head, s.queue);
    LinkedFrame(s.next, r.next, s.free, s.frees);
    hide Linked; hide Distinct; hide Filled;
  }

  lemma FillContents(s: State, t: int)
    requires Places(s) && Contents(s) && t in s.held && s.held[t].Sender? && s.held[t].node in s.data
    ensures Contents(Fill(s, t))
  {
    HeldApart(s, t);
    FilledHolds(s.data[s.held[t].node], s.held[t].msg, s.msgSize);
    FilledLength(s.data[s.held[t].node], s.held[t].msg);
    hide Distinct; hide Holds; hide Filled;
  }

  lemma FilledLength(slot: seq<int>, msg: seq<int>)
    ensures |msg| <= |slot| ==> |Filled(slot, msg)| == |slot|
  {}

  lemma FillPlaces(s: State, t: int)
    requires Places(s) && t in s.held && s.held[t].Sender? && s.held[t].node in s.data && s.held[t].node in s.next
    ensures Places(Fill(s, t))
  {
    hide Distinct;
  }

  lemma GiveBackPlaces(s: State, t: int)
    requires Places(s) && t in s.held
    ensures Places(GiveBack(s, t))
  {
    HeldApart(s, t);
    assert ([s.held[t].node] + s.frees)[1..] == s.frees;
  }

  /** A receiver returns its node. */
  lemma GiveBackKeeps(s: State, t: int)
    requires Inv(s) && t in s.held
    ensures Inv(GiveBack(s, t))
  {
    GiveBackPlaces(s, t);
    GiveBackPointers(s, t);
    GiveBackContents(s, t);
    hide Places; hide Pointers; hide Contents;
  }

  lemma GiveBackPointers(s: State, t: int)
    requires Places(s) && Pointers(s) && t in s.held
    ensures Pointers(GiveBack(s, t))
  {
    HeldApart(s, t);
    var n := s.held[t].node;
    var r := GiveBack(s, t);
    LinkedFrame(s.next, r.next, s.head, s.queue);
    LinkedFrame(s.next, r.next, s.free, s.frees);
    assert r.frees[1..] == s.frees && r.frees[0] == n;
    assert Linked(r.next, r.free, r.frees);
    hide Linked; hide Distinct;
  }

  lemma GiveBackContents(s: State, t: int)
    requires Contents(s) && t in s.held
    ensures Contents(GiveBack(s, t))
  {
    hide Holds;
  }

  lemma LinkBackPlaces(s: State, t: int)
    requires Places(s) && (s.tail != NULL ==> s.tail in s.next) && t in s.held && s.held[t].Sender?
    ensures Places(LinkBack(s, t))
  {
    HeldApart(s, t);
    AppendDistinct(s.queue, s.held[t].node);
    hide Distinct;
  }

  lemma LinkFrontPlaces(s: State, t: int)
    requires Places(s) && t in s.held && s.held[t].Sender?
    ensures Places(LinkFront(s, t))
  {
    HeldApart(s, t);
    assert ([s.held[t].node] + s.queue)[1..] == s.queue;
  }

  lemma TailKnown(s: State)
    requires Places(s) && Pointers(s)
    ensures s.head == NULL <==> s.queue == []
    ensures s.tail == NULL <==> s.queue == []
    ensures s.tail != NULL ==> s.tail in s.next && s.tail in s.queue
  {
    FirstLinked(s.next, s.head, s.queue);
    if s.queue != [] {
      var n := s.queue[|s.queue| - 1];
      assert n in s.queue;
    }
  }

  lemma LinkBackPointers(s: State, t: int)
    requires Places(s) && Pointers(s) && t in s.held && s.held[t].Sender? && s.held[t].filled && !s.held[t].urgent
    ensures Pointers(LinkBack(s, t))
  {
    HeldApart(s, t);
    TailKnown(s);
    var n := s.held[t].node;
    var r := LinkBack(s, t);
    if s.queue == [] {
      assert r.queue == [n] && r.queue[1..] == [] && Linked(r.next, n, [n]);
    } else {
      LinkedAppend(s.next, s.head, s.queue, n);
    }
    LinkedFrame(s.next, r.next, s.free, s.frees);
    hide Linked; hide Distinct;
  }

  lemma LinkFrontPointers(s: State, t: int)
    requires Places(s) && Pointers(s) && t in s.held && s.held[t].Sender?
    ensures Pointers(LinkFront(s, t))
  {
    HeldApart(s, t);
    TailKnown(s);
    var n := s.held[t].node;
    var r := LinkFront(s, t);
    LinkedFrame(s.next, r.next, s.head, s.queue);
    LinkedFrame(s.next, r.next, s.free, s.frees);
    assert r.queue[1..] == s.queue && r.queue[0] == n;
    assert Linked(r.next, r.head, r.queue);
    hide Linked; hide Distinct;
  }

  lemma LinkContents(s: State, t: int)
    requires Contents(s) && t in s.held && s.held[t].Sender? && s.held[t].filled
    ensures Contents(LinkBack(s, t)) && Contents(LinkFront(s, t))
  {
    hide Holds;
  }

  /** An ordinary message joins the queue at the back, an urgent one at the front. */
  lemma LinkKeeps(s: State, t: int)
    requires Inv(s) && t in s.held && s.held[t].Sender? && s.held[t].filled
    ensures !s.held[t].urgent ==> Inv(LinkBack(s, t)) && LinkBack(s, t).msgs == s.msgs + [s.held[t].msg]
    ensures s.held[t].urgent ==> Inv(LinkFront(s, t)) && LinkFront(s, t).msgs == [s.held[t].msg] + s.msgs
  {
    TailKnown(s);
    LinkContents(s, t);
    if s.held[t].urgent {
      LinkFrontPlaces(s, t);
      LinkFrontPointers(s, t);
    } else {
      LinkBackPlaces(s, t);
      LinkBackPointers(s, t);
    }
    hide Places; hide Pointers; hide Contents;
  }

  lemma TakePlaces(s: State, t: int)
    requires Places(s) && Linked(s.next, s.head, s.queue) && t !in s.held
    ensures Places(Take(s, t))
  {
    FirstLinked(s.next, s.head, s.queue);
    hide Linked;
    if s.queue != [] { Uncons(s.queue); }
  }

  lemma TakePointers(s: State, t: int)
    requires Places(s) && Pointers(s) && t !in s.held
    ensures Pointers(Take(s, t))
  {
    FirstLinked(s.next, s.head, s.queue);
    hide Linked;
    if |s.queue| > 1 {
      Uncons(s.queue);
      var q := s.queue[1..];
      assert q[|q| - 1] == s.queue[|s.queue| - 1];
      assert q[|q| - 1] in q;
    }
    hide Distinct; hide Places;
  }

  lemma TakeContents(s: State, t: int)
    requires Contents(s) && Linked(s.next, s.head, s.queue) && t !in s.held
    ensures Contents(Take(s, t))
  {
    FirstLinked(s.next, s.head, s.queue);
    hide Linked; hide Holds;
  }

  /** A receiver takes the first message of the queue, whose bytes are in the node it now holds. */
  lemma TakeKeeps(s: State, t: int)
    requires Inv(s) && t !in s.held && s.entry > 0
    ensures var r := Take(s, t);
      && Inv(r) && s.msgs == [r.held[t].msg] + r.msgs
      && r.held[t].node in r.data && Holds(r.data[r.held[t].node], r.held[t].msg, r.msgSize)
  {
    TakePlaces(s, t);
    TakePointers(s, t);
    TakeContents(s, t);
    FirstLinked(s.next, s.head, s.queue);
    hide Places; hide Pointers; hide Linked; hide Holds;
  }

  // ---- reset --------------------------------------------------------------------------------

  lemma DiscardPlaces(s: State)
    requires Places(s) && Linked(s.next, s.head, s.queue) && s.queue != [] && |s.msgs| == |s.queue|
    ensures Places(Discard(s))
  {
    FirstLinked(s.next, s.head, s.queue);
    hide Linked;
    Uncons(s.queue);
    assert ([s.head] + s.frees)[1..] == s.frees;
    assert s.head in s.queue;
  }

  lemma DiscardPointers(s: State)
    requires Places(s) && Pointers(s) && s.queue != [] && |s.msgs| == |s.queue|
    ensures Pointers(Discard(s))
  {
    FirstLinked(s.next, s.head, s.queue);
    Uncons(s.queue);
    var r := Discard(s);
    assert s.head in s.queue && s.head !in s.frees;
    LinkedFrame(s.next, r.next, r.head, s.queue[1..]);
    LinkedFrame(s.next, r.next, s.free, s.frees);
    assert r.frees[1..] == s.frees && r.frees[0] == s.head;
    assert Linked(r.next, r.free, r.frees);
    if |s.queue| > 1 {
      var q := s.queue[1..];
      assert q[|q| - 1] == s.queue[|s.queue| - 1];
      assert q[|q| - 1] in q;
    }
    hide Linked; hide Distinct;
  }

  lemma DiscardContents(s: State)
    requires Contents(s) && Linked(s.next, s.head, s.queue) && s.queue != []
    ensures Contents(Discard(s))
  {
    FirstLinked(s.next, s.head, s.queue);
    hide Linked; hide Holds;
  }

  /** The loop of the reset. */
  function DiscardAll(s: State): State
    decreases |s.queue|
  {
    if s.head == NULL || s.head !in s.next || s.queue == [] || s.msgs == [] then s else DiscardAll(Discard(s))
  }

  /** rt_mq_control with RT_IPC_CMD_RESET. */
  function Reset(s: State): State {
    DiscardAll(s).(entry := 0)
  }

  ghost function Reversed(q: seq<int>): seq<int> {
    if q == [] then [] else Reversed(q[1..]) + [q[0]]
  }

  ghost predicate Shape(s: State) {
    Places(s) && Pointers(s) && Contents(s)
  }

  lemma DiscardShape(s: State)
    requires Shape(s) && s.queue != []
    ensures s.head != NULL && s.head in s.next && s.msgs != [] && Shape(Discard(s))
  {
    FirstLinked(s.next, s.head, s.queue);
    DiscardPlaces(s);
    DiscardPointers(s);
    DiscardContents(s);
    hide Places; hide Pointers; hide Linked; hide Holds; hide Discard;
  }

  lemma DiscardMoves(s: State)
    requires s.queue != [] && s.head in s.next && s.msgs != [] && s.head == s.queue[0]
    ensures var r := Discard(s);
      && r.queue == s.queue[1..] && r.msgs == s.msgs[1..] && r.frees == [s.queue[0]] + s.frees
      && r.held == s.held && r.data == s.data && r.msgSize == s.msgSize
  {}

  lemma ShapeEnds(s: State)
    requires Shape(s)
    ensures (s.queue == [] <==> s.head == NULL) && (s.queue != [] ==> s.head == s.queue[0]) && |s.msgs| == |s.queue|
  {
    FirstLinked(s.next, s.head, s.queue);
  }

  lemma {:induction false} DiscardAllKeeps(s: State)
    requires Shape(s)
    ensures var r := DiscardAll(s);
      && Shape(r)
      && r.queue == [] && r.msgs == [] && r.frees == Reversed(s.queue) + s.frees
      && r.held == s.held && r.data == s.data && r.msgSize == s.msgSize
    decreases |s.queue|
  {
    hide Shape; hide Discard;
    ShapeEnds(s);
    if s.queue != [] {
      DiscardShape(s);
      DiscardMoves(s);
      DiscardAllKeeps(Discard(s));
      assert Reversed(s.queue[1..]) + ([s.queue[0]] + s.frees) == Reversed(s.queue[1..]) + [s.queue[0]] + s.frees;
    } else {
      assert [] + s.frees == s.frees;
    }
  }

  lemma ShapeEntry(s: State, e: nat)
    requires Shape(s)
    ensures Shape(s.(entry := e))
  {
    hide Linked; hide Distinct; hide Holds;
  }

  /** A reset empties the queue and frees its nodes; nodes in the hands of threads stay there. */
  lemma ResetKeeps(s: State)
    requires Inv(s)
    ensures var r := Reset(s);
      Inv(r) && r.msgs == [] && r.held == s.held && r.frees == Reversed(s.queue) + s.frees
  {
    hide Places; hide Pointers; hide Contents; hide DiscardAll;
    DiscardAllKeeps(s);
    ShapeEntry(DiscardAll(s), 0);
  }

  // ---- delivery -----------------------------------------------------------------------------

  /** What rt_mq_recv copies out of a slot into a buffer of `size` bytes. */
  function Copied(slot: seq<int>, size: nat): seq<int> {
    if size > |slot| then slot else slot[..size]
  }

  /** The receiver's buffer starts with the sender's message, as far as it fits. */
  lemma DeliveredMessage(s: State, t: int, size: nat)
    requires Inv(s) && t in s.held && s.held[t].Receiver?
    ensures s.held[t].node in s.data
    ensures var msg := s.held[t].msg; var got := Copied(s.data[s.held[t].node], size);
      && |got| == (if size > s.msgSize then s.msgSize else size)
      && (|msg| <= |got| ==> got[..|msg|] == msg)
      && (|got| <= |msg| ==> got == msg[..|got|])
  {
    hide Linked; hide Distinct;
    var slot, msg := s.data[s.held[t].node], s.held[t].msg;
    assert Holds(slot, msg, s.msgSize);
    var got := Copied(slot, size);
    if |got| <= |msg| { assert slot[..|msg|][..|got|] == slot[..|got|]; } else { assert got[..|msg|] == slot[..|msg|]; }
  }

  // ---- runs -----------------------------------------------------------------------------------

  datatype Op =
    | DoGrab(t: int, msg: seq<int>, urgent: bool) | DoFill(t: int) | DoLink(t: int)
    | DoTake(t: int) | DoGiveBack(t: int) | DoReset

  /** Order of the sections of one call; a call that finds no free node or no message does nothing. */
  predicate Enabled(s: State, op: Op) {
    match op
    case DoGrab(t, msg, _) => t !in s.held && 0 < |msg| <= s.msgSize
    case DoFill(t) => t in s.held && s.held[t].Sender? && !s.held[t].filled
    case DoLink(t) => t in s.held && s.held[t].Sender? && s.held[t].filled
    case DoTake(t) => t !in s.held && s.entry > 0
    case DoGiveBack(t) => t in s.held && s.held[t].Receiver?
    case DoReset => true
  }

  ghost function Step(s: State, op: Op): State
    requires Inv(s) && Enabled(s, op)
  {
    match op
    case DoGrab(t, msg, urgent) => Grab(s, t, msg, urgent)
    case DoFill(t) => FillKeeps(s, t); Fill(s, t)
    case DoLink(t) => if s.held[t].urgent then LinkFront(s, t) else LinkBack(s, t)
    case DoTake(t) => Take(s, t)
    case DoGiveBack(t) => GiveBack(s, t)
    case DoReset => Reset(s)
  }

  /** The deque the queue stands for. */
  function Deque(msgs: seq<seq<int>>, s: State, op: Op): seq<seq<int>>
    requires Enabled(s, op)
  {
    match op
    case DoLink(t) => if s.held[t].urgent then [s.held[t].msg] + msgs else msgs + [s.held[t].msg]
    case DoTake(t) => if msgs == [] then [] else msgs[1..]
    case DoReset => []
    case _ => msgs
  }

  lemma StepKeeps(s: State, op: Op)
    requires Inv(s) && Enabled(s, op)
    ensures Inv(Step(s, op)) && Step(s, op).msgs == Deque(s.msgs, s, op)
  {
    hide Inv; hide Fill; hide Grab; hide GiveBack; hide Take; hide LinkBack; hide LinkFront; hide Reset;
    match op
    case DoGrab(t, msg, urgent) => GrabKeeps(s, t, msg, urgent); GrabMsgs(s, t, msg, urgent);
    case DoFill(t) => FillKeeps(s, t); FillMsgs(s, t);
    case DoLink(t) => LinkKeeps(s, t);
    case DoTake(t) => TakeKeeps(s, t);
    case DoGiveBack(t) => GiveBackKeeps(s, t); GiveBackMsgs(s, t);
    case DoReset => ResetKeeps(s);
  }

  lemma GrabMsgs(s: State, t: int, msg: seq<int>, urgent: bool)
    ensures Grab(s, t, msg, urgent).msgs == s.msgs
  {}

  lemma FillMsgs(s: State, t: int)
    requires t in s.held && s.held[t].Sender? && s.held[t].node in s.data
    ensures Fill(s, t).msgs == s.msgs
  {}

  lemma GiveBackMsgs(s: State, t: int)
    requires t in s.held
    ensures GiveBack(s, t).msgs == s.msgs
  {}

  // ---- conservation -------------------------------------------------------------------------

  /** Nodes in the free list, in the queue and in the hands of threads. */
  ghost function Nodes(s: State): nat {
    |s.frees| + |s.queue| + |s.held.Keys|
  }

  lemma {:induction false} ReversedLength(q: seq<int>)
    ensures |Reversed(q)| == |q|
  {
    if q != [] { ReversedLength(q[1..]); }
  }

  lemma GrabNodes(s: State, t: int, msg: seq<int>, urgent: bool)
    requires t !in s.held
    ensures Nodes(Grab(s, t, msg, urgent)) == Nodes(s)
  {
    KeysGrow(s.held, t, Sender(s.free, urgent, msg, false));
  }

  lemma TakeNodes(s: State, t: int)
    requires t !in s.held
    ensures Nodes(Take(s, t)) == Nodes(s)
  {
    if s.msgs != [] { KeysGrow(s.held, t, Receiver(s.head, s.msgs[0])); }
  }

  lemma KeysGrow(held: map<int, Hold>, t: int, h: Hold)
    requires t !in held
    ensures |held[t := h].Keys| == |held.Keys| + 1
  {
    assert held[t := h].Keys == held.Keys + {t};
  }

  lemma FillNodes(s: State, t: int)
    requires t in s.held && s.held[t].Sender? && s.held[t].node in s.data
    ensures Nodes(Fill(s, t)) == Nodes(s)
  {
    assert Fill(s, t).held.Keys == s.held.Keys;
  }

  lemma ReleaseNodes(s: State, t: int)
    requires t in s.held
    ensures Nodes(GiveBack(s, t)) == Nodes(s)
    ensures s.held[t].Sender? ==> Nodes(LinkBack(s, t)) == Nodes(LinkFront(s, t)) == Nodes(s)
  {
    assert (s.held - {t}).Keys == s.held.Keys - {t};
  }

  lemma ResetNodes(s: State)
    requires Inv(s)
    ensures Nodes(Reset(s)) == Nodes(s)
  {
    ResetKeeps(s);
    ReversedLength(s.queue);
    hide Inv; hide Reset; hide Reversed;
    assert |Reset(s).msgs| == 0;
    InvLength(Reset(s));
  }

  lemma InvLength(s: State)
    requires Inv(s)
    ensures |s.msgs| == |s.queue|
  {}

  lemma StepNodes(s: State, op: Op)
    requires Inv(s) && Enabled(s, op)
    ensures Nodes(Step(s, op)) == Nodes(s)
  {
    hide Inv; hide Fill; hide Grab; hide GiveBack; hide Take; hide LinkBack; hide LinkFront; hide Reset; hide Nodes;
    match op
    case DoGrab(t, msg, urgent) => GrabNodes(s, t, msg, urgent);
    case DoFill(t) => FillKeeps(s, t); FillNodes(s, t);
    case DoLink(t) => ReleaseNodes(s, t);
    case DoTake(t) => TakeNodes(s, t);
    case DoGiveBack(t) => ReleaseNodes(s, t);
    case DoReset => ResetNodes(s);
  }

  /** `ops` can happen one after the other from `s`. */
  ghost predicate Can(s: State, ops: seq<Op>)
    requires Inv(s)
    decreases |ops|
  {
    ops == [] || (Enabled(s, ops[0]) && (StepKeeps(s, ops[0]); Can(Step(s, ops[0]), ops[1..])))
  }

  ghost function Run(s: State, ops: seq<Op>): State
    requires Inv(s) && Can(s, ops)
    decreases |ops|
  {
    if ops == [] then s else StepKeeps(s, ops[0]); Run(Step(s, ops[0]), ops[1..])
  }

  // ---- the queue as its callers see it ----------------------------------------------------------

  /** A call that is under way: with what it was called, or what it takes out. */
  datatype Call = Sending(msg: seq<int>, urgent: bool) | Receiving(msg: seq<int>)

  /** A deque of messages with room for `size` messages in the deque and in calls under way. */
  datatype Calls = Calls(size: nat, msgs: seq<seq<int>>, busy: map<int, Call>)

  /** What an operation does to it. */
  ghost function Move(q: Calls, op: Op): Calls {
    match op
    case DoGrab(t, msg, urgent) =>
      if |q.msgs| + |q.busy.Keys| < q.size then q.(busy := q.busy[t := Sending(msg, urgent)]) else q
    case DoFill(_) => q
    case DoLink(t) =>
      if t !in q.busy || !q.busy[t].Sending? then q
      else q.(msgs := if q.busy[t].urgent then [q.busy[t].msg] + q.msgs else q.msgs + [q.busy[t].msg], busy := q.busy - {t})
    case DoTake(t) => if q.msgs == [] then q else q.(msgs := q.msgs[1..], busy := q.busy[t := Receiving(q.msgs[0])])
    case DoGiveBack(t) => q.(busy := q.busy - {t})
    case DoReset => q.(msgs := [])
  }

  ghost function Moves(q: Calls, ops: seq<Op>): Calls
    decreases |ops|
  {
    if ops == [] then q else Moves(Move(q, ops[0]), ops[1..])
  }

  ghost function CallOf(h: Hold): Call {
    match h
    case Sender(_, urgent, msg, _) => Sending(msg, urgent)
    case Receiver(_, msg) => Receiving(msg)
  }

  ghost predicate Seen(s: State, q: Calls) {
    && Nodes(s) == q.size && s.msgs == q.msgs && s.held.Keys == q.busy.Keys
    && forall t :: t in s.held ==> CallOf(s.held[t]) == q.busy[t]
  }

  lemma GrabSeen(s: State, t: int, msg: seq<int>, urgent: bool, q: Calls)
    requires Inv(s) && Seen(s, q) && t !in s.held
    ensures var r, q' := Grab(s, t, msg, urgent), Move(q, DoGrab(t, msg, urgent));
      r.msgs == q'.msgs && r.held.Keys == q'.busy.Keys && (forall x :: x in r.held ==> CallOf(r.held[x]) == q'.busy[x]) && q'.size == q.size
  {
    InvLength(s);
    FreeEnds(s);
    hide Inv;
  }

  lemma FillSeen(s: State, t: int, q: Calls)
    requires t in s.held && s.held[t].Sender? && s.held[t].node in s.data && Seen(s, q)
    ensures var r := Fill(s, t);
      r.msgs == q.msgs && r.held.Keys == q.busy.Keys && forall x :: x in r.held ==> CallOf(r.held[x]) == q.busy[x]
  {}

  lemma LinkSeen(s: State, t: int, q: Calls)
    requires t in s.held && s.held[t].Sender? && Seen(s, q)
    ensures var r, q' := if s.held[t].urgent then LinkFront(s, t) else LinkBack(s, t), Move(q, DoLink(t));
      r.msgs == q'.msgs && r.held.Keys == q'.busy.Keys && (forall x :: x in r.held ==> CallOf(r.held[x]) == q'.busy[x]) && q'.size == q.size
  {}

  lemma TakeSeen(s: State, t: int, q: Calls)
    requires Inv(s) && s.entry > 0 && t !in s.held && Seen(s, q)
    ensures var r, q' := Take(s, t), Move(q, DoTake(t));
      r.msgs == q'.msgs && r.held.Keys == q'.busy.Keys && (forall x :: x in r.held ==> CallOf(r.held[x]) == q'.busy[x]) && q'.size == q.size
  {
    HeadEnds(s);
    TakeFields(s, t);
    hide Inv; hide Take;
  }

  lemma StepSeen(s: State, op: Op, q: Calls)
    requires Inv(s) && Enabled(s, op) && Seen(s, q)
    ensures Seen(Step(s, op), Move(q, op))
  {
    hide Inv; hide Fill; hide Grab; hide Take; hide LinkBack; hide LinkFront; hide Reset; hide Nodes;
    StepNodes(s, op);
    match op {
      case DoGrab(t, msg, urgent) => GrabSeen(s, t, msg, urgent, q);
      case DoFill(t) => FillKeeps(s, t); FillSeen(s, t, q);
      case DoLink(t) => LinkSeen(s, t, q);
      case DoTake(t) => TakeSeen(s, t, q);
      case DoGiveBack(t) =>
      case DoReset => ResetKeeps(s);
    }
  }

  /** In every interleaving the nodes stay partitioned, none is lost, entry is the length of the
      queue, head is null iff tail is, and messages and calls under way are those of that deque: every
      message is linked as its sender gave it, urgent ones in front, and taken out first to last. */
  lemma {:induction false} RunKeeps(s: State, ops: seq<Op>, q: Calls)
    requires Inv(s) && Can(s, ops) && Seen(s, q)
    ensures var r := Run(s, ops);
      && Inv(r) && Nodes(r) == Nodes(s) && r.entry == |r.queue| <= Nodes(s)
      && (r.head == NULL <==> r.tail == NULL)
      && Seen(r, Moves(q, ops))
    decreases |ops|
  {
    if ops != [] {
      hide Inv; hide Step; hide Enabled; hide Move; hide Nodes; hide Seen;
      StepKeeps(s, ops[0]);
      StepNodes(s, ops[0]);
      StepSeen(s, ops[0], q);
      RunKeeps(Step(s, ops[0]), ops[1..], Move(q, ops[0]));
    } else {
      TailKnown(s);
    }
  }

  // ---- the object -----------------------------------------------------------------------------

  lemma EmptyInv(s: State)
    requires s.next == map[] && s.data == map[] && s.head == s.tail == s.free == NULL && s.entry == 0
    requires s.held == map[] && s.queue == [] && s.frees == [] && s.msgs == [] && s.place == map[]
    ensures Inv(s) && Nodes(s) == 0
  {}

  ghost function WithNode(s: State, n: int, blank: seq<int>): State {
    s.(next := s.next[n := s.free], data := s.data[n := blank], free := n, frees := [n] + s.frees,
       place := s.place[n := Free])
  }

  lemma AddPointers(s: State, n: int, blank: seq<int>)
    requires Places(s) && Pointers(s) && n !in s.place && n != NULL && s.held == map[]
    ensures Pointers(WithNode(s, n, blank)) && Distinct([n] + s.frees)
  {
    var next := s.next[n := s.free];
    LinkedFrame(s.next, next, s.head, s.queue);
    LinkedFrame(s.next, next, s.free, s.frees);
    assert ([n] + s.frees)[1..] == s.frees;
    assert Linked(next, n, [n] + s.frees);
  }

  lemma AddNode(s: State, n: int, blank: seq<int>)
    requires Inv(s) && n !in s.place && n != NULL && |blank| == s.msgSize && s.held == map[]
    ensures Inv(WithNode(s, n, blank)) && Nodes(WithNode(s, n, blank)) == Nodes(s) + 1
  {
    hide Pointers; hide Distinct; hide Holds;
    AddPointers(s, n, blank);
    AddPlaces(s, n, blank);
    hide Places;
  }

  lemma AddPlaces(s: State, n: int, blank: seq<int>)
    requires Places(s) && n !in s.place && n != NULL && Distinct([n] + s.frees)
    ensures Places(WithNode(s, n, blank))
  {
    hide Distinct;
  }

  lemma FreeEnds(s: State)
    requires Inv(s)
    ensures s.free == NULL <==> s.frees == []
    ensures s.free != NULL ==> s.free in s.next && s.free in s.data
  {
    FirstLinked(s.next, s.free, s.frees);
  }

  lemma HeadEnds(s: State)
    requires Inv(s) && s.entry > 0
    ensures s.head in s.next && s.head in s.data && s.queue != [] && s.msgs != []
  {
    FirstLinked(s.next, s.head, s.queue);
  }

  /** The fields of the queue object after each section. */
  lemma LinkBackFields(s: State, t: int)
    requires t in s.held && s.held[t].Sender?
    ensures var n, r := s.held[t].node, LinkBack(s, t);
      r == State(if s.tail != NULL then s.next[s.tail := n] else s.next, s.data, if s.head == NULL then n else s.head, n,
                 s.free, s.entry + 1, s.msgSize, r.held, r.queue, s.frees, r.msgs, r.place)
  {}

  lemma LinkFrontFields(s: State, t: int)
    requires t in s.held && s.held[t].Sender?
    ensures var n, r := s.held[t].node, LinkFront(s, t);
      r == State(s.next[n := s.head], s.data, n, if s.tail == NULL then n else s.tail,
                 s.free, s.entry + 1, s.msgSize, r.held, r.queue, s.frees, r.msgs, r.place)
  {}

  lemma TakeFields(s: State, t: int)
    requires s.head in s.next && s.queue != [] && s.msgs != [] && s.entry > 0
    ensures var r := Take(s, t);
      && r == State(s.next, s.data, s.next[s.head], if s.tail == s.head then NULL else s.tail,
                    s.free, s.entry - 1, s.msgSize, r.held, r.queue, s.frees, r.msgs, r.place)
      && t in r.held && r.held[t] == Receiver(s.head, s.msgs[0])
  {}

  lemma DiscardFields(s: State)
    requires s.head in s.next && s.queue != [] && s.msgs != []
    ensures var r := Discard(s);
      && r == State(s.next[s.head := s.free], s.data, s.next[s.head], if s.tail == s.head then NULL else s.tail,
                    s.head, s.entry, s.msgSize, s.held, r.queue, r.frees, r.msgs, r.place)
      && r.queue == s.queue[1..]
  {}

  class Queue {
    var next: map<int, int>
    var data: map<int, seq<int>>
    var head: int
    var tail: int
    var free: int
    var entry: nat
    const msgSize: nat

    ghost var held: map<int, Hold>       // the nodes in the local variables of calls in progress
    ghost var queue: seq<int>
    ghost var frees: seq<int>
    ghost var msgs: seq<seq<int>>
    ghost var place: map<int, Place>

    ghost function Abs(): State
      reads this
    {
      State(next, data, head, tail, free, entry, msgSize, held, queue, frees, msgs, place)
    }

    /** rt_mq_init: all nodes go on the free list. */
    constructor (maxMsgs: nat, msgSize: nat, blank: seq<int>)
      requires |blank| == msgSize
      ensures Inv(Abs()) && Nodes(Abs()) == maxMsgs && msgs == [] && held == map[] && this.msgSize == msgSize
    {
      this.msgSize := msgSize;
      next, data, head, tail, free, entry := map[], map[], NULL, NULL, NULL, 0;
      held := map[];
      queue, frees, msgs, place := [], [], [], map[];
      new;
      hide Inv; hide Nodes;
      EmptyInv(Abs());
      var n := 0;
      while n < maxMsgs
        invariant 0 <= n <= maxMsgs && Inv(Abs()) && Nodes(Abs()) == n
        invariant msgs == [] && held == map[] && forall k :: k in place ==> k < n
      {
        AddNode(Abs(), n, blank);
        AddFree(n, blank);
        n := n + 1;
      }
    }

    /** One round of the loop of rt_mq_init. */
    method AddFree(n: int, blank: seq<int>)
      modifies this
      ensures Abs() == WithNode(old(Abs()), n, blank)
    {
      next := next[n := free];
      data := data[n := blank];
      free := n;
      frees := [n] + frees;
      place := place[n := Free];
    }

    /** The first section of rt_mq_send and rt_mq_urgent. */
    method GrabIt(t: int, msg: seq<int>, urgent: bool) returns (n: int)
      requires Inv(Abs()) && t !in held && 0 < |msg| <= msgSize
      modifies this
      ensures Inv(Abs()) && Abs() == Grab(old(Abs()), t, msg, urgent)
      ensures n == NULL <==> old(frees) == []
      ensures n != NULL ==> t in held && held[t] == Sender(n, urgent, msg, false) && n in data
    {
      hide Inv;
      GrabKeeps(Abs(), t, msg, urgent);
      FreeEnds(Abs());
      n := free;
      if n == NULL { return; }
      free := next[n];
      frees := frees[1..];
      held := held[t := Sender(n, urgent, msg, false)];
      place := place[n := Held(t)];
    }

    /** The work on the node between the sections. */
    method FillIt(ghost t: int, n: int, msg: seq<int>, urgent: bool)
      requires Inv(Abs()) && t in held && held[t] == Sender(n, urgent, msg, false) && n in data
      modifies this
      ensures Inv(Abs()) && Abs() == Fill(old(Abs()), t)
    {
      hide Inv;
      FillKeeps(Abs(), t);
      if !urgent { next := next[n := NULL]; }
      data := data[n := Filled(data[n], msg)];
      held := held[t := Sender(n, urgent, msg, true)];
    }

    /** The second section of rt_mq_send. */
    method LinkBackIt(ghost t: int, n: int, ghost msg: seq<int>)
      requires Inv(Abs()) && t in held && held[t] == Sender(n, false, msg, true)
      modifies this
      ensures Inv(Abs()) && Abs() == LinkBack(old(Abs()), t) && msgs == old(msgs) + [msg]
    {
      hide Inv; hide LinkBack; hide LinkFront;
      ghost var r := LinkBack(Abs(), t);
      LinkKeeps(Abs(), t);
      LinkBackFields(Abs(), t);
      if tail != NULL { next := next[tail := n]; }
      tail := n;
      if head == NULL { head := n; }
      entry := entry + 1;
      queue, msgs, held, place := r.queue, r.msgs, r.held, r.place;
    }

    /** The second section of rt_mq_urgent. */
    method LinkFrontIt(ghost t: int, n: int, ghost msg: seq<int>)
      requires Inv(Abs()) && t in held && held[t] == Sender(n, true, msg, true)
      modifies this
      ensures Inv(Abs()) && Abs() == LinkFront(old(Abs()), t) && msgs == [msg] + old(msgs)
    {
      hide Inv; hide LinkBack; hide LinkFront;
      ghost var r := LinkFront(Abs(), t);
      LinkKeeps(Abs(), t);
      LinkFrontFields(Abs(), t);
      next := next[n := head];
      head := n;
      if tail == NULL { tail := n; }
      entry := entry + 1;
      queue, msgs, held, place := r.queue, r.msgs, r.held, r.place;
    }

    /** The section of rt_mq_recv that takes a message. */
    method TakeIt(ghost t: int) returns (n: int)
      requires Inv(Abs()) && t !in held && entry > 0
      modifies this
      ensures Inv(Abs()) && Abs() == Take(old(Abs()), t)
      ensures old(msgs) != [] && t in held && held[t] == Receiver(n, old(msgs[0])) && n in data
    {
      hide Inv; hide Take;
      ghost var r := Take(Abs(), t);
      TakeKeeps(Abs(), t);
      HeadEnds(Abs());
      TakeFields(Abs(), t);
      n := head;
      head := next[n];
      if tail == n { tail := NULL; }
      entry := entry - 1;
      queue, msgs, held, place := r.queue, r.msgs, r.held, r.place;
    }

    /** The rest of rt_mq_recv: the copy, and the node back on the free list. */
    method GiveBackIt(ghost t: int, n: int, ghost msg: seq<int>, size: nat) returns (buffer: seq<int>)
      requires Inv(Abs()) && t in held && held[t] == Receiver(n, msg) && n in data
      modifies this
      ensures Inv(Abs()) && Abs() == GiveBack(old(Abs()), t)
      ensures |msg| <= |buffer| ==> buffer[..|msg|] == msg
      ensures |buffer| <= |msg| ==> buffer == msg[..|buffer|]
      ensures |buffer| == if size > msgSize then msgSize else size
    {
      hide Inv; hide Copied;
      GiveBackKeeps(Abs(), t);
      DeliveredMessage(Abs(), t, size);
      buffer := Copied(data[n], size);
      next := next[n := free];
      free := n;
      frees := [n] + frees;
      held := held - {t};
      place := place[n := Free];
    }

    /** One round of the loop of the reset. */
    method DiscardIt()
      requires head in next && queue != [] && msgs != []
      modifies this
      ensures Abs() == Discard(old(Abs())) && queue == old(queue)[1..]
    {
      hide Discard;
      ghost var r := Discard(Abs());
      DiscardFields(Abs());
      var n := head;
      head := next[n];
      if tail == n { tail := NULL; }
      next := next[n := free];
      free := n;
      queue, msgs, frees, place := r.queue, r.msgs, r.frees, r.place;
    }

    /** rt_mq_control with RT_IPC_CMD_RESET. */
    method ResetIt()
      requires Inv(Abs())
      modifies this
      ensures Inv(Abs()) && Abs() == Reset(old(Abs()))
    {
      hide Inv; hide Shape; hide DiscardAll; hide Discard;
      ResetKeeps(Abs());
      InvShape(Abs());
      while head != NULL
        invariant Shape(Abs()) && DiscardAll(Abs()) == old(DiscardAll(Abs()))
        decreases |queue|
      {
        ShapeEnds(Abs());
        DiscardShape(Abs());
        DiscardAllStep(Abs());
        DiscardIt();
      }
      ShapeEnds(Abs());
      DiscardAllDone(Abs());
      entry := 0;
    }
  }

  lemma InvShape(s: State)
    requires Inv(s)
    ensures Shape(s)
  {}

  lemma DiscardAllStep(s: State)
    requires s.head != NULL && s.head in s.next && s.queue != [] && s.msgs != []
    ensures DiscardAll(s) == DiscardAll(Discard(s))
  {}

  lemma DiscardAllDone(s: State)
    requires s.queue == []
    ensures DiscardAll(s) == s
  {}
}
