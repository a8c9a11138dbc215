/** Steps of the message thread and of the poll thread keep the invariant and
    never fault. */
module LocTimerThreads {
  import opened Wrappers
  import opened HeapSpec
  import opened LocTimer
  import opened LocTimerInvariant
  import opened LocTimerClients

  // ----- poll thread -----

  lemma ExpireQueue(queue: seq<Msg>, delegates: Delegates, beingRemoved: Option<nat>, wake: bool)
    requires QueueSound(queue, delegates) && Awaited(queue, delegates, beingRemoved)
    ensures QueueSound(queue + [MsgTimerExpire(wake)], delegates)
    ensures Awaited(queue + [MsgTimerExpire(wake)], delegates, beingRemoved)
  {}

  lemma ExpireHeap(heap: Tree, wake: bool, queue: seq<Msg>, delegates: Delegates, w: bool)
    requires HeapSound(heap, wake, queue, delegates)
    ensures HeapSound(heap, wake, queue + [MsgTimerExpire(w)], delegates)
  {}

  /** The kernel calls of expire() touch only a container whose expire is on its way. */
  lemma ExpireKernel(wake: bool, box: Container, box': Container, todo: seq<bool>, queue: seq<Msg>, m: MsgThread)
    requires NothingLost(wake, box, todo, queue, m) && box'.heap == box.heap && wake in todo
    ensures NothingLost(wake, box', todo, queue, m)
  {}

  /** The expire moves from the poll thread into the queue. */
  lemma ExpireSent(wake: bool, box: Container, todo: seq<bool>, queue: seq<Msg>, m: MsgThread)
    requires NothingLost(wake, box, todo, queue, m) && todo != []
    ensures NothingLost(wake, box, todo[1..], queue + [MsgTimerExpire(todo[0])], m)
  {
    assert todo == [todo[0]] + todo[1..];
  }

  lemma PollWakeInv(s: State, ready: seq<bool>)
    requires Inv(s) && s.poll.todo == []
    ensures Inv(s.(poll := PollThread(ready, 0)))
  {}

  lemma PolledInv(s: State, wake: bool, box: Container, stage: nat)
    requires Inv(s) && box.heap == s.containers.Get(wake).heap && NothingLost(wake, box, s.poll.todo, s.queue, s.msg)
    ensures Inv(s.(containers := s.containers.Set(wake, box), poll := s.poll.(stage := stage)))
  {}

  lemma PollKernelInv(s: State)
    requires Inv(s) && s.poll.todo != [] && s.poll.stage < 2
    ensures Inv(ExpireStep(s))
  {
    var wake := s.poll.todo[0];
    var (box, box') := (s.containers.Get(wake), ExpireStep(s).containers.Get(wake));
    ExpireKernel(wake, box, box', s.poll.todo, s.queue, s.msg);
    PolledInv(s, wake, box', s.poll.stage + 1);
    assert ExpireStep(s) == s.(containers := s.containers.Set(wake, box'), poll := s.poll.(stage := s.poll.stage + 1));
  }

  lemma PollSendParts(s: State, wake: bool)
    requires Inv(s) && s.poll.todo != [] && wake == s.poll.todo[0]
    ensures var (queue, todo) := (s.queue + [MsgTimerExpire(wake)], s.poll.todo[1..]);
            && QueueSound(queue, s.delegates) && Awaited(queue, s.delegates, BeingRemoved(s.msg))
            && HeapSound(s.containers.sw.heap, false, queue, s.delegates)
            && HeapSound(s.containers.hw.heap, true, queue, s.delegates)
            && HeldLoose(Held(s.msg), queue, s.delegates, s.containers.sw.heap, s.containers.hw.heap)
            && NothingLost(false, s.containers.sw, todo, queue, s.msg)
            && NothingLost(true, s.containers.hw, todo, queue, s.msg)
  {
    ExpireQueue(s.queue, s.delegates, BeingRemoved(s.msg), wake);
    ExpireHeap(s.containers.sw.heap, false, s.queue, s.delegates, wake);
    ExpireHeap(s.containers.hw.heap, true, s.queue, s.delegates, wake);
    ExpireSent(false, s.containers.sw, s.poll.todo, s.queue, s.msg);
    ExpireSent(true, s.containers.hw, s.poll.todo, s.queue, s.msg);
  }

  lemma PollSendInv(s: State)
    requires Inv(s) && s.poll.todo != [] && s.poll.stage >= 2
    ensures Inv(ExpireStep(s))
  {
    var wake := s.poll.todo[0];
    PollSendParts(s, wake);
    assert ExpireStep(s) == s.(queue := s.queue + [MsgTimerExpire(wake)], poll := PollThread(s.poll.todo[1..], 0));
  }

  lemma PollStepInv(s: State)
    requires Inv(s) && s.poll.todo != []
    ensures Inv(ExpireStep(s))
  {
    if s.poll.stage < 2 { PollKernelInv(s); } else { PollSendInv(s); }
  }

  // ----- receiving a message -----

  /** Taking the first message off the queue. */
  lemma DequeueQueue(queue: seq<Msg>, delegates: Delegates)
    requires QueueSound(queue, delegates) && queue != []
    ensures QueueSound(queue[1..], delegates)
    ensures !queue[0].MsgTimerExpire? ==> queue[0].timer in delegates && delegates[queue[0].timer].wake == queue[0].wake
    ensures !queue[0].MsgTimerExpire? ==> queue[0] !in queue[1..]
    ensures queue[0].MsgTimerRemove? ==> MsgTimerPush(queue[0].wake, queue[0].timer) !in queue[1..]
  {
    var rest := queue[1..];
    forall i | 0 <= i < |rest| ensures rest[i] == queue[i + 1] {}
  }

  lemma DequeueAwaited(queue: seq<Msg>, delegates: Delegates)
    requires QueueSound(queue, delegates) && Awaited(queue, delegates, None) && queue != []
    ensures Awaited(queue[1..], delegates, if queue[0].MsgTimerRemove? then Some(queue[0].timer) else None)
  {
    DequeueQueue(queue, delegates);
    assert queue == [queue[0]] + queue[1..];
  }

  lemma DequeueHeap(heap: Tree, wake: bool, queue: seq<Msg>, delegates: Delegates)
    requires HeapSound(heap, wake, queue, delegates) && queue != []
    ensures HeapSound(heap, wake, queue[1..], delegates)
  {}

  lemma PushHeap(heap: Tree, wake: bool, queue: seq<Msg>, delegates: Delegates, d: nat)
    requires HeapSound(heap, wake, queue, delegates) && QueueSound(queue, delegates)
    requires queue != [] && queue[0] == MsgTimerPush(wake, d) && d in delegates
    ensures HeapSound(Push(heap, LocRankable(d, delegates[d].mFutureTime)), wake, queue[1..], delegates)
  {
    var x := LocRankable(d, delegates[d].mFutureTime);
    DequeueQueue(queue, delegates);
    PushAddsOne(heap, x);
    PushKeepsHeap(heap, x);
    assert x !in Elems(heap);
  }

  lemma RemoveHeap(heap: Tree, wake: bool, queue: seq<Msg>, delegates: Delegates, d: nat)
    requires HeapSound(heap, wake, queue, delegates) && queue != [] && d in delegates
    ensures var x := LocRankable(d, delegates[d].mFutureTime);
            HeapSound(Remove(heap, x).0, wake, queue[1..], delegates) && x !in Elems(Remove(heap, x).0)
  {
    var x := LocRankable(d, delegates[d].mFutureTime);
    RemoveExact(heap, x);
    RemoveKeepsHeap(heap, x);
  }

  lemma PopHeap(heap: Tree, wake: bool, queue: seq<Msg>, delegates: Delegates)
    requires HeapSound(heap, wake, queue, delegates) && heap.Node?
    ensures HeapSound(Pop(heap), wake, queue, delegates)
    ensures heap.data.id in delegates && delegates[heap.data.id].wake == wake
    ensures LocRankable(heap.data.id, delegates[heap.data.id].mFutureTime) !in Elems(Pop(heap))
    ensures MsgTimerPush(wake, heap.data.id) !in queue
  {
    PopTakesTop(heap);
    PopKeepsHeap(heap);
    assert heap.data in Elems(heap);
  }

  /** Deadlines in a heap are positive, so writing one to the kernel arms it. */
  lemma TopIsPositive(heap: Tree, wake: bool, queue: seq<Msg>, clients: Clients, delegates: Delegates)
    requires HeapSound(heap, wake, queue, delegates) && Linked(clients, delegates) && heap.Node?
    ensures heap.data.key > 0
  {
    assert heap.data in Elems(heap);
  }

  // What the kernel still has to be told after each kind of change to a heap.

  lemma PushLosesNothing(box: Container, x: LocRankable, wake: bool, todo: seq<bool>, queue: seq<Msg>)
    requires NothingLost(wake, box, todo, queue, Idle) && queue != [] && !queue[0].MsgTimerExpire?
    ensures NothingLost(wake, Pushed(box, x), todo, queue[1..], AfterPush(box.heap, x, wake))
  {
    PushTop(box.heap, x);
    assert queue == [queue[0]] + queue[1..];
  }

  lemma RemoveLosesNothing(box: Container, x: LocRankable, wake: bool, todo: seq<bool>, queue: seq<Msg>)
    requires NothingLost(wake, box, todo, queue, Idle) && queue != [] && !queue[0].MsgTimerExpire?
    requires IsHeap(box.heap)
    ensures NothingLost(wake, Removed(box, x), todo, queue[1..], AfterRemove(box.heap, x, wake))
  {
    RemoveKeepsHeap(box.heap, x);
    if box.heap.Node? && box.heap.data != x { RemoveKeepsTop(box.heap, x); }
    assert queue == [queue[0]] + queue[1..];
  }

  lemma ReceiveElsewhere(wake: bool, box: Container, todo: seq<bool>, queue: seq<Msg>, m: MsgThread)
    requires NothingLost(wake, box, todo, queue, Idle) && queue != []
    requires queue[0] == MsgTimerExpire(wake) ==> m.PopNext? && m.wake == wake
    requires m.SetTime? ==> m.wake != wake
    ensures NothingLost(wake, box, todo, queue[1..], m)
  {
    assert queue == [queue[0]] + queue[1..];
  }

  // ----- a change to one container -----

  /** Everything the invariant says about one container. */
  ghost predicate BoxSound(wake: bool, box: Container, s: State, queue: seq<Msg>, m: MsgThread) {
    && HeapSound(box.heap, wake, queue, s.delegates)
    && NothingLost(wake, box, s.poll.todo, queue, m)
  }

  /** The two containers are the one named and the other one. */
  lemma BothBoxes(s: State, wake: bool)
    requires Inv(s)
    ensures BoxSound(wake, s.containers.Get(wake), s, s.queue, s.msg)
    ensures BoxSound(!wake, s.containers.Get(!wake), s, s.queue, s.msg)
  {}

  ghost predicate ThreadSound(s: State, queue: seq<Msg>, wake: bool, heap: Tree, m: MsgThread) {
    && Awaited(queue, s.delegates, BeingRemoved(m))
    && (Held(m).Some? ==> Loose(Held(m).value, queue, s.delegates, heap, heap) && s.delegates[Held(m).value].wake == wake)
    && ClientUsable(m, s.clients)
    && HistorySound(s.starts, s.delegates, m)
    && (m.AddPoll? || m.SetTime? ==> m.wake == wake)
    && TimeIsSoonest(m, heap, heap)
  }

  lemma SetContainerInv(s: State, queue: seq<Msg>, wake: bool, box: Container, m: MsgThread)
    requires Inv(s) && QueueSound(queue, s.delegates)
    requires BoxSound(wake, box, s, queue, m)
    requires BoxSound(!wake, s.containers.Get(!wake), s, queue, m)
    requires ThreadSound(s, queue, wake, box.heap, m)
    ensures Inv(SetContainer(s.(queue := queue), wake, box, m))
  {}

  // ----- a message is received -----

  /** The queue without its first message, and the container it does not concern. */
  lemma ReceiveRest(s: State, m: MsgThread)
    requires Inv(s) && s.msg.Idle? && s.queue != [] && !s.queue[0].MsgTimerExpire?
    requires m.SetTime? ==> m.wake == s.queue[0].wake
    ensures QueueSound(s.queue[1..], s.delegates)
    ensures Awaited(s.queue[1..], s.delegates, if s.queue[0].MsgTimerRemove? then Some(s.queue[0].timer) else None)
    ensures s.queue[0].timer in s.delegates && s.delegates[s.queue[0].timer].wake == s.queue[0].wake
    ensures var other := s.containers.Get(!s.queue[0].wake); BoxSound(!s.queue[0].wake, other, s, s.queue[1..], m)
  {
    var wake := s.queue[0].wake;
    BothBoxes(s, wake);
    DequeueQueue(s.queue, s.delegates);
    DequeueAwaited(s.queue, s.delegates);
    var other := s.containers.Get(!wake);
    DequeueHeap(other.heap, !wake, s.queue, s.delegates);
    ReceiveElsewhere(!wake, other, s.poll.todo, s.queue, m);
  }

  /** All a message can leave to do: tell the kernel the soonest time, delete. */
  ghost predicate Settling(m: MsgThread, wake: bool, heap: Tree) {
    m.Idle? || m.Delete? || (m.AddPoll? && m.wake == wake && TimeIsSoonest(m, heap, heap))
  }

  lemma ReceivedThread(s: State, queue: seq<Msg>, first: Msg, heap: Tree, m: MsgThread)
    requires !first.MsgTimerExpire? && first.timer in s.delegates && s.delegates[first.timer].wake == first.wake
    requires Awaited(queue, s.delegates, if first.MsgTimerRemove? then Some(first.timer) else None)
    requires BeingRemoved(m) == if first.MsgTimerRemove? then Some(first.timer) else None
    requires Settling(m, first.wake, heap)
    requires first.MsgTimerRemove? ==>
               Rankable(s, first.timer) !in Elems(heap) && MsgTimerPush(first.wake, first.timer) !in queue
    requires HistorySound(s.starts, s.delegates, Idle)
    ensures ThreadSound(s, queue, first.wake, heap, m)
  {
    assert Held(m) == BeingRemoved(m);
  }

  /** A push or remove message has been taken and has changed its own container. */
  lemma ReceivedInv(s: State, box: Container, m: MsgThread)
    requires Inv(s) && s.msg.Idle? && s.queue != [] && !s.queue[0].MsgTimerExpire?
    requires BoxSound(s.queue[0].wake, box, s, s.queue[1..], m)
    requires BeingRemoved(m) == if s.queue[0].MsgTimerRemove? then Some(s.queue[0].timer) else None
    requires Settling(m, s.queue[0].wake, box.heap)
    requires s.queue[0].timer in s.delegates
    requires s.queue[0].MsgTimerRemove? ==> Rankable(s, s.queue[0].timer) !in Elems(box.heap)
    ensures Inv(SetContainer(s.(queue := s.queue[1..]), s.queue[0].wake, box, m))
  {
    ReceiveRest(s, m);
    DequeueQueue(s.queue, s.delegates);
    ReceivedThread(s, s.queue[1..], s.queue[0], box.heap, m);
    SetContainerInv(s, s.queue[1..], s.queue[0].wake, box, m);
  }

  lemma ReceivableMessage(s: State)
    requires Inv(s) && s.msg.Idle? && s.queue != [] && !s.queue[0].MsgTimerExpire?
    ensures var wake := s.queue[0].wake;
            && s.queue[0].timer in s.delegates
            && HeapReadable(s.containers.Get(wake).heap, s.delegates)
            && BoxSound(wake, s.containers.Get(wake), s, s.queue, Idle)
            && QueueSound(s.queue, s.delegates) && Linked(s.clients, s.delegates)
  {
    DequeueQueue(s.queue, s.delegates);
    BothBoxes(s, s.queue[0].wake);
  }

  lemma PushBox(s: State, wake: bool, box: Container, x: LocRankable)
    requires BoxSound(wake, box, s, s.queue, Idle) && QueueSound(s.queue, s.delegates) && Linked(s.clients, s.delegates)
    requires s.queue != [] && s.queue[0] == MsgTimerPush(wake, x.id)
    requires x.id in s.delegates && x == Rankable(s, x.id)
    ensures BoxSound(wake, Pushed(box, x), s, s.queue[1..], AfterPush(box.heap, x, wake))
    ensures Settling(AfterPush(box.heap, x, wake), wake, Pushed(box, x).heap)
    ensures BeingRemoved(AfterPush(box.heap, x, wake)).None?
  {
    PushTop(box.heap, x);
    PushHeap(box.heap, wake, s.queue, s.delegates, x.id);
    TopIsPositive(Push(box.heap, x), wake, s.queue[1..], s.clients, s.delegates);
    PushLosesNothing(box, x, wake, s.poll.todo, s.queue);
  }

  lemma ReceivePushInv(s: State)
    requires Inv(s) && s.msg.Idle? && s.queue != [] && s.queue[0].MsgTimerPush?
    ensures KeepsInv(Process(s.(queue := s.queue[1..]), s.queue[0]))
  {
    ReceivableMessage(s);
    var box := s.containers.Get(s.queue[0].wake);
    var x := Rankable(s, s.queue[0].timer);
    PushBox(s, s.queue[0].wake, box, x);
    ReceivedInv(s, Pushed(box, x), AfterPush(box.heap, x, s.queue[0].wake));
    assert Process(s.(queue := s.queue[1..]), s.queue[0])
        == Ok(SetContainer(s.(queue := s.queue[1..]), s.queue[0].wake, Pushed(box, x), AfterPush(box.heap, x, s.queue[0].wake)));
  }

  lemma AfterRemoveSettles(heap: Tree, x: LocRankable, wake: bool)
    ensures var (rest, m) := (Remove(heap, x).0, AfterRemove(heap, x, wake));
            BeingRemoved(m) == Some(x.id) && ((rest.Node? ==> rest.data.key > 0) ==> Settling(m, wake, rest))
  {}

  lemma RemoveBox(s: State, wake: bool, box: Container, x: LocRankable)
    requires BoxSound(wake, box, s, s.queue, Idle) && QueueSound(s.queue, s.delegates) && Linked(s.clients, s.delegates)
    requires s.queue != [] && s.queue[0] == MsgTimerRemove(wake, x.id)
    requires x.id in s.delegates && x == Rankable(s, x.id)
    ensures BoxSound(wake, Removed(box, x), s, s.queue[1..], AfterRemove(box.heap, x, wake))
    ensures Settling(AfterRemove(box.heap, x, wake), wake, Removed(box, x).heap)
    ensures BeingRemoved(AfterRemove(box.heap, x, wake)) == Some(x.id)
    ensures x !in Elems(Removed(box, x).heap)
  {
    var rest := Removed(box, x).heap;
    AfterRemoveSettles(box.heap, x, wake);
    RemoveHeap(box.heap, wake, s.queue, s.delegates, x.id);
    if rest.Node? { TopIsPositive(rest, wake, s.queue[1..], s.clients, s.delegates); }
    RemoveLosesNothing(box, x, wake, s.poll.todo, s.queue);
  }

  lemma ReceiveRemoveInv(s: State)
    requires Inv(s) && s.msg.Idle? && s.queue != [] && s.queue[0].MsgTimerRemove?
    ensures KeepsInv(Process(s.(queue := s.queue[1..]), s.queue[0]))
  {
    ReceivableMessage(s);
    var box := s.containers.Get(s.queue[0].wake);
    var x := Rankable(s, s.queue[0].timer);
    RemoveBox(s, s.queue[0].wake, box, x);
    ReceivedInv(s, Removed(box, x), AfterRemove(box.heap, x, s.queue[0].wake));
    assert Process(s.(queue := s.queue[1..]), s.queue[0])
        == Ok(SetContainer(s.(queue := s.queue[1..]), s.queue[0].wake, Removed(box, x), AfterRemove(box.heap, x, s.queue[0].wake)));
  }

  lemma ExpireTaken(s: State)
    requires Inv(s) && s.msg.Idle? && s.queue != [] && s.queue[0].MsgTimerExpire?
    ensures var (queue, m) := (s.queue[1..], PopNext(s.queue[0].wake, s.now, true));
            && QueueSound(queue, s.delegates) && Awaited(queue, s.delegates, None)
            && BoxSound(false, s.containers.sw, s, queue, m) && BoxSound(true, s.containers.hw, s, queue, m)
  {
    var m := PopNext(s.queue[0].wake, s.now, true);
    DequeueQueue(s.queue, s.delegates);
    DequeueAwaited(s.queue, s.delegates);
    DequeueHeap(s.containers.sw.heap, false, s.queue, s.delegates);
    DequeueHeap(s.containers.hw.heap, true, s.queue, s.delegates);
    ReceiveElsewhere(false, s.containers.sw, s.poll.todo, s.queue, m);
    ReceiveElsewhere(true, s.containers.hw, s.poll.todo, s.queue, m);
  }

  lemma ExpireTakenInv(s: State)
    requires Inv(s) && s.msg.Idle? && s.queue != [] && s.queue[0].MsgTimerExpire?
    ensures Inv(s.(queue := s.queue[1..], msg := PopNext(s.queue[0].wake, s.now, true)))
  {
    ExpireTaken(s);
  }

  lemma ReceiveExpireInv(s: State)
    requires Inv(s) && s.msg.Idle? && s.queue != [] && s.queue[0].MsgTimerExpire?
    ensures KeepsInv(Process(s.(queue := s.queue[1..]), s.queue[0]))
  {
    ExpireTakenInv(s);
    assert Process(s.(queue := s.queue[1..]), s.queue[0])
        == Ok(s.(queue := s.queue[1..], msg := PopNext(s.queue[0].wake, s.now, true)));
  }

  lemma ReceiveInv(s: State)
    requires Inv(s) && s.msg.Idle? && s.queue != []
    ensures KeepsInv(Process(s.(queue := s.queue[1..]), s.queue[0]))
  {
    match s.queue[0]
    case MsgTimerPush(_, _) => ReceivePushInv(s);
    case MsgTimerRemove(_, _) => ReceiveRemoveInv(s);
    case MsgTimerExpire(_) => ReceiveExpireInv(s);
  }

  // ----- the message thread goes on -----

  /** Kernel calls: no heap changes, and the delegate held stays the same. */
  lemma KernelInv(s: State, wake: bool, box: Container, m: MsgThread)
    requires Inv(s) && box.heap == s.containers.Get(wake).heap
    requires Held(m) == Held(s.msg) && BeingRemoved(m) == BeingRemoved(s.msg)
    requires m.Idle? || m.Delete? || m.SetTime?
    requires TimeIsSoonest(m, s.containers.sw.heap, s.containers.hw.heap)
    requires NothingLost(wake, box, s.poll.todo, s.queue, m)
    requires NothingLost(!wake, s.containers.Get(!wake), s.poll.todo, s.queue, m)
    ensures Inv(SetContainer(s, wake, box, m))
  {}

  lemma AddPollKeepsTime(wake: bool, box: Container, other: Container, todo: seq<bool>, queue: seq<Msg>, m: MsgThread)
    requires m.AddPoll? && m.wake == wake
    requires NothingLost(wake, box, todo, queue, m) && NothingLost(!wake, other, todo, queue, m)
    ensures NothingLost(wake, box.(polled := true), todo, queue, SetTime(wake, m.time, m.del))
    ensures NothingLost(!wake, other, todo, queue, SetTime(wake, m.time, m.del))
    ensures Held(SetTime(wake, m.time, m.del)) == BeingRemoved(SetTime(wake, m.time, m.del)) == m.del
    ensures forall sw, hw :: TimeIsSoonest(m, sw, hw) ==> TimeIsSoonest(SetTime(wake, m.time, m.del), sw, hw)
  {}

  lemma AddPollInv(s: State)
    requires Inv(s) && s.msg.AddPoll?
    ensures KeepsInv(Continue(s))
  {
    var wake := s.msg.wake;
    BothBoxes(s, wake);
    AddPollKeepsTime(wake, s.containers.Get(wake), s.containers.Get(!wake), s.poll.todo, s.queue, s.msg);
    KernelInv(s, wake, s.containers.Get(wake).(polled := true), SetTime(wake, s.msg.time, s.msg.del));
    assert Continue(s) == Ok(SetContainer(s, wake, s.containers.Get(wake).(polled := true), SetTime(wake, s.msg.time, s.msg.del)));
  }

  /** The write makes the kernel ready for the soonest timer, unless an expire is on its way. */
  lemma SetTimeKeepsTime(wake: bool, box: Container, other: Container, todo: seq<bool>, queue: seq<Msg>, m: MsgThread)
    requires m.SetTime? && m.wake == wake && box.heap.Node? && box.heap.data.key == m.time > 0
    requires NothingLost(wake, box, todo, queue, m) && NothingLost(!wake, other, todo, queue, m)
    ensures NothingLost(wake, box.(armed := Armed(m.time)), todo, queue, Finish(m.del))
    ensures NothingLost(!wake, other, todo, queue, Finish(m.del))
    ensures Held(Finish(m.del)) == BeingRemoved(Finish(m.del)) == m.del
    ensures forall sw, hw :: TimeIsSoonest(Finish(m.del), sw, hw)
  {}

  lemma SetTimeInv(s: State)
    requires Inv(s) && s.msg.SetTime?
    ensures KeepsInv(Continue(s))
  {
    var wake := s.msg.wake;
    BothBoxes(s, wake);
    SetTimeKeepsTime(wake, s.containers.Get(wake), s.containers.Get(!wake), s.poll.todo, s.queue, s.msg);
    KernelInv(s, wake, s.containers.Get(wake).(armed := Armed(s.msg.time)), Finish(s.msg.del));
    assert Continue(s) == Ok(SetContainer(s, wake, s.containers.Get(wake).(armed := Armed(s.msg.time)), Finish(s.msg.del)));
  }

  // The delegate goes, now that nothing refers to it.

  lemma DeleteQueue(queue: seq<Msg>, delegates: Delegates, d: nat)
    requires QueueSound(queue, delegates) && Awaited(queue, delegates, Some(d))
    requires MsgTimerPush(delegates[d].wake, d) !in queue
    ensures QueueSound(queue, delegates - {d}) && Awaited(queue, delegates - {d}, None)
  {}

  lemma DeleteHeap(heap: Tree, wake: bool, queue: seq<Msg>, delegates: Delegates, d: nat)
    requires HeapSound(heap, wake, queue, delegates) && d in delegates
    requires delegates[d].wake == wake ==> LocRankable(d, delegates[d].mFutureTime) !in Elems(heap)
    ensures HeapSound(heap, wake, queue, delegates - {d})
  {}

  lemma DeleteHistory(starts: seq<StartRecord>, delegates: Delegates, d: nat, m: MsgThread)
    requires HistorySound(starts, delegates, m) && d in delegates && delegates[d].mClient.None?
    ensures HistorySound(starts, delegates - {d}, m)
  {
    forall i | 0 <= i < |starts| ensures Running(delegates, i) <==> Running(delegates - {d}, i) {
      if Running(delegates, i) {
        var e :| e in delegates && delegates[e].serial == i && delegates[e].mClient.Some?;
        assert e in delegates - {d} && (delegates - {d})[e] == delegates[e];
      }
    }
  }

  lemma DeleteLinked(clients: Clients, delegates: Delegates, d: nat)
    requires Linked(clients, delegates) && d in delegates && delegates[d].mClient.None?
    ensures Linked(clients, delegates - {d})
  {}

  lemma DeleteParts(s: State, d: nat)
    requires Inv(s) && s.msg == Delete(d)
    ensures d in s.delegates && Linked(s.clients, s.delegates - {d})
    ensures Counted(s.clients, s.delegates - {d}, Dropped(s.locks, s.delegates[d].mLock))
    ensures QueueSound(s.queue, s.delegates - {d}) && Awaited(s.queue, s.delegates - {d}, None)
    ensures HeapSound(s.containers.sw.heap, false, s.queue, s.delegates - {d})
    ensures HeapSound(s.containers.hw.heap, true, s.queue, s.delegates - {d})
    ensures HistorySound(s.starts, s.delegates - {d}, Idle)
    ensures NothingLost(false, s.containers.sw, s.poll.todo, s.queue, Idle)
    ensures NothingLost(true, s.containers.hw, s.poll.todo, s.queue, Idle)
  {
    DeleteLinked(s.clients, s.delegates, d);
    DelegateGone(s.clients, s.delegates, s.locks, d);
    DropCounted(s.clients, s.delegates - {d}, s.locks, s.delegates[d].mLock);
    DeleteQueue(s.queue, s.delegates, d);
    DeleteHeap(s.containers.sw.heap, false, s.queue, s.delegates, d);
    DeleteHeap(s.containers.hw.heap, true, s.queue, s.delegates, d);
    DeleteHistory(s.starts, s.delegates, d, Idle);
  }

  /** With the message thread idle the invariant is what is left of its parts. */
  lemma IdleInv(s: State)
    requires s.now > 0 && s.msg == Idle
    requires Linked(s.clients, s.delegates) && Counted(s.clients, s.delegates, s.locks)
    requires QueueSound(s.queue, s.delegates) && Awaited(s.queue, s.delegates, None)
    requires HeapSound(s.containers.sw.heap, false, s.queue, s.delegates)
    requires HeapSound(s.containers.hw.heap, true, s.queue, s.delegates)
    requires NothingLost(false, s.containers.sw, s.poll.todo, s.queue, Idle)
    requires NothingLost(true, s.containers.hw, s.poll.todo, s.queue, Idle)
    requires HistorySound(s.starts, s.delegates, Idle)
    ensures Inv(s)
  {}

  lemma DeletedInv(s: State, d: nat)
    requires Inv(s) && s.msg == Delete(d)
    ensures d in s.delegates && s.delegates[d].mLock in s.locks
    ensures Inv(WithoutDelegate(s, d).(locks := Dropped(s.locks, s.delegates[d].mLock)))
  {
    DeleteParts(s, d);
    IdleInv(WithoutDelegate(s, d).(locks := Dropped(s.locks, s.delegates[d].mLock)));
  }

  lemma DeleteInv(s: State)
    requires Inv(s) && s.msg.Delete?
    ensures KeepsInv(Continue(s))
  {
    var d := s.msg.timer;
    DeletedInv(s, d);
    assert Continue(s) == Ok(WithoutDelegate(s, d).(locks := Dropped(s.locks, s.delegates[d].mLock)));
  }

  // The loop over expired timers.

  predicate InLoop(m: MsgThread) { m.PopNext? || m.Popped? || m.Stopping? || m.CallingBack? }

  /** While the loop goes on for one container, nothing changes for the other. */
  lemma LoopElsewhere(wake: bool, other: Container, todo: seq<bool>, queue: seq<Msg>, m: MsgThread, m': MsgThread)
    requires NothingLost(!wake, other, todo, queue, m) && InLoop(m) && m.wake == wake
    requires InLoop(m') || m'.Idle? || (m'.AddPoll? && m'.wake == wake)
    ensures NothingLost(!wake, other, todo, queue, m')
  {}

  lemma PopBox(s: State, wake: bool, box: Container, timerOfNow: int)
    requires HeapSound(box.heap, wake, s.queue, s.delegates) && box.heap.Node?
    requires Awaited(s.queue, s.delegates, None) && HistorySound(s.starts, s.delegates, s.msg)
    ensures var (box', m) := (box.(heap := Pop(box.heap)), Popped(wake, timerOfNow, box.heap.data.id));
            BoxSound(wake, box', s, s.queue, m) && ThreadSound(s, s.queue, wake, box'.heap, m)
  {
    PopHeap(box.heap, wake, s.queue, s.delegates);
  }

  lemma PopInv(s: State, box: Container, m: MsgThread)
    requires Inv(s) && s.msg.PopNext? && box == s.containers.Get(s.msg.wake) && box.heap.Node?
    requires m == Popped(s.msg.wake, s.msg.timerOfNow, box.heap.data.id)
    ensures Inv(SetContainer(s, s.msg.wake, box.(heap := Pop(box.heap)), m))
  {
    var wake := s.msg.wake;
    BothBoxes(s, wake);
    PopBox(s, wake, box, s.msg.timerOfNow);
    LoopElsewhere(wake, s.containers.Get(!wake), s.poll.todo, s.queue, s.msg, m);
    SetContainerInv(s, s.queue, wake, box.(heap := Pop(box.heap)), m);
  }

  lemma PopDoneBox(s: State, wake: bool, box: Container)
    requires HeapSound(box.heap, wake, s.queue, s.delegates) && Linked(s.clients, s.delegates)
    requires Awaited(s.queue, s.delegates, None) && HistorySound(s.starts, s.delegates, s.msg)
    ensures var m := UpdateSoonestTime(box.heap, None, wake, None);
            BoxSound(wake, box, s, s.queue, m) && ThreadSound(s, s.queue, wake, box.heap, m)
            && (m.Idle? || (m.AddPoll? && m.wake == wake))
  {
    if box.heap.Node? { TopIsPositive(box.heap, wake, s.queue, s.clients, s.delegates); }
  }

  lemma PopDoneInv(s: State)
    requires Inv(s) && s.msg.PopNext?
    ensures var box := s.containers.Get(s.msg.wake);
            Inv(SetContainer(s, s.msg.wake, box, UpdateSoonestTime(box.heap, None, s.msg.wake, None)))
  {
    var wake := s.msg.wake;
    var box := s.containers.Get(wake);
    var m := UpdateSoonestTime(box.heap, None, wake, None);
    BothBoxes(s, wake);
    PopDoneBox(s, wake, box);
    LoopElsewhere(wake, s.containers.Get(!wake), s.poll.todo, s.queue, s.msg, m);
    SetContainerInv(s, s.queue, wake, box, m);
  }

  lemma PopNextInv(s: State)
    requires Inv(s) && s.msg.PopNext?
    ensures KeepsInv(Continue(s))
  {
    var wake := s.msg.wake;
    var box := s.containers.Get(wake);
    assert HeapReadable(box.heap, s.delegates);
    if box.heap.Leaf? || (!s.msg.first && s.msg.timerOfNow < box.heap.data.key) {
      PopDoneInv(s);
      assert Continue(s) == Ok(SetContainer(s, wake, box, UpdateSoonestTime(box.heap, None, wake, None)));
    } else {
      PopInv(s, box, Popped(wake, s.msg.timerOfNow, box.heap.data.id));
      assert Continue(s) == Ok(SetContainer(s, wake, box.(heap := Pop(box.heap)), Popped(wake, s.msg.timerOfNow, box.heap.data.id)));
    }
  }

  lemma LoopRemovesNothing(m: MsgThread, sw: Tree, hw: Tree)
    requires InLoop(m)
    ensures BeingRemoved(m).None? && (!m.Popped? && !m.Stopping? ==> Held(m).None?) && TimeIsSoonest(m, sw, hw)
  {}

  /** Moves inside the loop that touch neither heap. */
  lemma LoopInv(s: State, starts: seq<StartRecord>, m: MsgThread)
    requires Inv(s) && (s.msg.Popped? || s.msg.Stopping? || s.msg.CallingBack?)
    requires m.PopNext? || m.Stopping? || m.CallingBack?
    requires m.Stopping? ==> s.msg.Popped? && m.timer == s.msg.timer
    requires m.wake == s.msg.wake && ClientUsable(m, s.clients) && HistorySound(starts, s.delegates, m)
    ensures Inv(s.(starts := starts, msg := m))
  {
    LoopRemovesNothing(m, s.containers.sw.heap, s.containers.hw.heap);
    LoopRemovesNothing(s.msg, s.containers.sw.heap, s.containers.hw.heap);
    LoopOn(false, s.containers.sw, s.poll.todo, s.queue, s.msg, m);
    LoopOn(true, s.containers.hw, s.poll.todo, s.queue, s.msg, m);
  }

  lemma LoopOn(wake: bool, box: Container, todo: seq<bool>, queue: seq<Msg>, m: MsgThread, m': MsgThread)
    requires NothingLost(wake, box, todo, queue, m) && InLoop(m) && InLoop(m') && m.wake == m'.wake
    ensures NothingLost(wake, box, todo, queue, m')
  {}

  lemma PoppedInv(s: State)
    requires Inv(s) && s.msg.Popped?
    ensures KeepsInv(Continue(s))
  {
    var m := AfterPop(s.msg.timer, s.delegates[s.msg.timer].mClient, s.msg.wake, s.msg.timerOfNow);
    LoopInv(s, s.starts, m);
    assert Continue(s) == Ok(s.(msg := m));
  }

  lemma AfterStopSound(s: State, c: nat, m: MsgThread)
    requires Inv(s) && s.msg.Stopping? && c == s.msg.client && m == AfterStop(s, s.msg.wake, s.msg.timerOfNow, c)
    ensures StopTimer(s, c, true).Ok?
    ensures var s' := StopTimer(s, c, true).state;
            s'.msg == s.msg && ClientUsable(m, s'.clients) && HistorySound(s'.starts, s'.delegates, m)
    ensures (m.PopNext? || m.CallingBack?) && m.wake == s.msg.wake
  {
    if s.clients[c].mTimer.Some? { StopInvClients(s, c, s.clients[c].mTimer.value, true); }
  }

  lemma StoppingInv(s: State)
    requires Inv(s) && s.msg.Stopping?
    ensures KeepsInv(Continue(s))
  {
    var c := s.msg.client;
    var m := AfterStop(s, s.msg.wake, s.msg.timerOfNow, c);
    StopInv(s, c, true);
    AfterStopSound(s, c, m);
    LoopInv(StopTimer(s, c, true).state, StopTimer(s, c, true).state.starts, m);
    StoppingGoesOn(s, c);
  }

  lemma StoppingGoesOn(s: State, c: nat)
    requires s.msg.Stopping? && s.msg.client == c && c in s.clients && StopTimer(s, c, true).Ok?
    ensures Continue(s) == Ok(StopTimer(s, c, true).state.(msg := AfterStop(s, s.msg.wake, s.msg.timerOfNow, c)))
  {}

  lemma CallbackHistory(starts: seq<StartRecord>, delegates: Delegates, m: MsgThread, m': MsgThread)
    requires HistorySound(starts, delegates, m) && m.CallingBack? && m'.PopNext?
    ensures HistorySound(starts[m.serial := starts[m.serial].(callbacks := starts[m.serial].callbacks + 1)], delegates, m')
  {}

  lemma CallingBackInv(s: State)
    requires Inv(s) && s.msg.CallingBack?
    ensures KeepsInv(Continue(s))
  {
    var (m, i) := (PopNext(s.msg.wake, s.msg.timerOfNow, false), s.msg.serial);
    var starts := s.starts[i := s.starts[i].(callbacks := s.starts[i].callbacks + 1)];
    CallbackHistory(s.starts, s.delegates, s.msg, m);
    LoopInv(s, starts, m);
    assert Continue(s) == Ok(s.(starts := starts, msg := m));
  }

  lemma ProceedInv(s: State)
    requires Inv(s)
    ensures KeepsInv(Continue(s))
  {
    match s.msg
    case Idle =>
    case AddPoll(_, _, _) => AddPollInv(s);
    case SetTime(_, _, _) => SetTimeInv(s);
    case RemovePoll(_, _) =>
    case Disarm(_, _) =>
    case Delete(_) => DeleteInv(s);
    case PopNext(_, _, _) => PopNextInv(s);
    case Popped(_, _, _) => PoppedInv(s);
    case Stopping(_, _, _, _) => StoppingInv(s);
    case CallingBack(_, _, _, _) => CallingBackInv(s);
  }
}
