/** The timer service of gps/utils/LocTimer.cpp as a transition system: clients
    that start, stop and delete timers on any thread, the message thread that
    owns the two heaps, and the poll thread that turns kernel timer expiries
    into messages.  Every kernel call and every access to an object that another
    thread could free is a step of its own; an access to a freed object ends the
    run in `Fault`. */
module LocTimer {
  import opened Wrappers
  import opened HeapSpec
  import Timespec

  // ----- state -----

  /** A LocTimerContainer with its kernel timerfd: whether the fd is in the epoll
      set, and the absolute time it is armed at. */
  datatype Container = Container(heap: Tree, polled: bool, armed: Option<int>)

  /** The container of timers and that of alarms (`wakeOnExpire`). */
  datatype Containers = Containers(sw: Container, hw: Container) {
    function Get(wake: bool): Container { if wake then hw else sw }
    function Set(wake: bool, c: Container): Containers {
      if wake then this.(hw := c) else this.(sw := c)
    }
  }

  /** A live LocTimer. */
  datatype Client = Client(mLock: nat, mTimer: Option<nat>)

  /** A live LocTimerDelegate.  `wake` says which container it was created for
      and `serial` which call of start created it; the code keeps neither. */
  datatype Delegate = Delegate(mClient: Option<nat>, mLock: nat, mFutureTime: int,
                               mContainer: Option<bool>, wake: bool, serial: nat)

  datatype Msg =
    | MsgTimerPush(wake: bool, timer: nat)
    | MsgTimerRemove(wake: bool, timer: nat)
    | MsgTimerExpire(wake: bool)

  /** Where the message thread is.  `del` is the delegate that a remove message
      deletes once the kernel timer is up to date. */
  datatype MsgThread =
    | Idle
    | AddPoll(wake: bool, time: int, del: Option<nat>)
    | SetTime(wake: bool, time: int, del: Option<nat>)
    | RemovePoll(wake: bool, del: Option<nat>)
    | Disarm(wake: bool, del: Option<nat>)
    | Delete(timer: nat)
    | PopNext(wake: bool, timerOfNow: int, first: bool)
    | Popped(wake: bool, timerOfNow: int, timer: nat)
    | Stopping(wake: bool, timerOfNow: int, timer: nat, client: nat)
    | CallingBack(wake: bool, timerOfNow: int, client: nat, serial: nat)

  /** Containers whose expire() the poll thread still has to run, and how far it
      is with the first of them: disarm, leave the epoll set, send the message. */
  datatype PollThread = PollThread(todo: seq<bool>, stage: nat)

  /** History of one successful start: how often a stop of it returned true,
      whether that was the expiry's own stop, and how often it called back; and
      when it was made, with what arguments. */
  datatype StartRecord = StartRecord(stops: nat, byExpiry: bool, callbacks: nat, time: int, ms: nat, wake: bool) {
    function Due(): int { time + ms * Timespec.NS_PER_MS }
  }

  datatype State = State(
    now: int,
    clients: map<nat, Client>,
    delegates: map<nat, Delegate>,
    locks: map<nat, int>,          // live LocSharedLocks and their mRef
    queue: seq<Msg>,
    containers: Containers,
    msg: MsgThread,
    poll: PollThread,
    starts: seq<StartRecord>)

  datatype Outcome = Disabled | Fault | Ok(state: State)

  ghost predicate Init(s: State) {
    && s.now > 0
    && s.clients == map[] && s.delegates == map[] && s.locks == map[] && s.queue == []
    && s.containers == Containers(Container(Leaf, false, None), Container(Leaf, false, None))
    && s.msg == Idle && s.poll == PollThread([], 0) && s.starts == []
  }

  // ----- steps -----

  datatype Step =
    | Tick(now: int)
    | NewClient(client: nat, mLock: nat)
    | Start(client: nat, timer: nat, timeOutInMs: nat, wake: bool)
    | Stop(client: nat)
    | DeleteClient(client: nat)
    | Receive
    | Proceed
    | PollWake(ready: seq<bool>)
    | PollStep

  /** Addresses may be reused: any that is not live now can be handed out. */
  ghost function Next(s: State, step: Step): Outcome {
    match step
    case Tick(t) => if s.now <= t then Ok(s.(now := t)) else Disabled
    case NewClient(c, l) => if c in s.clients || l in s.locks then Disabled else Ok(CreateClient(s, c, l))
    case Start(c, d, ms, wake) =>
      if c !in s.clients || d in s.delegates then Disabled else StartTimer(s, c, d, ms, wake)
    case Stop(c) => if c !in s.clients then Disabled else StopTimer(s, c, false)
    case DeleteClient(c) => if c !in s.clients || UsedByExpiry(s.msg, c) then Disabled else DestroyClient(s, c)
    case Receive => if s.msg.Idle? && s.queue != [] then Process(s.(queue := s.queue[1..]), s.queue[0]) else Disabled
    case Proceed => Continue(s)
    case PollWake(ready) =>
      if s.poll.todo == [] && ready != [] && (forall w <- ready :: FdReady(s, w))
      then Ok(s.(poll := PollThread(ready, 0))) else Disabled
    case PollStep => if s.poll.todo == [] then Disabled else Ok(ExpireStep(s))
  }

  // ----- clients -----

  ghost function CreateClient(s: State, c: nat, l: nat): State {
    s.(clients := s.clients[c := Client(l, None)], locks := s.locks[l := 1])
  }

  /** LocTimer::start: one critical section of the client's lock. */
  ghost function StartTimer(s: State, c: nat, d: nat, ms: nat, wake: bool): Outcome
    requires c in s.clients && d !in s.delegates
  {
    var l := s.clients[c].mLock;
    if l !in s.locks then Fault
    else if s.clients[c].mTimer.Some? then Ok(s)
    else Ok(Started(s, c, d, NewDelegate(s, c, ms, wake), ms))
  }

  function NewDelegate(s: State, c: nat, ms: nat, wake: bool): Delegate
    requires c in s.clients
  {
    Delegate(Some(c), s.clients[c].mLock, Timespec.DeadlineNs(s.now, ms), Some(wake), wake, |s.starts|)
  }

  /** The LocTimerDelegate constructor shares the lock and sends the push. */
  ghost function Started(s: State, c: nat, d: nat, timer: Delegate, ms: nat): State
    requires c in s.clients && timer.mLock in s.locks
  {
    s.(clients := s.clients[c := s.clients[c].(mTimer := Some(d))],
       delegates := s.delegates[d := timer],
       locks := s.locks[timer.mLock := s.locks[timer.mLock] + 1],
       queue := s.queue + [MsgTimerPush(timer.wake, d)],
       starts := s.starts + [StartRecord(0, false, 0, s.now, ms, timer.wake)])
  }

  /** LocTimer::stop.  `byExpiry` only feeds the history. */
  ghost function StopTimer(s: State, c: nat, byExpiry: bool): Outcome
    requires c in s.clients
  {
    var client := s.clients[c];
    if client.mLock !in s.locks then Fault
    else if client.mTimer.None? then Ok(s)
    else if client.mTimer.value !in s.delegates then Fault
    else Ok(Destroyed(s, c, client.mTimer.value, byExpiry))
  }

  /** LocTimerDelegate::destroyLocked, inside the same critical section. */
  ghost function Destroyed(s: State, c: nat, d: nat, byExpiry: bool): State
    requires c in s.clients && d in s.delegates
  {
    var timer := s.delegates[d];
    s.(clients := s.clients[c := s.clients[c].(mTimer := None)],
       delegates := s.delegates[d := Detached(timer)],
       queue := if timer.mContainer.Some?
                then s.queue + [MsgTimerRemove(timer.mContainer.value, d)] else s.queue,
       starts := Ended(s.starts, timer.serial, byExpiry))
  }

  function Detached(timer: Delegate): Delegate { timer.(mClient := None, mContainer := None) }

  function Ended(starts: seq<StartRecord>, i: nat, byExpiry: bool): seq<StartRecord> {
    if i < |starts|
    then starts[i := starts[i].(stops := starts[i].stops + 1, byExpiry := byExpiry)]
    else starts
  }

  /** LocSharedLock::drop. */
  ghost function DropLock(s: State, l: nat): Outcome {
    if l !in s.locks then Fault
    else Ok(s.(locks := Dropped(s.locks, l)))
  }

  function Dropped(locks: map<nat, int>, l: nat): map<nat, int>
    requires l in locks
  { if locks[l] == 1 then locks - {l} else locks[l := locks[l] - 1] }

  /** LocTimer::~LocTimer. */
  ghost function DestroyClient(s: State, c: nat): Outcome
    requires c in s.clients
  {
    match StopTimer(s, c, false)
    case Ok(s') => DropLock(s'.(clients := s'.clients - {c}), s.clients[c].mLock)
    case other => other
  }

  /** The expiry holds a bare client pointer from reading mClient until the
      callback is entered. */
  predicate UsedByExpiry(m: MsgThread, c: nat) {
    (m.Stopping? || m.CallingBack?) && m.client == c
  }

  // ----- message thread -----

  function Top(t: Tree): Option<LocRankable> {
    if t.Leaf? then None else Some(t.data)
  }

  /** What LocTimerContainer::updateSoonestTime goes on to do with the kernel. */
  function UpdateSoonestTime(heap: Tree, priorTop: Option<LocRankable>, wake: bool, del: Option<nat>): MsgThread {
    var curTop := Top(heap);
    if curTop == priorTop then Finish(del)
    else if curTop.None? then RemovePoll(wake, del)
    else if priorTop.None? || curTop.value.OutRanks(priorTop.value) then AddPoll(wake, curTop.value.key, del)
    else Finish(del)
  }

  function Finish(del: Option<nat>): MsgThread {
    if del.Some? then Delete(del.value) else Idle
  }

  /** Ranking reads the delegates in the heap. */
  ghost predicate HeapReadable(heap: Tree, delegates: map<nat, Delegate>) {
    forall e <- Elems(heap) :: e.id in delegates
  }

  ghost function SetContainer(s: State, wake: bool, box: Container, msg: MsgThread): State {
    s.(containers := s.containers.Set(wake, box), msg := msg)
  }

  /** The heap part of a message, up to the first kernel call. */
  ghost function Process(s: State, m: Msg): Outcome {
    var box := s.containers.Get(m.wake);
    match m
    case MsgTimerPush(wake, d) =>
      if d !in s.delegates || !HeapReadable(box.heap, s.delegates) then Fault
      else Ok(SetContainer(s, wake, Pushed(box, Rankable(s, d)), AfterPush(box.heap, Rankable(s, d), wake)))
    case MsgTimerRemove(wake, d) =>
      if d !in s.delegates || !HeapReadable(box.heap, s.delegates) then Fault
      else Ok(SetContainer(s, wake, Removed(box, Rankable(s, d)), AfterRemove(box.heap, Rankable(s, d), wake)))
    case MsgTimerExpire(wake) => Ok(s.(msg := PopNext(wake, s.now, true)))
  }

  /** A delegate as the heap sees it. */
  function Rankable(s: State, d: nat): LocRankable
    requires d in s.delegates
  { LocRankable(d, s.delegates[d].mFutureTime) }

  function Pushed(box: Container, x: LocRankable): Container { box.(heap := Push(box.heap, x)) }

  function AfterPush(heap: Tree, x: LocRankable, wake: bool): MsgThread {
    UpdateSoonestTime(Push(heap, x), Top(heap), wake, None)
  }

  function Removed(box: Container, x: LocRankable): Container { box.(heap := Remove(box.heap, x).0) }

  /** The kernel is only told when what was removed was the top (or both are
      null); either way the delegate is deleted in the end. */
  function AfterRemove(heap: Tree, x: LocRankable, wake: bool): MsgThread {
    var (rest, found) := Remove(heap, x);
    if Top(heap) == (if found then Some(x) else None)
    then UpdateSoonestTime(rest, None, wake, Some(x.id))
    else Delete(x.id)
  }

  /** timerfd_settime: a zero time disarms. */
  function Armed(time: int): Option<int> { if time == 0 then None else Some(time) }

  /** The message thread's next move inside the message it is handling. */
  ghost function Continue(s: State): Outcome {
    match s.msg
    case Idle => Disabled
    case AddPoll(wake, time, del) =>
      Ok(SetContainer(s, wake, s.containers.Get(wake).(polled := true), SetTime(wake, time, del)))
    case SetTime(wake, time, del) =>
      Ok(SetContainer(s, wake, s.containers.Get(wake).(armed := Armed(time)), Finish(del)))
    case RemovePoll(wake, del) =>
      Ok(SetContainer(s, wake, s.containers.Get(wake).(polled := false), Disarm(wake, del)))
    case Disarm(wake, del) =>
      Ok(SetContainer(s, wake, s.containers.Get(wake).(armed := None), Finish(del)))
    case Delete(d) =>
      if d !in s.delegates then Fault
      else DropLock(WithoutDelegate(s, d), s.delegates[d].mLock)
    case PopNext(wake, timerOfNow, first) => PopTimer(s, wake, timerOfNow, first)
    case Popped(wake, timerOfNow, d) =>
      if d !in s.delegates then Fault
      else
        Ok(s.(msg := AfterPop(d, s.delegates[d].mClient, wake, timerOfNow)))
    case Stopping(wake, timerOfNow, _, c) => ExpiryStop(s, wake, timerOfNow, c)
    case CallingBack(wake, timerOfNow, c, i) =>
      if c !in s.clients || i >= |s.starts| then Fault
      else Ok(s.(starts := s.starts[i := s.starts[i].(callbacks := s.starts[i].callbacks + 1)],
                 msg := PopNext(wake, timerOfNow, false)))
  }

  ghost function WithoutDelegate(s: State, d: nat): State {
    s.(delegates := s.delegates - {d}, msg := Idle)
  }

  /** pop() the first time, popIfOutRanks(timerOfNow) from then on. */
  ghost function PopTimer(s: State, wake: bool, timerOfNow: int, first: bool): Outcome {
    var box := s.containers.Get(wake);
    if !HeapReadable(box.heap, s.delegates) then Fault
    else if box.heap.Leaf? || (!first && timerOfNow < box.heap.data.key)
    then Ok(s.(msg := UpdateSoonestTime(box.heap, None, wake, None)))
    else Ok(SetContainer(s, wake, box.(heap := Pop(box.heap)), Popped(wake, timerOfNow, box.heap.data.id)))
  }

  /** LocTimerDelegate::expire up to reading mClient. */
  function AfterPop(d: nat, mClient: Option<nat>, wake: bool, timerOfNow: int): MsgThread {
    if mClient.None? then PopNext(wake, timerOfNow, false) else Stopping(wake, timerOfNow, d, mClient.value)
  }

  /** LocTimerDelegate::expire from `client->stop()` on. */
  ghost function ExpiryStop(s: State, wake: bool, timerOfNow: int, c: nat): Outcome {
    if c !in s.clients then Fault
    else
      match StopTimer(s, c, true)
      case Ok(s') => Ok(s'.(msg := AfterStop(s, wake, timerOfNow, c)))
      case other => other
  }

  /** The callback is only made when the stop returned true. */
  ghost function AfterStop(s: State, wake: bool, timerOfNow: int, c: nat): MsgThread
    requires c in s.clients
  {
    var d := s.clients[c].mTimer;
    if d.None? || d.value !in s.delegates then PopNext(wake, timerOfNow, false)
    else CallingBack(wake, timerOfNow, c, s.delegates[d.value].serial)
  }

  // ----- poll thread -----

  predicate FdReady(s: State, wake: bool) {
    var box := s.containers.Get(wake);
    box.polled && box.armed.Some? && box.armed.value <= s.now
  }

  /** The three calls of LocTimerContainer::expire, one at a time. */
  function ExpireStep(s: State): State
    requires s.poll.todo != []
  {
    var wake := s.poll.todo[0];
    var box := s.containers.Get(wake);
    if s.poll.stage == 0 then
      s.(containers := s.containers.Set(wake, box.(armed := None)), poll := s.poll.(stage := 1))
    else if s.poll.stage == 1 then
      s.(containers := s.containers.Set(wake, box.(polled := false)), poll := s.poll.(stage := 2))
    else
      s.(queue := s.queue + [MsgTimerExpire(wake)], poll := PollThread(s.poll.todo[1..], 0))
  }

  // ----- runs -----

  /** Takes the steps one after the other, up to the first that cannot be taken. */
  ghost function Run(s: State, steps: seq<Step>): Outcome {
    if steps == [] then Ok(s)
    else
      match Run(s, steps[..|steps| - 1])
      case Ok(mid) => Next(mid, steps[|steps| - 1])
      case other => other
  }
}
