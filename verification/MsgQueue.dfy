/** gps/utils/msg_q.c as code: a queue object over the linked list.  Each method
    is one stretch of code under the mutex, and takes exactly the step of the
    transition system MsgQ that is named after it. */
module MsgQueue {
  import LL = LinkedList
  import opened MsgQ

  function Convert(err: LL.LinkedListErr): MsgQErr {
    match err
    case Success => QSuccess
    case FailureGeneral => QFailureGeneral
    case InvalidParameter => QInvalidParameter
    case UnavailableResource => QUnavailableResource
  }

  class MsgQueue {
    const msgList: LL.LinkedList
    var unblocked: bool
    /** The condition variable: the threads in pthread_cond_wait, and those it has let go. */
    var asleep: set<nat>
    var woken: set<nat>
    ghost var accepted: seq<LL.Item>
    ghost var fates: seq<Fate>

    ghost predicate Valid()
      reads this, msgList, msgList.elems
    { msgList.Valid() }

    ghost function State(): State
      reads this, msgList
    { MsgQ.State(msgList.contents, unblocked, asleep, woken, accepted, fates) }

    constructor ()
      ensures Valid() && State() == INIT && fresh(msgList) && msgList.elems == []
    {
      msgList := new LL.LinkedList();
      unblocked, asleep, woken, accepted, fates := false, {}, {}, [], [];
    }

    /** pthread_cond_signal; `thread` is who it wakes when anyone is asleep. */
    method CondSignal(thread: nat)
      requires asleep != {} ==> thread in asleep
      modifies this`asleep, this`woken
      ensures State() == Signal(old(State()), thread)
    {
      if asleep != {} {
        asleep, woken := asleep - {thread}, woken + {thread};
      }
    }

    method Snd(msg: LL.Pointer, dealloc: bool, mallocOk: bool, signalled: nat) returns (err: MsgQErr)
      requires Valid() && (asleep != {} ==> signalled in asleep)
      modifies this, msgList, msgList.elems
      ensures Valid() && forall e <- msgList.elems :: e in old(msgList.elems) || fresh(e)
      ensures Next(old(State()), MsgQ.Snd(msg, dealloc, mallocOk, signalled)) == Ok(State(), Returned(err))
      ensures err == if msg == LL.NULL then QInvalidParameter else if unblocked then QUnavailableResource
                     else if !mallocOk then QFailureGeneral else QSuccess
      ensures var more := if err == QSuccess then [LL.Item(msg, dealloc)] else [];
              msgList.contents == more + old(msgList.contents) && accepted == old(accepted) + more
      ensures if old(asleep) != {} && msg != LL.NULL && !unblocked
              then asleep == old(asleep) - {signalled} && woken == old(woken) + {signalled}
              else asleep == old(asleep) && woken == old(woken)
    {
      if msg == LL.NULL {
        return QInvalidParameter;
      }
      if unblocked {
        return QUnavailableResource;
      }
      err := AddToList(msg, dealloc, mallocOk);
      CondSignal(signalled);
    }

    /** linked_list_add, put on record. */
    method AddToList(msg: LL.Pointer, dealloc: bool, mallocOk: bool) returns (err: MsgQErr)
      requires Valid() && msg != LL.NULL
      modifies this`accepted, msgList, msgList.elems
      ensures Valid() && forall e <- msgList.elems :: e in old(msgList.elems) || fresh(e)
      ensures err == if mallocOk then QSuccess else QFailureGeneral
      ensures var more := if mallocOk then [LL.Item(msg, dealloc)] else [];
              msgList.contents == more + old(msgList.contents) && accepted == old(accepted) + more
    {
      var added := msgList.Add(msg, dealloc, mallocOk);
      if added.Success? {
        accepted := accepted + [LL.Item(msg, dealloc)];
      }
      err := Convert(added);
    }

    /** msg_q_rcv up to its return, or to falling asleep. */
    method Rcv(thread: nat) returns (progress: Progress, msg: LL.Pointer)
      requires Valid() && thread !in asleep + woken
      modifies this, msgList, msgList.elems
      ensures Valid() && forall e <- msgList.elems :: e in old(msgList.elems)
      ensures Next(old(State()), MsgQ.Rcv(thread)) == Ok(State(), progress)
      ensures if unblocked then State() == old(State()) && progress == Returned(QUnavailableResource)
              else Receives(old(State()), thread, State(), progress)
      ensures progress == Returned(QSuccess) ==> msg == LL.Last(old(msgList.contents)).data
    {
      if unblocked {
        return Returned(QUnavailableResource), LL.NULL;
      }
      progress, msg := WaitLoop(thread);
    }

    /** msg_q_rcv from pthread_cond_wait's return on. */
    method Resume(thread: nat) returns (progress: Progress, msg: LL.Pointer)
      requires Valid() && thread in woken
      modifies this, msgList, msgList.elems
      ensures Valid() && forall e <- msgList.elems :: e in old(msgList.elems)
      ensures Next(old(State()), MsgQ.Resume(thread)) == Ok(State(), progress)
      ensures Receives(old(State()).(woken := old(woken) - {thread}), thread, State(), progress)
      ensures progress == Returned(QSuccess) ==> msg == LL.Last(old(msgList.contents)).data
    {
      woken := woken - {thread};
      progress, msg := WaitLoop(thread);
    }

    /** The test of the wait loop and what follows the loop. */
    method WaitLoop(thread: nat) returns (progress: Progress, msg: LL.Pointer)
      requires Valid()
      modifies this, msgList, msgList.elems
      ensures Valid() && forall e <- msgList.elems :: e in old(msgList.elems)
      ensures WaitOrTake(old(State()), thread) == Ok(State(), progress)
      ensures progress == Returned(QSuccess) ==> msg == LL.Last(old(msgList.contents)).data
    {
      var empty := msgList.Empty();
      if empty && !unblocked {
        asleep := asleep + {thread};
        return Waiting, LL.NULL;
      }
      ghost var list := msgList.contents;
      var removed;
      removed, msg := msgList.Remove();
      if removed.Success? {
        fates := fates + [Received(LL.Last(list), thread)];
      }
      return Returned(Convert(removed)), msg;
    }

    method Flush() returns (err: MsgQErr)
      requires Valid()
      modifies this, msgList
      ensures Valid() && msgList.elems == []
      ensures Next(old(State()), MsgQ.Flush) == Ok(State(), Returned(err))
      ensures err == QSuccess && msgList.contents == [] && State() == old(State()).(list := [], fates := fates)
      ensures msgList.freed == old(msgList.freed) + LL.Deallocated(old(msgList.contents))
    {
      fates := fates + AllFlushed(msgList.contents);
      msgList.Flush();
      return QSuccess;
    }

    method Unblock() returns (err: MsgQErr)
      modifies this`unblocked, this`asleep, this`woken
      ensures Next(old(State()), MsgQ.Unblock) == Ok(State(), Returned(err))
      ensures err == if old(unblocked) then QUnavailableResource else QSuccess
      ensures unblocked && (!old(unblocked) ==> asleep == {} && woken == old(woken) + old(asleep))
    {
      if unblocked {
        return QUnavailableResource;
      }
      unblocked := true;
      asleep, woken := {}, woken + asleep;
      return QSuccess;
    }
  }
}
