/** gps/core/LocApiBase.cpp: the registry of location adapters, and the event mask
    the engine is opened with on their behalf. */
module LocApiBase {
  const MAX_ADAPTERS: nat := 10

  /** LOC_API_ADAPTER_EVENT_MASK_T, as the set of the numbers of its bits that are on:
      `|` is union, and `& ~` is difference. */
  type EventMask = set<nat>

  class LocAdapterBase {
    var mEvtMask: EventMask

    constructor (mask: EventMask)
      ensures mEvtMask == mask
    { mEvtMask := mask; }
  }

  datatype LocMsg = LocOpenMsg | LocSsrMsg

  /** Where the message task is inside a message: about to read the mask, or about to
      open the engine with the mask it has read.  It holds no lock meanwhile. */
  datatype Running = Waiting | Began | HasRead(mask: EventMask)

  /** The events any of the adapters wants. */
  ghost function Wanted(adapters: seq<LocAdapterBase>): EventMask
    reads adapters`mEvtMask
  {
    if adapters == [] then {} else Wanted(adapters[..|adapters| - 1]) + adapters[|adapters| - 1].mEvtMask
  }

  /** An event is wanted just when some adapter wants it, whatever their order. */
  lemma {:induction false} WantedBySome(adapters: seq<LocAdapterBase>, event: nat)
    ensures event in Wanted(adapters) <==> exists i :: 0 <= i < |adapters| && event in adapters[i].mEvtMask
  {
    if adapters != [] {
      var most := adapters[..|adapters| - 1];
      WantedBySome(most, event);
      assert forall i :: 0 <= i < |most| ==> most[i] == adapters[i];
    }
  }

  lemma WantedByOne(adapter: LocAdapterBase)
    ensures Wanted([adapter]) == adapter.mEvtMask
  {
    assert [adapter][..0] == [];
  }

  ghost predicate NoDuplicates(s: seq<LocAdapterBase>) {
    forall i, j :: 0 <= i < j < |s| ==> s[i] != s[j]
  }

  /** What is left once the adapter at `k` has made way for the last one. */
  function WithoutAt<T>(s: seq<T>, k: nat): (r: seq<T>)
    requires k < |s|
  { if k == |s| - 1 then s[..k] else s[..|s| - 1][k := s[|s| - 1]] }

  /** Exactly that adapter goes, and still none is there twice. */
  lemma RemovesExactly(s: seq<LocAdapterBase>, k: nat)
    requires NoDuplicates(s) && k < |s|
    ensures NoDuplicates(WithoutAt(s, k)) && |WithoutAt(s, k)| == |s| - 1
    ensures forall a: LocAdapterBase :: a in WithoutAt(s, k) <==> a in s && a != s[k]
    ensures forall i :: 0 <= i < |s| - 1 ==> WithoutAt(s, k)[i] == if i == k then s[|s| - 1] else s[i]
  {
    var r := WithoutAt(s, k);
    forall a: LocAdapterBase | a in s && a != s[k] ensures a in r {
      var i :| 0 <= i < |s| && s[i] == a;
      assert i < |s| - 1 ==> r[i] == a;
      assert i == |s| - 1 ==> r[k] == a;
    }
  }

  /** All stay where they were, but the last one is now at `k`. */
  ghost predicate LastFills(before: seq<LocAdapterBase>, after: seq<LocAdapterBase>, k: nat) {
    && k < |before| == |after| + 1
    && forall i :: 0 <= i < |after| ==> after[i] == if i == k then before[|before| - 1] else before[i]
  }

  class LocApiBase {
    const mLocAdapters: array<LocAdapterBase?>
    const mExcludedMask: EventMask
    /** The message task's queue, and what the task is doing. */
    var mMsgTask: seq<LocMsg>
    var running: Running
    /** The mask of the latest open(), or none after close(). */
    var engine: EventMask
    ghost var adapters: seq<LocAdapterBase>

    /** The array is a prefix without holes and without duplicates. */
    ghost predicate Valid()
      reads this`adapters, mLocAdapters
    {
      && mLocAdapters.Length == MAX_ADAPTERS && |adapters| <= MAX_ADAPTERS
      && (forall i :: 0 <= i < MAX_ADAPTERS ==> mLocAdapters[i] == if i < |adapters| then adapters[i] else null)
      && NoDuplicates(adapters)
    }

    ghost function EvtMask(): EventMask
      reads this`adapters, adapters`mEvtMask
    { Wanted(adapters) - mExcludedMask }

    /** With no message on its way the engine has the mask of the registered adapters,
        or is about to be opened with it. */
    ghost predicate InSync()
      reads this`adapters, adapters`mEvtMask, this`mMsgTask, this`running, this`engine
    {
      mMsgTask == [] ==>
        && (running.Waiting? ==> engine == EvtMask())
        && (running.HasRead? ==> running.mask == EvtMask())
    }

    /** Removing this adapter would empty the registry while the message task has read a
        mask with events in it, and no other message is on its way. */
    ghost predicate Overtakes(adapter: LocAdapterBase)
      reads this`adapters, adapters`mEvtMask, this`mMsgTask, this`running
    { adapters == [adapter] && mMsgTask == [] && running.HasRead? && EvtMask() != {} }

    constructor (excludedMask: EventMask)
      ensures Valid() && InSync() && adapters == [] && mMsgTask == [] && running.Waiting? && fresh(mLocAdapters) && mExcludedMask == excludedMask
    {
      mLocAdapters := new LocAdapterBase?[MAX_ADAPTERS](_ => null);
      mExcludedMask := excludedMask;
      mMsgTask, running, engine, adapters := [], Waiting, {}, [];
    }

    method GetEvtMask() returns (mask: EventMask)
      requires Valid()
      ensures mask == EvtMask()
    {
      mask := {};
      var i := 0;
      while i < MAX_ADAPTERS && mLocAdapters[i] != null
        invariant 0 <= i <= |adapters|
        invariant mask == Wanted(adapters[..i])
      {
        mask := mask + mLocAdapters[i].mEvtMask;
        assert adapters[..i + 1][..i] == adapters[..i];
        i := i + 1;
      }
      assert adapters[..i] == adapters;
      mask := mask - mExcludedMask;
    }

    method SendMsg(msg: LocMsg)
      modifies this`mMsgTask
      ensures mMsgTask == old(mMsgTask) + [msg]
    { mMsgTask := mMsgTask + [msg]; }

    method Open(mask: EventMask)
      modifies this`engine
      ensures engine == mask
    { engine := mask; }

    method Close()
      modifies this`engine
      ensures engine == {}
    { engine := {}; }

    /** Nothing happens when the adapter is there already or the array is full. */
    method AddAdapter(adapter: LocAdapterBase)
      requires Valid()
      modifies this`adapters, this`mMsgTask, mLocAdapters
      ensures Valid() && (old(InSync()) ==> InSync())
      ensures if adapter in old(adapters) || |old(adapters)| == MAX_ADAPTERS
              then adapters == old(adapters) && mMsgTask == old(mMsgTask)
              else adapters == old(adapters) + [adapter] && mMsgTask == old(mMsgTask) + [LocOpenMsg]
    {
      var i := 0;
      while i < MAX_ADAPTERS && mLocAdapters[i] != adapter
        invariant 0 <= i <= |adapters| && adapters == old(adapters) && mMsgTask == old(mMsgTask) && Valid()
        invariant forall j :: 0 <= j < i ==> adapters[j] != adapter
      {
        if mLocAdapters[i] == null {
          assert i == |adapters|;
          mLocAdapters[i] := adapter;
          adapters := adapters + [adapter];
          SendMsg(LocOpenMsg);
          break;
        }
        i := i + 1;
      }
    }

    /** The last adapter takes the place of the removed one; without any adapter left
        the engine is closed at once, on the caller's thread.  That is too early just
        when it overtakes the message task, which then opens the engine again. */
    method RemoveAdapter(adapter: LocAdapterBase)
      requires Valid()
      modifies this`adapters, this`mMsgTask, this`engine, mLocAdapters
      ensures Valid() && (old(InSync()) ==> (InSync() <==> !old(Overtakes(adapter))))
      ensures adapter !in old(adapters) ==> adapters == old(adapters) && mMsgTask == old(mMsgTask) && engine == old(engine)
      ensures adapter in old(adapters) ==>
                (exists k :: 0 <= k < |old(adapters)| && old(adapters)[k] == adapter && LastFills(old(adapters), adapters, k))
                && (if adapters == [] then engine == {} && mMsgTask == old(mMsgTask)
                    else engine == old(engine) && mMsgTask == old(mMsgTask) + [LocOpenMsg])
    {
      var i := 0;
      while i < MAX_ADAPTERS && mLocAdapters[i] != null
        invariant 0 <= i <= |adapters| && adapters == old(adapters) && mMsgTask == old(mMsgTask)
        invariant engine == old(engine) && Valid()
        invariant forall j :: 0 <= j < i ==> adapters[j] != adapter
      {
        if mLocAdapters[i] == adapter {
          RemovesExactly(adapters, i);
          var last := TakeOut(i);
          if last == 0 {
            Close();
          } else {
            SendMsg(LocOpenMsg);
          }
          break;
        }
        i := i + 1;
      }
    }

    /** Fills the hole at `k` from the end; returns where the end was. */
    method TakeOut(k: nat) returns (last: nat)
      requires Valid() && k < |adapters|
      modifies this`adapters, mLocAdapters
      ensures Valid() && adapters == WithoutAt(old(adapters), k) && last == |adapters|
    {
      RemovesExactly(adapters, k);
      mLocAdapters[k] := null;
      var i := k + 1;
      while i < MAX_ADAPTERS && mLocAdapters[i] != null
        invariant k < i <= |adapters|
      {
        i := i + 1;
      }
      i := i - 1;
      mLocAdapters[k] := mLocAdapters[i];
      mLocAdapters[i] := null;
      last := i;
      adapters := WithoutAt(adapters, k);
    }

    /** LocAdapterBase::updateEvtMask, of any adapter, registered or not. */
    method UpdateEvtMask(adapter: LocAdapterBase, event: EventMask, isEnabled: bool)
      requires Valid()
      modifies adapter`mEvtMask, this`mMsgTask
      ensures Valid() && InSync() && mMsgTask == old(mMsgTask) + [LocOpenMsg]
      ensures forall e :: e in adapter.mEvtMask <==> if e in event then isEnabled else e in old(adapter.mEvtMask)
    {
      adapter.mEvtMask := if isEnabled then adapter.mEvtMask + event else adapter.mEvtMask - event;
      SendMsg(LocOpenMsg);
    }

    method HandleEngineUpEvent()
      requires Valid()
      modifies this`mMsgTask
      ensures Valid() && InSync() && mMsgTask == old(mMsgTask) + [LocSsrMsg]
    {
      SendMsg(LocSsrMsg);
    }

    /** The message task takes the next message. */
    method BeginMsg()
      requires Valid() && mMsgTask != [] && running.Waiting?
      modifies this`mMsgTask, this`running, this`engine
      ensures Valid() && InSync() && mMsgTask == old(mMsgTask)[1..] && running.Began?
      ensures engine == if old(mMsgTask)[0].LocSsrMsg? then {} else old(engine)
    {
      if mMsgTask[0].LocSsrMsg? {
        Close();
      }
      mMsgTask, running := mMsgTask[1..], Began;
    }

    /** It reads the mask.  Whatever went before, the engine is on its way to the mask of
        the adapters registered now. */
    method ReadMask()
      requires Valid() && running.Began?
      modifies this`running
      ensures Valid() && InSync() && running == HasRead(EvtMask())
    {
      var mask := GetEvtMask();
      running := HasRead(mask);
    }

    /** It opens the engine with the mask it has read. */
    method OpenEngine()
      requires Valid() && running.HasRead?
      modifies this`running, this`engine
      ensures Valid() && running.Waiting? && engine == old(running).mask
      ensures InSync() <==> old(InSync())
    {
      Open(running.mask);
      running := Waiting;
    }
  }

  /** A run in which a removal overtakes the message task: in the end no message is on its
      way and no adapter is registered, and the engine reports an event all the same. */
  method ALateOpen() returns (api: LocApiBase)
    ensures fresh(api) && api.mMsgTask == [] && api.running.Waiting? && api.adapters == []
    ensures api.engine == {0} && !api.InSync()
  {
    api := new LocApiBase({});
    var adapter := new LocAdapterBase({0});
    api.AddAdapter(adapter);
    api.BeginMsg();
    api.ReadMask();
    WantedByOne(adapter);
    api.RemoveAdapter(adapter);
    api.OpenEngine();
  }

  /** Once the queue is quiet, the engine reports an event just when a registered
      adapter wants it and it is not excluded. */
  lemma QuietEngine(api: LocApiBase, event: nat)
    requires api.InSync() && api.mMsgTask == [] && api.running.Waiting?
    ensures event in api.engine <==>
              event !in api.mExcludedMask && exists i :: 0 <= i < |api.adapters| && event in api.adapters[i].mEvtMask
  {
    WantedBySome(api.adapters, event);
  }
}
