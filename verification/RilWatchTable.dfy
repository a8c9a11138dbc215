/** libril/ril_event.cpp: the slots of watched events, mirrored into a descriptor
    set, with the bound on descriptors that select is given. */
module RilWatchTable {
  import opened RilEvent

  const MAX_FD_EVENTS: nat := 8

  /** `fds` gives the descriptor watched in each slot, -1 for a free one; a watched
      event knows its slot. */
  ghost predicate Slotted(slots: seq<RilEvent?>, fds: seq<int>)
    reads slots`fd, slots`index
  {
    && |fds| == |slots|
    && forall i :: 0 <= i < |slots| ==>
         if slots[i] == null then fds[i] == -1
         else slots[i].index == i && slots[i].fd == fds[i] && 0 <= fds[i]
  }

  /** No descriptor is watched twice, and the descriptor set holds just the watched
      ones. */
  ghost predicate Mirrored(fds: seq<int>, readFds: set<int>) {
    && (forall i, j :: 0 <= i < j < |fds| && 0 <= fds[i] ==> fds[i] != fds[j])
    && (forall i :: 0 <= i < |fds| && 0 <= fds[i] ==> fds[i] in readFds)
    && (forall fd <- readFds :: 0 <= fd && fd in fds)
  }

  /** `nfds` is one more than the largest watched descriptor; with nothing to watch
      it is 0 at first and 1 ever after. */
  ghost predicate NfdsFits(readFds: set<int>, nfds: int) {
    && (forall fd <- readFds :: fd < nfds)
    && (if readFds == {} then 0 <= nfds <= 1 else nfds - 1 in readFds)
  }

  lemma Cleared(fds: seq<int>, readFds: set<int>, i: nat)
    requires Mirrored(fds, readFds) && i < |fds| && 0 <= fds[i]
    ensures Mirrored(fds[i := -1], readFds - {fds[i]})
  {
    forall fd | fd in readFds - {fds[i]} ensures fd in fds[i := -1] {
      var j :| 0 <= j < |fds| && fds[j] == fd;
      assert fds[i := -1][j] == fd;
    }
  }

  lemma Filled(fds: seq<int>, readFds: set<int>, i: nat, fd: int)
    requires Mirrored(fds, readFds) && i < |fds| && fds[i] == -1 && 0 <= fd && fd !in readFds
    ensures Mirrored(fds[i := fd], readFds + {fd})
  {
    forall f | f in readFds + {fd} ensures f in fds[i := fd] {
      assert fds[i := fd][i] == fd;
      if f != fd {
        var j :| 0 <= j < |fds| && fds[j] == f;
        assert fds[i := fd][j] == f;
      }
    }
  }

  lemma StillFits(readFds: set<int>, nfds: int, fd: int)
    requires NfdsFits(readFds, nfds) && fd in readFds && fd + 1 != nfds
    ensures NfdsFits(readFds - {fd}, nfds)
  {
    assert nfds - 1 in readFds - {fd};
  }

  /** The first free slot; past the end when the table is full. */
  function FirstFree(fds: seq<int>): (i: nat)
    ensures i <= |fds| && (i < |fds| ==> fds[i] == -1)
    ensures forall j :: 0 <= j < i ==> fds[j] != -1
  {
    if fds == [] || fds[0] == -1 then 0 else 1 + FirstFree(fds[1..])
  }

  class WatchTable {
    const watchTable: array<RilEvent?>
    var readFds: set<int>
    var nfds: int
    /** What the table holds, and the descriptors of that. */
    ghost var slots: seq<RilEvent?>
    ghost var fds: seq<int>
    /** Every event handed out by ril_event_set. */
    ghost var known: set<RilEvent>

    ghost predicate Mapped()
      reads this`slots, this`fds, this`readFds, watchTable, slots`fd, slots`index
    { watchTable[..] == slots && |slots| == MAX_FD_EVENTS && Slotted(slots, fds) && Mirrored(fds, readFds) }

    ghost predicate Valid()
      reads this, watchTable, slots`fd, slots`index
    { Mapped() && NfdsFits(readFds, nfds) }

    /** ev.index is i exactly when the table holds ev in slot i. */
    ghost predicate Knows(ev: RilEvent)
      reads this`slots, ev`index
    {
      if 0 <= ev.index < |slots| then slots[ev.index] == ev else ev.index == -1 && ev !in slots
    }

    ghost predicate Indexed()
      reads this`slots, this`known, known`index
    {
      && (forall e <- known :: Knows(e))
      && (forall i :: 0 <= i < |slots| && slots[i] != null ==> slots[i] in known)
    }

    /** ril_event_init */
    constructor ()
      ensures Valid() && fresh(watchTable) && readFds == {} && nfds == 0
      ensures slots == seq(MAX_FD_EVENTS, _ => null) && known == {}
    {
      watchTable := new RilEvent?[MAX_FD_EVENTS](_ => null);
      readFds, nfds := {}, 0;
      slots, fds, known := seq(MAX_FD_EVENTS, _ => null), seq(MAX_FD_EVENTS, _ => -1), {};
    }

    method RilEventSet(fd: int, persist: bool) returns (ev: RilEvent)
      requires Valid() && Indexed()
      modifies this`known
      ensures Valid() && Indexed() && fresh(ev) && known == old(known) + {ev}
      ensures ev.fd == fd && ev.persist == persist && ev.index == -1
    {
      ev := new RilEvent(fd, persist);
      assert ev !in slots;
      known := known + {ev};
    }

    method RemoveWatch(ev: RilEvent, index: nat)
      requires Valid() && Indexed() && index < MAX_FD_EVENTS && slots[index] == ev
      modifies watchTable, this, ev`index
      ensures Valid() && Indexed() && known == old(known) && ev.index == -1
      ensures slots == old(slots)[index := null] && readFds == old(readFds) - {ev.fd}
    {
      ClearSlot(ev, index);
      if ev.fd + 1 != nfds {
        StillFits(old(readFds), nfds, ev.fd);
      }
      if ev.fd + 1 == nfds {
        var n := LargestFd();
        nfds := n + 1;
      }
    }

    /** removeWatch up to the new bound. */
    method ClearSlot(ev: RilEvent, index: nat)
      requires Mapped() && Indexed() && index < MAX_FD_EVENTS && slots[index] == ev
      modifies watchTable, this`slots, this`fds, this`readFds, ev`index
      ensures Mapped() && Indexed() && ev.index == -1
      ensures slots == old(slots)[index := null] && readFds == old(readFds) - {ev.fd}
    {
      Cleared(fds, readFds, index);
      watchTable[index] := null;
      ev.index := -1;
      readFds := readFds - {ev.fd};
      slots, fds := slots[index := null], fds[index := -1];
    }

    /** The loop of removeWatch; 0 when there is nothing to watch. */
    method LargestFd() returns (n: int)
      requires Mapped()
      ensures forall fd <- readFds :: fd <= n
      ensures if readFds == {} then n == 0 else n in readFds
    {
      n := 0;
      for i := 0 to MAX_FD_EVENTS
        invariant 0 <= n
        invariant forall j :: 0 <= j < i ==> fds[j] <= n
        invariant n == 0 || n in readFds
      {
        var rev := watchTable[i];
        if rev != null && rev.fd > n {
          n := rev.fd;
        }
      }
      if n == 0 && 0 !in readFds {
        assert forall fd :: fd !in readFds;
      }
    }

    /** Watches the event in the first free slot; does nothing when there is none. */
    method RilEventAdd(ev: RilEvent)
      requires Valid() && Indexed() && ev in known
      requires ev.index == -1 && 0 <= ev.fd && ev.fd !in readFds
      modifies watchTable, this, ev`index
      ensures Valid() && Indexed() && known == old(known)
      ensures var i := FirstFree(old(fds));
              if i < MAX_FD_EVENTS
              then slots == old(slots)[i := ev] && ev.index == i && readFds == old(readFds) + {ev.fd}
              else slots == old(slots) && ev.index == -1 && readFds == old(readFds) && nfds == old(nfds)
    {
      for i := 0 to MAX_FD_EVENTS
        invariant forall j :: 0 <= j < i ==> fds[j] != -1
        invariant Valid() && slots == old(slots) && fds == old(fds) && readFds == old(readFds) && nfds == old(nfds)
        invariant ev.index == -1 && Indexed() && known == old(known)
      {
        if watchTable[i] == null {
          FillSlot(ev, i);
          break;
        }
      }
    }

    method SetSlot(ev: RilEvent, i: nat)
      requires Mapped() && Indexed() && ev in known && ev.index == -1 && 0 <= ev.fd && ev.fd !in readFds
      requires i < MAX_FD_EVENTS && slots[i] == null
      modifies watchTable, this`slots, this`fds, this`readFds, ev`index
      ensures Mapped() && Indexed()
      ensures slots == old(slots)[i := ev] && ev.index == i && readFds == old(readFds) + {ev.fd}
    {
      Filled(fds, readFds, i, ev.fd);
      watchTable[i] := ev;
      ev.index := i;
      readFds := readFds + {ev.fd};
      slots, fds := slots[i := ev], fds[i := ev.fd];
    }

    method FillSlot(ev: RilEvent, i: nat)
      requires Valid() && Indexed() && ev in known && ev.index == -1 && 0 <= ev.fd && ev.fd !in readFds
      requires i < MAX_FD_EVENTS && slots[i] == null
      modifies watchTable, this, ev`index
      ensures Valid() && Indexed() && known == old(known)
      ensures slots == old(slots)[i := ev] && ev.index == i && readFds == old(readFds) + {ev.fd}
    {
      SetSlot(ev, i);
      if ev.fd >= nfds {
        nfds := ev.fd + 1;
      }
    }

    /** Stops watching the event; one that is not watched is left alone. */
    method RilEventDel(ev: RilEvent)
      requires Valid() && Indexed() && ev in known
      modifies watchTable, this, ev`index
      ensures Valid() && Indexed() && known == old(known) && ev.index == -1
      ensures if old(ev.index) == -1 then slots == old(slots) && readFds == old(readFds) && nfds == old(nfds)
              else slots == old(slots)[old(ev.index) := null] && readFds == old(readFds) - {ev.fd}
    {
      if ev.index < 0 || ev.index >= MAX_FD_EVENTS {
        return;
      }
      RemoveWatch(ev, ev.index);
    }
  }
}
