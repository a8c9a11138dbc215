/** The time arithmetic of gps/utils/LocTimer.cpp: how deadlines are computed
    and how two of them are ranked in a C `int`. */
module Timespec {
  import opened HeapSpec

  const NS_PER_SEC := 1_000_000_000
  const NS_PER_MS := 1_000_000

  datatype Timespec = Timespec(tv_sec: int, tv_nsec: int) {
    predicate Normalised() { 0 <= tv_nsec < NS_PER_SEC }

    function TotalNs(): int { tv_sec * NS_PER_SEC + tv_nsec }

    /** A larger time ranks lower; seconds first, nanoseconds to break a tie. */
    function Ranks(other: Timespec): int {
      var rank := ToInt32(other.tv_sec - tv_sec);
      if rank == 0 then ToInt32(other.tv_nsec - tv_nsec) else rank
    }

    predicate OutRanks(other: Timespec) { Ranks(other) > 0 }
  }

  /** Conversion to a 32-bit two's complement `int`. */
  function ToInt32(x: int): int {
    var m := x % 0x1_0000_0000;
    if m < 0x8000_0000 then m else m - 0x1_0000_0000
  }

  lemma ToInt32Fits(x: int)
    ensures -0x8000_0000 <= x < 0x8000_0000 ==> ToInt32(x) == x
  {}

  // ----- ranking -----

  ghost predicate RanksByTime(a: Timespec, b: Timespec) {
    a.OutRanks(b) <==> a.TotalNs() < b.TotalNs()
  }

  lemma RanksByTimeWhenClose(a: Timespec, b: Timespec)
    requires a.Normalised() && b.Normalised()
    requires -0x8000_0000 <= b.tv_sec - a.tv_sec < 0x8000_0000
    ensures RanksByTime(a, b)
  {
    ToInt32Fits(b.tv_sec - a.tv_sec);
    ToInt32Fits(b.tv_nsec - a.tv_nsec);
  }

  ghost predicate InWindow(a: Timespec, lo: int, hi: int) {
    a.Normalised() && lo <= a.tv_sec <= hi
  }

  /** Two normalised times just over 2^31 seconds apart are ranked the wrong way round. */
  lemma RankingWraps()
    ensures var a, b := Timespec(0, 0), Timespec(0x8000_0001, 0);
            a.TotalNs() < b.TotalNs() && !a.OutRanks(b) && b.OutRanks(a)
  {}

  /** Ranking agrees with time on all times of a clock window exactly when the
      window spans less than 2^31 seconds. */
  lemma RanksByTimeIffWindowFits(lo: int, hi: int)
    requires lo <= hi
    ensures (forall a, b :: InWindow(a, lo, hi) && InWindow(b, lo, hi) ==> RanksByTime(a, b))
            <==> hi - lo < 0x8000_0000
  {
    if hi - lo < 0x8000_0000 {
      forall a, b | InWindow(a, lo, hi) && InWindow(b, lo, hi) ensures RanksByTime(a, b) {
        RanksByTimeWhenClose(a, b);
      }
    } else {
      var a, b := Timespec(lo, 0), Timespec(lo + 0x8000_0000, 0);
      assert InWindow(a, lo, hi) && InWindow(b, lo, hi) && !RanksByTime(a, b);
    }
  }

  /** Within such a window ranking is what a heap needs: a strict weak order. */
  lemma RanksIsStrictWeakOrder(a: Timespec, b: Timespec, c: Timespec, lo: int, hi: int)
    requires hi - lo < 0x8000_0000
    requires InWindow(a, lo, hi) && InWindow(b, lo, hi) && InWindow(c, lo, hi)
    ensures !a.OutRanks(a)
    ensures a.OutRanks(b) ==> !b.OutRanks(a)
    ensures a.OutRanks(b) && b.OutRanks(c) ==> a.OutRanks(c)
    ensures !a.OutRanks(b) && !b.OutRanks(c) ==> !a.OutRanks(c)
  {
    RanksByTimeWhenClose(a, a);
    RanksByTimeWhenClose(a, b);
    RanksByTimeWhenClose(b, a);
    RanksByTimeWhenClose(b, c);
    RanksByTimeWhenClose(a, c);
  }

  // ----- deadlines -----

  /** The nanosecond field before it is carried into the seconds. */
  function CarryIn(now: Timespec, ms: nat): int { now.tv_nsec + (ms % 1000) * NS_PER_MS }

  function Deadline(now: Timespec, ms: nat): Timespec {
    var sec := now.tv_sec + ms / 1000;
    var nsec := CarryIn(now, ms);
    if nsec >= NS_PER_SEC then Timespec(sec + nsec / NS_PER_SEC, nsec % NS_PER_SEC)
    else Timespec(sec, nsec)
  }

  /** A normalised time exactly `ms` milliseconds later; the intermediate
      nanosecond count fits a 32-bit `long`. */
  lemma DeadlineIsExact(now: Timespec, ms: nat)
    requires now.Normalised()
    ensures Deadline(now, ms).Normalised()
    ensures Deadline(now, ms).TotalNs() == now.TotalNs() + ms * NS_PER_MS
    ensures 0 <= CarryIn(now, ms) <= 1_998_999_999 < 0x8000_0000
  {
    assert ms == (ms / 1000) * 1000 + ms % 1000;
  }

  /** The same on totals: the keys that the heap of the timer service is modelled with. */
  function DeadlineNs(now: int, ms: nat): (t: int)
    ensures t == now + ms * NS_PER_MS
  {
    var clock := Timespec(now / NS_PER_SEC, now % NS_PER_SEC);
    DeadlineIsExact(clock, ms);
    Deadline(clock, ms).TotalNs()
  }

  /** The clock reading up to which no deadline of 32-bit milliseconds reaches 2^31
      seconds: 68 years of uptime less 50 days. */
  const LAST_SAFE_SECOND := 0x8000_0000 - 4_294_968

  /** Deadlines made up to then rank as their totals do, which are the keys that the
      heap of the timer service is modelled with. */
  lemma DeadlinesRankAsKeys(now: Timespec, ms: nat, now': Timespec, ms': nat, id: nat, id': nat)
    requires now.Normalised() && now'.Normalised()
    requires 0 <= now.tv_sec < LAST_SAFE_SECOND && 0 <= now'.tv_sec < LAST_SAFE_SECOND
    requires ms < 0x1_0000_0000 && ms' < 0x1_0000_0000
    ensures Deadline(now, ms).OutRanks(Deadline(now', ms'))
            <==> LocRankable(id, now.TotalNs() + ms * NS_PER_MS).OutRanks(LocRankable(id', now'.TotalNs() + ms' * NS_PER_MS))
  {
    DeadlineIsExact(now, ms);
    DeadlineIsExact(now', ms');
    RanksByTimeWhenClose(Deadline(now, ms), Deadline(now', ms'));
  }

  /** `loc_timer_start` takes 64-bit milliseconds and hands them to a 32-bit
      parameter. */
  function WrapperDeadline(now: Timespec, msec: nat): Timespec {
    Deadline(now, msec % 0x1_0000_0000)
  }

  lemma WrapperDeadlineExactIff(now: Timespec, msec: nat)
    requires now.Normalised()
    ensures WrapperDeadline(now, msec).TotalNs() == now.TotalNs() + (msec % 0x1_0000_0000) * NS_PER_MS
    ensures WrapperDeadline(now, msec).TotalNs() == now.TotalNs() + msec * NS_PER_MS
            <==> msec < 0x1_0000_0000
  {
    DeadlineIsExact(now, msec % 0x1_0000_0000);
  }
}
