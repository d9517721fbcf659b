/**
 * The optional rho rescale schedule: a map from iteration number to the
 * factor by which rho is multiplied at that iteration.
 */
module RescaleSchedule {

  import opened Wrappers
  import opened RhoTable

  /** The parsed schedule, or `None` when no schedule file is configured. */
  type Schedule = Option<map<int, real>>

  /** The factor scheduled for iteration `iternum`, if a rescale fires there. */
  function FactorFor(schedule: Schedule, iternum: int): (f: Option<real>)
    ensures f.Some? <==> schedule.Some? && iternum in schedule.value
    ensures f.Some? ==> f.value == schedule.value[iternum]
  {
    match schedule
    case None => None
    case Some(factors) => if iternum in factors then Some(factors[iternum]) else None
  }

  /** The factor iteration `iternum` applies to rho: 1 when no rescale fires. */
  function FactorAt(schedule: Schedule, iternum: int): real {
    match FactorFor(schedule, iternum)
    case Some(f) => f
    case None => 1.0
  }

  /** The product of the factors applied by iterations `lo` up to, not including, `hi`. */
  function NetFactor(schedule: Schedule, lo: int, hi: int): real
    decreases hi - lo
  {
    if hi <= lo then 1.0 else NetFactor(schedule, lo, hi - 1) * FactorAt(schedule, hi - 1)
  }

  /** One more iteration multiplies the net factor by that iteration's factor. */
  lemma NetFactorStep(schedule: Schedule, lo: int, hi: int)
    requires lo <= hi
    ensures NetFactor(schedule, lo, hi + 1) == NetFactor(schedule, lo, hi) * FactorAt(schedule, hi)
  {
  }

  /** The factors of the rescales that fire in iterations `lo` up to, not including, `hi`, in order. */
  function FiredFactors(schedule: Schedule, lo: int, hi: int): seq<real>
    decreases hi - lo
  {
    if hi <= lo then []
    else FiredFactors(schedule, lo, hi - 1) +
         match FactorFor(schedule, hi - 1) { case Some(f) => [f] case None => [] }
  }

  /** The net factor of a run of iterations is the product of the rescales that fired in it. */
  lemma {:induction false} NetFactorIsProduct(schedule: Schedule, lo: int, hi: int)
    ensures NetFactor(schedule, lo, hi) == Product(FiredFactors(schedule, lo, hi))
    decreases hi - lo
  {
    if hi > lo {
      var front := FiredFactors(schedule, lo, hi - 1);
      NetFactorIsProduct(schedule, lo, hi - 1);
      match FactorFor(schedule, hi - 1)
      case Some(f) =>
        ProductAppend(front, [f]);
        assert Product([f]) == f * Product([]);
      case None =>
        assert front + [] == front;
    }
  }

  /** Net factors of adjacent runs of iterations multiply. */
  lemma {:induction false} NetFactorSplit(schedule: Schedule, lo: int, mid: int, hi: int)
    requires lo <= mid <= hi
    ensures NetFactor(schedule, lo, hi) == NetFactor(schedule, lo, mid) * NetFactor(schedule, mid, hi)
    decreases hi - mid
  {
    if hi > mid {
      NetFactorSplit(schedule, lo, mid, hi - 1);
      var a, b, c := NetFactor(schedule, lo, mid), NetFactor(schedule, mid, hi - 1), FactorAt(schedule, hi - 1);
      MulAssoc(a, b, c);
    }
  }

  /** The rescales of adjacent runs of iterations follow one another. */
  lemma {:induction false} FiredFactorsSplit(schedule: Schedule, lo: int, mid: int, hi: int)
    requires lo <= mid <= hi
    ensures FiredFactors(schedule, lo, hi) == FiredFactors(schedule, lo, mid) + FiredFactors(schedule, mid, hi)
    decreases hi - mid
  {
    if hi == mid {
      assert FiredFactors(schedule, lo, mid) + [] == FiredFactors(schedule, lo, mid);
    } else {
      FiredFactorsSplit(schedule, lo, mid, hi - 1);
    }
  }

  /**
   * The rho an iteration sees, once rescaled by the net factor of the
   * iterations from `lo` before it, is the rho rescaled by the net factor through it.
   */
  lemma RescaledThroughIteration(rho: Rho, layout: Layout, schedule: Schedule, lo: int, n: int)
    requires lo <= n
    ensures Rescaled(Rescaled(rho, layout, NetFactor(schedule, lo, n)), layout, FactorAt(schedule, n)) ==
            Rescaled(rho, layout, NetFactor(schedule, lo, n + 1))
  {
    var net, f := NetFactor(schedule, lo, n), FactorAt(schedule, n);
    RescaledComposes(rho, layout, net, f);
    NetFactorStep(schedule, lo, n);
    assert NetFactor(schedule, lo, n + 1) == net * f;
  }

  /**
   * The rho table after the rescales of iterations `lo` up to, not
   * including, `hi`, applied one iteration at a time in turn.
   */
  function RescaledOver(rho: Rho, layout: Layout, schedule: Schedule, lo: int, hi: int): Rho
    decreases hi - lo
  {
    if hi <= lo then rho
    else Rescaled(RescaledOver(rho, layout, schedule, lo, hi - 1), layout, FactorAt(schedule, hi - 1))
  }

  /** The rescales of a run of iterations, in turn, are one rescale by their net factor. */
  lemma {:induction false} RescaledOverIsNet(rho: Rho, layout: Layout, schedule: Schedule, lo: int, hi: int)
    ensures RescaledOver(rho, layout, schedule, lo, hi) == Rescaled(rho, layout, NetFactor(schedule, lo, hi))
    decreases hi - lo
  {
    if hi <= lo {
      RescaledByOne(rho, layout);
    } else {
      RescaledOverIsNet(rho, layout, schedule, lo, hi - 1);
      RescaledThroughIteration(rho, layout, schedule, lo, hi - 1);
    }
  }

  /** The rescales of two adjacent runs of iterations, in turn, are those of the whole run. */
  lemma {:induction false} RescaledOverSplit(rho: Rho, layout: Layout, schedule: Schedule, lo: int, mid: int, hi: int)
    requires lo <= mid <= hi
    ensures RescaledOver(RescaledOver(rho, layout, schedule, lo, mid), layout, schedule, mid, hi) ==
            RescaledOver(rho, layout, schedule, lo, hi)
    decreases hi - mid
  {
    if hi > mid {
      RescaledOverSplit(rho, layout, schedule, lo, mid, hi - 1);
    }
  }

  /** Over iterations none of which is a key of the schedule, no rescale fires and rho is not changed. */
  lemma {:induction false} UnscheduledRun(schedule: Schedule, lo: int, hi: int)
    requires forall n :: lo <= n < hi ==> FactorFor(schedule, n).None?
    ensures NetFactor(schedule, lo, hi) == 1.0
    ensures FiredFactors(schedule, lo, hi) == []
    decreases hi - lo
  {
    if hi > lo {
      UnscheduledRun(schedule, lo, hi - 1);
    }
  }

  /** With no schedule configured, rho is never rescaled, over any run of iterations. */
  lemma NoScheduleNeverRescales(rho: Rho, layout: Layout, lo: int, hi: int)
    ensures FiredFactors(None, lo, hi) == []
    ensures Rescaled(rho, layout, NetFactor(None, lo, hi)) == rho
  {
    UnscheduledRun(None, lo, hi);
    RescaledByOne(rho, layout);
  }

  /**
   * Under the schedule {3: 0.5, 6: 2.0}, the rho seen by the solve of
   * iteration 6 equals the rho seen by the solve of iteration 1.
   */
  lemma HalvedThenDoubled(rho: Rho, layout: Layout)
    ensures var schedule := Some(map[3 := 0.5, 6 := 2.0]);
            RescaledOver(rho, layout, schedule, 0, 7) == RescaledOver(rho, layout, schedule, 0, 2)
  {
    var schedule := Some(map[3 := 0.5, 6 := 2.0]);
    RescaledOverIsNet(rho, layout, schedule, 0, 7);
    RescaledOverIsNet(rho, layout, schedule, 0, 2);
    HalvedThenDoubledNet();
  }

  /** Under the schedule {3: 0.5, 6: 2.0}, iterations 0 to 6 and 0 to 1 have the same net factor. */
  lemma HalvedThenDoubledNet()
    ensures var schedule := Some(map[3 := 0.5, 6 := 2.0]);
            NetFactor(schedule, 0, 7) == NetFactor(schedule, 0, 2)
  {
    var schedule := Some(map[3 := 0.5, 6 := 2.0]);
    assert FactorAt(schedule, 2) == 1.0 && FactorAt(schedule, 4) == 1.0 && FactorAt(schedule, 5) == 1.0;
    assert NetFactor(schedule, 2, 7) == 1.0 by {
      assert NetFactor(schedule, 2, 2) == 1.0;
      assert NetFactor(schedule, 2, 3) == 1.0;
      assert NetFactor(schedule, 2, 4) == 0.5;
      assert NetFactor(schedule, 2, 5) == 0.5;
      assert NetFactor(schedule, 2, 6) == 0.5;
    }
    NetFactorSplit(schedule, 0, 2, 7);
  }
}
