/**
 * The penalty coefficients (rho) of the spoke's local scenarios, and their
 * multiplicative rescaling.
 */
module RhoTable {

  type ScenarioName = string

  /** A nonant index: the name of a scenario-tree node and a position in it. */
  type NonantIndex = (string, nat)

  /** One scenario's rho, indexed by nonant index. */
  type ScenarioRho = map<NonantIndex, real>

  /** Every local scenario's rho, by scenario name. */
  type Rho = map<ScenarioName, ScenarioRho>

  predicate Distinct<T(==)>(xs: seq<T>) {
    forall a, b :: 0 <= a < b < |xs| ==> xs[a] != xs[b]
  }

  /**
   * The local scenarios in the order of their dictionary, and for each the
   * nonant indices of that scenario, also in dictionary order.
   */
  datatype Layout = Layout(scenarios: seq<ScenarioName>, nonants: map<ScenarioName, seq<NonantIndex>>) {

    /** Dictionary keys are distinct, and every local scenario has its nonant indices. */
    predicate Valid() {
      Distinct(scenarios) &&
      forall s :: s in scenarios ==> s in nonants && Distinct(nonants[s])
    }

    /** Every nonant of every local scenario has a rho entry. */
    predicate Covers(rho: Rho) {
      forall s :: s in scenarios ==>
        s in rho && s in nonants && forall i :: i in nonants[s] ==> i in rho[s]
    }

    /** Whether entry `i` of scenario `s` is one that a rescale multiplies. */
    predicate Scales(s: ScenarioName, i: NonantIndex) {
      s in scenarios && s in nonants && i in nonants[s]
    }
  }

  /** One scenario's rho with the entries at `indices` multiplied by `rf`. */
  function ScaleEntries(r: ScenarioRho, indices: seq<NonantIndex>, rf: real): (r': ScenarioRho)
    ensures r'.Keys == r.Keys
  {
    map i | i in r :: if i in indices then r[i] * rf else r[i]
  }

  /**
   * The rho table after multiplying, in every local scenario, the entry of
   * every nonant index of that scenario by `rf`. Every other entry, and every
   * scenario that is not local, keeps its value.
   */
  function Rescaled(rho: Rho, layout: Layout, rf: real): (r: Rho)
    ensures r.Keys == rho.Keys
    ensures forall s :: s in rho ==> r[s].Keys == rho[s].Keys
  {
    map s | s in rho ::
      if s in layout.scenarios && s in layout.nonants
      then ScaleEntries(rho[s], layout.nonants[s], rf)
      else rho[s]
  }

  /** Entry `i` of scenario `s` after a rescale, stated entry by entry. */
  lemma RescaledAt(rho: Rho, layout: Layout, rf: real, s: ScenarioName, i: NonantIndex)
    requires s in rho && i in rho[s]
    ensures Rescaled(rho, layout, rf)[s][i] ==
            if layout.Scales(s, i) then rho[s][i] * rf else rho[s][i]
  {
  }

  /** Rescalings accumulate: `a` and then `b` is one rescale by `a * b`. */
  lemma RescaledComposes(rho: Rho, layout: Layout, a: real, b: real)
    ensures Rescaled(Rescaled(rho, layout, a), layout, b) == Rescaled(rho, layout, a * b)
  {
    var lhs, rhs := Rescaled(Rescaled(rho, layout, a), layout, b), Rescaled(rho, layout, a * b);
    forall s | s in rho
      ensures lhs[s] == rhs[s]
    {
      forall i | i in rho[s]
        ensures lhs[s][i] == rhs[s][i]
      {
        RescaledAt(rho, layout, a, s, i);
        RescaledAt(Rescaled(rho, layout, a), layout, b, s, i);
        RescaledAt(rho, layout, a * b, s, i);
        MulAssoc(rho[s][i], a, b);
      }
    }
  }

  lemma MulAssoc(x: real, a: real, b: real)
    ensures x * a * b == x * (a * b)
  {
  }

  /** A rescale by 1 changes nothing. */
  lemma RescaledByOne(rho: Rho, layout: Layout)
    ensures Rescaled(rho, layout, 1.0) == rho
  {
    var r := Rescaled(rho, layout, 1.0);
    forall s | s in rho
      ensures r[s] == rho[s]
    {
      forall i | i in rho[s]
        ensures r[s][i] == rho[s][i]
      {
        RescaledAt(rho, layout, 1.0, s, i);
      }
    }
  }

  /** A rescale is undone by a later rescale by the inverse factor. */
  lemma RescaledUndone(rho: Rho, layout: Layout, rf: real, inverse: real)
    requires rf * inverse == 1.0
    ensures Rescaled(Rescaled(rho, layout, rf), layout, inverse) == rho
  {
    RescaledComposes(rho, layout, rf, inverse);
    RescaledByOne(rho, layout);
  }

  /** Scaling by 0.5 and later by 2.0 gets back to where one started. */
  lemma HalfThenDouble(rho: Rho, layout: Layout)
    ensures Rescaled(Rescaled(rho, layout, 0.5), layout, 2.0) == rho
  {
    RescaledUndone(rho, layout, 0.5, 2.0);
  }

  /** The product of a sequence of factors. */
  function Product(fs: seq<real>): real {
    if fs == [] then 1.0 else fs[0] * Product(fs[1..])
  }

  lemma ProductAppend(fs: seq<real>, gs: seq<real>)
    ensures Product(fs + gs) == Product(fs) * Product(gs)
  {
    if fs == [] {
      assert fs + gs == gs;
    } else {
      assert (fs + gs)[0] == fs[0];
      assert (fs + gs)[1..] == fs[1..] + gs;
      ProductAppend(fs[1..], gs);
      MulAssoc(fs[0], Product(fs[1..]), Product(gs));
    }
  }
}
