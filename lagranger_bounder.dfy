/**
 * The Lagrangian outer-bound spoke: it takes the nonant values received from
 * the hub as input, updates its own W, rescales rho on schedule, and reports
 * the bound of each pass until it is told to stop.
 */
module LagrangerBounder {

  import opened Wrappers
  import opened RhoTable
  import opened RescaleSchedule
  import opened SpokeTrace

  /** The options of the optimisation object that the spoke reads. */
  datatype Options = Options(
    // the parsed "lagranger_rho_rescale_factors_json" file; None when the option is absent or None
    rhoRescaleFactorsJson: Schedule,
    // "lagranger_write_W" and "lagranger_write_xbar", false when absent
    writeW: bool,
    writeXbar: bool,
    // "tee-rank0-solves", when present
    teeRank0Solves: Option<bool>)

  /** The `tee` flag of a solve: the option's value on rank 0 when it is present, and false otherwise. */
  function TeeMe(teeRank0Solves: Option<bool>, cylinderRank: nat): (tee: bool)
    ensures tee <==> teeRank0Solves == Some(true) && cylinderRank == 0
  {
    if teeRank0Solves.Some? && cylinderRank == 0 then teeRank0Solves.value else false
  }

  /** The position of the first kill signal in the answers of successive polls. */
  function FirstKill(kills: seq<bool>): (k: nat)
    requires true in kills
    ensures k < |kills| && kills[k]
    ensures forall j :: 0 <= j < k ==> !kills[j]
  {
    if kills[0] then 0 else 1 + FirstKill(kills[1..])
  }

  /** How far the spoke has come; it stands for the attributes that exist only after a step. */
  datatype Phase = Constructed | Prepared | Iterated | Finalized

  class LagrangerOuterBound {

    /** The local scenarios and their nonant indices, fixed once the scenarios exist. */
    const layout: Layout
    const options: Options
    const cylinderRank: nat
    const iterkSolverOptions: SolverOptions
    /** The value Ebound returns, given the calls made before it and the rho it sees. */
    const eBound: (Log, Rho) -> real

    /**
     * The rho of the local scenarios, which the spoke updates in place. The
     * scenarios, and so their rho, exist only once preparation has created them.
     */
    var rho: Rho
    var currentSolverOptions: SolverOptions
    var rhoRescaleFactors: Schedule
    /**
     * The calls made so far into the optimisation object, the writers and the
     * transport. It is not ghost because Ebound's value is computed from it.
     */
    var trace: Log
    var trivialBound: real
    var bound: real
    var aIter: int
    var finalBound: real
    ghost var phase: Phase

    ghost predicate Valid()
      reads this`rho, this`phase
    {
      layout.Valid() && (phase != Constructed ==> layout.Covers(rho))
    }

    /** What the next pass depends on besides its iteration number. */
    function Config(): PassConfig
      reads this`rhoRescaleFactors, this`currentSolverOptions
    {
      PassConfig(rhoRescaleFactors, options.writeW, options.writeXbar, currentSolverOptions,
                 TeeMe(options.teeRank0Solves, cylinderRank))
    }

    constructor (layout: Layout, options: Options, cylinderRank: nat,
                 currentSolverOptions: SolverOptions, iterkSolverOptions: SolverOptions,
                 eBound: (Log, Rho) -> real)
      requires layout.Valid()
      ensures Valid() && phase == Constructed
      ensures this.layout == layout && this.options == options
      ensures this.cylinderRank == cylinderRank && this.eBound == eBound
      ensures this.currentSolverOptions == currentSolverOptions
      ensures this.iterkSolverOptions == iterkSolverOptions
      ensures rhoRescaleFactors == None && trace == Empty
    {
      this.layout, this.options, this.cylinderRank := layout, options, cylinderRank;
      rho := map[];
      this.currentSolverOptions, this.iterkSolverOptions := currentSolverOptions, iterkSolverOptions;
      this.eBound := eBound;
      rhoRescaleFactors := None;
      trace := Empty;
      trivialBound, bound, aIter, finalBound := 0.0, 0.0, 0, 0.0;
      phase := Constructed;
    }

    /**
     * Creates the scenarios and solvers, loads the rescale schedule and
     * creates the nonant cache. `prepared` is the rho that `PH_Prep` gives
     * the scenarios it creates.
     */
    method LagrangianPrep(prepared: Rho)
      requires Valid() && phase == Constructed && layout.Covers(prepared)
      modifies this`rho, this`rhoRescaleFactors, this`trace, this`phase
      ensures Valid() && phase == Prepared
      ensures rho == prepared
      ensures rhoRescaleFactors == options.rhoRescaleFactorsJson
      ensures trace == AfterPrep(old(trace))
    {
      trace := Then(trace, PHPrep);
      rho := prepared;
      trace := Then(Then(Then(trace, ReenableW), SubproblemCreation), CreateSolvers);
      rhoRescaleFactors := options.rhoRescaleFactorsJson;
      trace := Then(trace, SaveNonants);
      phase := Prepared;
    }

    /** Multiplies the rho of scenario `s` by `rf` at every nonant index of `s`. */
    method RescaleScenario(s: ScenarioName, rf: real)
      requires s in rho && s in layout.nonants && Distinct(layout.nonants[s])
      requires forall i :: i in layout.nonants[s] ==> i in rho[s]
      modifies this`rho
      ensures rho == old(rho)[s := ScaleEntries(old(rho)[s], layout.nonants[s], rf)]
    {
      var indices := layout.nonants[s];
      ghost var r0 := rho[s];
      for j := 0 to |indices|
        invariant s in rho && rho == old(rho)[s := rho[s]]
        invariant rho[s].Keys == r0.Keys
        invariant forall i :: i in r0 ==>
          rho[s][i] == if i in indices[..j] then r0[i] * rf else r0[i]
      {
        var i := indices[j];
        assert i !in indices[..j];
        rho := rho[s := rho[s][i := rho[s][i] * rf]];
      }
      assert indices[..|indices|] == indices;
      forall i | i in r0
        ensures rho[s][i] == ScaleEntries(r0, indices, rf)[i]
      {
      }
      assert rho[s] == ScaleEntries(r0, indices, rf);
    }

    /**
     * Multiplies rho by `rf` for every local scenario and every nonant index
     * of that scenario; every other entry keeps its value.
     */
    method RescaleRho(rf: real)
      requires Valid() && phase != Constructed
      modifies this`rho, this`trace
      ensures Valid()
      ensures rho == Rescaled(old(rho), layout, rf)
      ensures trace == Then(old(trace), Event.RescaleRho(rf))
    {
      ghost var rho0 := rho;
      var scenarios := layout.scenarios;
      for k := 0 to |scenarios|
        modifies this`rho
        invariant rho.Keys == rho0.Keys
        invariant forall s :: s in rho0 && s !in scenarios[..k] ==> rho[s] == rho0[s]
        invariant forall s :: s in rho0 && s in scenarios[..k] ==>
          rho[s] == ScaleEntries(rho0[s], layout.nonants[s], rf)
      {
        var s := scenarios[k];
        assert s !in scenarios[..k];
        RescaleScenario(s, rf);
      }
      assert scenarios[..|scenarios|] == scenarios;
      forall s | s in rho0
        ensures rho[s] == Rescaled(rho0, layout, rf)[s]
      {
      }
      assert rho == Rescaled(rho0, layout, rf);
      trace := Then(trace, Event.RescaleRho(rf));
    }

    /** Rescales rho if the schedule says so, solves the subproblems and returns the bound. */
    method Lagrangian(iternum: int) returns (b: real)
      requires Valid() && phase != Constructed
      modifies this`rho, this`trace
      ensures Valid()
      ensures rho == Rescaled(old(rho), layout, FactorAt(rhoRescaleFactors, iternum))
      ensures FactorFor(rhoRescaleFactors, iternum).None? ==> rho == old(rho)
      ensures trace == AfterLagrangian(old(trace), Config(), iternum)
      ensures b == eBound(BeforeBound(old(trace), Config(), iternum), rho)
    {
      if rhoRescaleFactors.Some? && iternum in rhoRescaleFactors.value {
        RescaleRho(rhoRescaleFactors.value[iternum]);
      } else {
        RescaledByOne(rho, layout);
      }
      var teeme := TeeMe(options.teeRank0Solves, cylinderRank);
      trace := Then(trace, SolveLoop(currentSolverOptions, teeme));
      b := eBound(trace, rho);
      trace := Then(trace, Ebound);
    }

    /** Appends the W and xbar records of iteration `iternum`, each only when configured. */
    method WriteWAndXbar(iternum: int)
      modifies this`trace
      ensures trace == AfterWrite(old(trace), Config(), iternum)
    {
      if options.writeW {
        trace := Then(trace, WriteW(iternum));
      }
      if options.writeXbar {
        trace := Then(trace, WriteXbar(iternum));
      }
    }

    /**
     * One pass: puts the received nonants into the cache, restores them,
     * computes xbar, updates W, writes, and then computes the bound.
     */
    method UpdateWeightsAndSolve(iternum: int) returns (b: real)
      requires Valid() && phase != Constructed
      modifies this`rho, this`trace
      ensures Valid()
      ensures rho == Rescaled(old(rho), layout, FactorAt(rhoRescaleFactors, iternum))
      ensures trace == AfterPass(old(trace), Config(), iternum)
      ensures b == eBound(PassBeforeBound(old(trace), Config(), iternum), rho)
    {
      trace := Then(trace, PutNonantCache);
      trace := Then(trace, RestoreNonants);
      trace := Then(trace, ComputeXbar);
      trace := Then(trace, UpdateW);
      WriteWAndXbar(iternum);
      b := Lagrangian(iternum);
    }

    /** Asks the transport whether to stop; `kills[polls]` is the answer to poll number `polls`. */
    method GotKillSignal(kills: seq<bool>, polls: nat) returns (signal: bool)
      requires polls < |kills|
      modifies this`trace
      ensures signal == kills[polls]
      ensures trace == Then(old(trace), KillPoll(signal))
    {
      signal := kills[polls];
      trace := Then(trace, KillPoll(signal));
    }

    /**
     * The body of the main loop followed by its next poll: a pass with
     * iteration number `aIter`, whose bound becomes the bound, and the
     * increment of `aIter`; `kills[polls]` is the answer of the poll.
     */
    method PassThenPoll(kills: seq<bool>, polls: nat) returns (killed: bool)
      requires Valid() && phase != Constructed && polls < |kills|
      modifies this`rho, this`trace, this`bound, this`aIter
      ensures Valid()
      ensures killed == kills[polls] && aIter == old(aIter) + 1
      ensures rho == Rescaled(old(rho), layout, FactorAt(rhoRescaleFactors, old(aIter)))
      ensures trace == Then(AfterPass(old(trace), Config(), old(aIter)), KillPoll(killed))
      ensures bound == eBound(PassBeforeBound(old(trace), Config(), old(aIter)), rho)
    {
      bound := UpdateWeightsAndSolve(aIter);
      aIter := aIter + 1;
      killed := GotKillSignal(kills, polls);
    }

    /**
     * The main loop: polls the kill signal and, while it says go on, runs a
     * pass with the next iteration number, starting from 1, and keeps its
     * bound. `kills` holds the answers of the successive polls.
     */
    method RunPasses(kills: seq<bool>)
      requires Valid() && phase != Constructed && true in kills && aIter == 1
      modifies this`rho, this`trace, this`bound, this`aIter
      ensures Valid()
      ensures aIter == FirstKill(kills) + 1
      ensures trace == Then(Looped(old(trace), Config(), FirstKill(kills)), KillPoll(true))
      ensures rho == RescaledOver(old(rho), layout, rhoRescaleFactors, 1, FirstKill(kills) + 1)
      ensures FirstKill(kills) == 0 ==> bound == old(bound)
      ensures var k := FirstKill(kills);
              k > 0 ==> bound == eBound(PassBeforeBound(Then(Looped(old(trace), Config(), k - 1), KillPoll(false)), Config(), k), rho)
    {
      ghost var k := FirstKill(kills);
      var polls := 0;
      var killed := GotKillSignal(kills, polls);
      while !killed
        invariant polls <= k && killed == kills[polls]
        invariant forall j :: 0 <= j < polls ==> !kills[j]
        invariant aIter == polls + 1
        invariant Valid()
        invariant trace == Then(Looped(old(trace), Config(), polls), KillPoll(killed))
        invariant rho == RescaledOver(old(rho), layout, rhoRescaleFactors, 1, polls + 1)
        invariant polls == 0 ==> bound == old(bound)
        invariant polls > 0 ==>
          bound == eBound(PassBeforeBound(Then(Looped(old(trace), Config(), polls - 1), KillPoll(false)), Config(), polls), rho)
        decreases k - polls
      {
        polls := polls + 1;
        killed := PassThenPoll(kills, polls);
      }
    }

    /**
     * What the main method does before its loop: prepares, computes the
     * trivial bound with iteration number 0, makes it the bound, switches to
     * the iteration-k solver options and sets the iteration number to 1.
     */
    method Start(prepared: Rho)
      requires Valid() && phase == Constructed && layout.Covers(prepared)
      modifies this`rho, this`trace, this`rhoRescaleFactors, this`trivialBound, this`bound,
               this`currentSolverOptions, this`aIter, this`phase
      ensures Valid() && phase == Prepared
      ensures rhoRescaleFactors == options.rhoRescaleFactorsJson
      ensures currentSolverOptions == iterkSolverOptions && aIter == 1
      ensures trace == AfterLagrangian(AfterPrep(old(trace)),
                                       Config().(solverOptions := old(currentSolverOptions)), 0)
      ensures rho == RescaledOver(prepared, layout, rhoRescaleFactors, 0, 1)
      ensures trivialBound == bound &&
              bound == eBound(BeforeBound(AfterPrep(old(trace)), Config().(solverOptions := old(currentSolverOptions)), 0), rho)
    {
      LagrangianPrep(prepared);
      trivialBound := Lagrangian(0);
      bound := trivialBound;
      currentSolverOptions := iterkSolverOptions;
      aIter := 1;
    }

    /**
     * The main method: prepares, computes the trivial bound, and then runs the loop.
     * `kills` holds the answers of the successive polls of the kill signal,
     * and `prepared` the rho that `PH_Prep` gives the scenarios.
     */
    method Run(kills: seq<bool>, prepared: Rho)
      requires Valid() && phase == Constructed && layout.Covers(prepared) && true in kills
      modifies this`rho, this`trace, this`rhoRescaleFactors, this`trivialBound, this`bound,
               this`currentSolverOptions, this`aIter, this`phase
      ensures Valid() && phase == Iterated
      ensures rhoRescaleFactors == options.rhoRescaleFactorsJson
      ensures currentSolverOptions == iterkSolverOptions
      ensures aIter == FirstKill(kills) + 1
      ensures var t := AfterPrep(old(trace));
              var c0 := Config().(solverOptions := old(currentSolverOptions));
              trivialBound == eBound(BeforeBound(t, c0, 0), RescaledOver(prepared, layout, rhoRescaleFactors, 0, 1))
      ensures var t0 := AfterLagrangian(AfterPrep(old(trace)),
                                        Config().(solverOptions := old(currentSolverOptions)), 0);
              var k := FirstKill(kills);
              trace == Then(Looped(t0, Config(), k), KillPoll(true)) &&
              (k == 0 ==> bound == trivialBound) &&
              (k > 0 ==> bound == eBound(PassBeforeBound(Then(Looped(t0, Config(), k - 1), KillPoll(false)), Config(), k), rho))
      ensures rho == RescaledOver(prepared, layout, rhoRescaleFactors, 0, FirstKill(kills) + 1)
    {
      Start(prepared);
      RunPasses(kills);
      RescaledOverSplit(prepared, layout, rhoRescaleFactors, 0, 1, FirstKill(kills) + 1);
      phase := Iterated;
    }

    /**
     * One final pass with the final weights, using the next unused iteration
     * number; its bound becomes both the final bound and the bound.
     */
    method Finalize() returns (fb: real)
      requires Valid() && (phase == Iterated || phase == Finalized)
      modifies this`rho, this`trace, this`finalBound, this`bound, this`phase
      ensures Valid() && phase == Finalized
      ensures rho == Rescaled(old(rho), layout, FactorAt(rhoRescaleFactors, aIter))
      ensures trace == AfterPass(old(trace), Config(), aIter)
      ensures fb == finalBound && fb == bound
      ensures fb == eBound(PassBeforeBound(old(trace), Config(), aIter), rho)
    {
      finalBound := UpdateWeightsAndSolve(aIter);
      bound := finalBound;
      phase := Finalized;
      fb := finalBound;
    }
  }
}
