/**
 * The calls the spoke makes into its optimisation object and its transport,
 * recorded as a trace of events, and the trace each step of the spoke adds.
 */
module SpokeTrace {

  import opened Wrappers
  import opened RescaleSchedule

  /** Solver options handed to the solve loop; what they mean is the solver's concern. */
  type SolverOptions = map<string, string>

  /** One call into the optimisation object, the spoke's writers or the kill-signal transport. */
  datatype Event =
    | PHPrep
    | ReenableW
    | SubproblemCreation
    | CreateSolvers
    | SaveNonants
    | PutNonantCache
    | RestoreNonants
    | ComputeXbar
    | UpdateW
    | WriteW(iternum: int)
    | WriteXbar(iternum: int)
    | RescaleRho(factor: real)
    | SolveLoop(solverOptions: SolverOptions, tee: bool)
    | Ebound
    | KillPoll(signal: bool)

  /** What a pass depends on besides its iteration number. */
  datatype PassConfig = PassConfig(
    schedule: Schedule,
    writeW: bool,
    writeXbar: bool,
    solverOptions: SolverOptions,
    tee: bool)

  /** Preparation: scenario creation, solvers, and the snapshot that creates the nonant cache. */
  const PREP_EVENTS: seq<Event> := [PHPrep, ReenableW, SubproblemCreation, CreateSolvers, SaveNonants]

  /** The start of a weight-update pass: consume the received nonants, then xbar and W. */
  const WEIGHT_UPDATE_EVENTS: seq<Event> := [PutNonantCache, RestoreNonants, ComputeXbar, UpdateW]

  /** The rescale iteration `iternum` performs, if its number is a key of the schedule. */
  function RescaleEvents(schedule: Schedule, iternum: int): seq<Event> {
    match FactorFor(schedule, iternum)
    case Some(f) => [RescaleRho(f)]
    case None => []
  }

  /** One Lagrangian bound computation: optional rescale, solve, bound. */
  function LagrangianEvents(c: PassConfig, iternum: int): seq<Event> {
    RescaleEvents(c.schedule, iternum) + [SolveLoop(c.solverOptions, c.tee), Ebound]
  }

  /** The W and xbar records written at iteration `iternum`, as configured. */
  function WriteEvents(c: PassConfig, iternum: int): seq<Event> {
    (if c.writeW then [WriteW(iternum)] else []) + (if c.writeXbar then [WriteXbar(iternum)] else [])
  }

  /** One weight-update-and-solve pass with iteration number `iternum`. */
  function PassEvents(c: PassConfig, iternum: int): seq<Event> {
    WEIGHT_UPDATE_EVENTS + WriteEvents(c, iternum) + LagrangianEvents(c, iternum)
  }

  /** The main loop's first `passes` rounds: a kill-signal poll that says go on, then a pass. */
  function LoopEvents(c: PassConfig, passes: nat): seq<Event> {
    if passes == 0 then []
    else LoopEvents(c, passes - 1) + [KillPoll(false)] + PassEvents(c, passes)
  }

  /**
   * The log of calls made so far, newest last. Each step of the spoke
   * extends the log it found, so the log after a step is a term built
   * from the log before it.
   */
  datatype Log = Empty | Then(earlier: Log, last: Event)

  /** The calls of a log, oldest first. */
  function Calls(l: Log): seq<Event> {
    match l
    case Empty => []
    case Then(earlier, e) => Calls(earlier) + [e]
  }

  // The steps of the spoke as functions from the log before a step to the
  // log after it, one call added at a time in the order the spoke makes them.

  function AfterPrep(l: Log): Log {
    Then(Then(Then(Then(Then(l, PHPrep), ReenableW), SubproblemCreation), CreateSolvers), SaveNonants)
  }

  function AfterRescale(l: Log, schedule: Schedule, iternum: int): Log {
    match FactorFor(schedule, iternum)
    case Some(f) => Then(l, RescaleRho(f))
    case None => l
  }

  /** The log Ebound sees: everything up to and including the solve. */
  function BeforeBound(l: Log, c: PassConfig, iternum: int): Log {
    Then(AfterRescale(l, c.schedule, iternum), SolveLoop(c.solverOptions, c.tee))
  }

  function AfterLagrangian(l: Log, c: PassConfig, iternum: int): Log {
    Then(BeforeBound(l, c, iternum), Ebound)
  }

  function AfterWrite(l: Log, c: PassConfig, iternum: int): Log {
    var l' := if c.writeW then Then(l, WriteW(iternum)) else l;
    if c.writeXbar then Then(l', WriteXbar(iternum)) else l'
  }

  function AfterWeightUpdate(l: Log): Log {
    Then(Then(Then(Then(l, PutNonantCache), RestoreNonants), ComputeXbar), UpdateW)
  }

  /** The log Ebound sees in a pass: everything up to and including the pass's solve. */
  function PassBeforeBound(l: Log, c: PassConfig, iternum: int): Log {
    BeforeBound(AfterWrite(AfterWeightUpdate(l), c, iternum), c, iternum)
  }

  function AfterPass(l: Log, c: PassConfig, iternum: int): Log {
    Then(PassBeforeBound(l, c, iternum), Ebound)
  }

  /** The log after the main loop's first `passes` rounds. */
  function Looped(l: Log, c: PassConfig, passes: nat): Log {
    if passes == 0 then l
    else AfterPass(Then(Looped(l, c, passes - 1), KillPoll(false)), c, passes)
  }

  lemma AppendAssoc<T>(a: seq<T>, b: seq<T>, c: seq<T>, d: seq<T>)
    ensures a + b + c + d == a + (b + c + d)
  {
  }

  /** Preparation adds exactly its five calls. */
  lemma AfterPrepAdds(l: Log)
    ensures Calls(AfterPrep(l)) == Calls(l) + PREP_EVENTS
  {
    var l1 := Then(Then(l, PHPrep), ReenableW);
    var l2 := Then(Then(l1, SubproblemCreation), CreateSolvers);
    assert Calls(l1) == Calls(l) + [PHPrep] + [ReenableW];
    assert Calls(l2) == Calls(l1) + [SubproblemCreation] + [CreateSolvers];
    assert Calls(AfterPrep(l)) == Calls(l2) + [SaveNonants];
  }

  /** The weight update adds exactly its four calls. */
  lemma AfterWeightUpdateAdds(l: Log)
    ensures Calls(AfterWeightUpdate(l)) == Calls(l) + WEIGHT_UPDATE_EVENTS
  {
    var l1 := Then(Then(l, PutNonantCache), RestoreNonants);
    assert Calls(l1) == Calls(l) + [PutNonantCache] + [RestoreNonants];
    assert Calls(AfterWeightUpdate(l)) == Calls(l1) + [ComputeXbar] + [UpdateW];
  }

  /** A bound computation adds exactly its calls; Ebound sees all of them but itself. */
  lemma AfterLagrangianAdds(l: Log, c: PassConfig, iternum: int)
    ensures Calls(AfterLagrangian(l, c, iternum)) == Calls(l) + LagrangianEvents(c, iternum)
    ensures Calls(AfterLagrangian(l, c, iternum)) == Calls(BeforeBound(l, c, iternum)) + [Ebound]
  {
    var t, solve := Calls(l), SolveLoop(c.solverOptions, c.tee);
    match FactorFor(c.schedule, iternum)
    case Some(f) =>
      assert Calls(AfterRescale(l, c.schedule, iternum)) == t + [RescaleRho(f)];
      assert Calls(AfterLagrangian(l, c, iternum)) == t + [RescaleRho(f)] + [solve] + [Ebound];
      AppendAssoc(t, [RescaleRho(f)], [solve], [Ebound]);
    case None =>
      assert Calls(AfterLagrangian(l, c, iternum)) == t + [solve] + [Ebound];
      assert LagrangianEvents(c, iternum) == [solve] + [Ebound];
  }

  /** The writes add exactly the configured records. */
  lemma AfterWriteAdds(l: Log, c: PassConfig, iternum: int)
    ensures Calls(AfterWrite(l, c, iternum)) == Calls(l) + WriteEvents(c, iternum)
  {
    var t := Calls(l);
    var ws, xs := if c.writeW then [WriteW(iternum)] else [], if c.writeXbar then [WriteXbar(iternum)] else [];
    assert Calls(AfterWrite(l, c, iternum)) == t + ws + xs;
    assert t + ws + xs == t + (ws + xs);
  }

  /** A pass adds exactly its calls; Ebound sees all of them but itself. */
  lemma AfterPassAdds(l: Log, c: PassConfig, iternum: int)
    ensures Calls(AfterPass(l, c, iternum)) == Calls(l) + PassEvents(c, iternum)
    ensures Calls(AfterPass(l, c, iternum)) == Calls(PassBeforeBound(l, c, iternum)) + [Ebound]
  {
    var t, u := Calls(l), AfterWeightUpdate(l);
    AfterWeightUpdateAdds(l);
    var w := AfterWrite(u, c, iternum);
    AfterWriteAdds(u, c, iternum);
    AfterLagrangianAdds(w, c, iternum);
    assert AfterPass(l, c, iternum) == AfterLagrangian(w, c, iternum);
    AppendAssoc(t, WEIGHT_UPDATE_EVENTS, WriteEvents(c, iternum), LagrangianEvents(c, iternum));
  }

  /** One more round adds a poll that says go on and the next pass. */
  lemma LoopedStep(l: Log, c: PassConfig, passes: nat)
    ensures Calls(Looped(l, c, passes + 1)) == Calls(Looped(l, c, passes)) + [KillPoll(false)] + PassEvents(c, passes + 1)
  {
    AfterPassAdds(Then(Looped(l, c, passes), KillPoll(false)), c, passes + 1);
  }

  /** The loop's rounds add exactly their calls. */
  lemma {:induction false} LoopedAdds(l: Log, c: PassConfig, passes: nat)
    ensures Calls(Looped(l, c, passes)) == Calls(l) + LoopEvents(c, passes)
    decreases passes
  {
    if passes != 0 {
      var j: nat := passes - 1;
      LoopedAdds(l, c, j);
      LoopedStep(l, c, j);
      AppendAssoc(Calls(l), LoopEvents(c, j), [KillPoll(false)], PassEvents(c, j + 1));
    }
  }

  /** The iteration numbers of the W records in a log, oldest first. */
  function WrittenIterations(l: Log): seq<int> {
    match l
    case Empty => []
    case Then(earlier, e) => WrittenIterations(earlier) + if e.WriteW? then [e.iternum] else []
  }

  /** The factors of the rescales in a log, oldest first. */
  function RescaleFactors(l: Log): seq<real> {
    match l
    case Empty => []
    case Then(earlier, e) => RescaleFactors(earlier) + if e.RescaleRho? then [e.factor] else []
  }

  /** The integers `lo` up to, not including, `hi`. */
  function Range(lo: int, hi: int): seq<int>
    decreases hi - lo
  {
    if hi <= lo then [] else Range(lo, hi - 1) + [hi - 1]
  }

  /**
   * A pass updates the weights first and solves last, and a rescale, when
   * one fires, comes after the weight update and the writes and before the
   * solve.
   */
  lemma PassOrder(c: PassConfig, iternum: int)
    ensures var p := PassEvents(c, iternum);
      |p| >= 6 && p[..4] == WEIGHT_UPDATE_EVENTS &&
      p[|p| - 2..] == [SolveLoop(c.solverOptions, c.tee), Ebound] &&
      forall j :: 0 <= j < |p| && p[j].RescaleRho? ==> 4 + |WriteEvents(c, iternum)| <= j < |p| - 2
  {
  }


  /** A bound computation rescales by exactly the factor scheduled for its iteration number, if any. */
  lemma LagrangianRescales(l: Log, c: PassConfig, iternum: int)
    ensures RescaleFactors(AfterLagrangian(l, c, iternum)) ==
            RescaleFactors(l) + FiredFactors(c.schedule, iternum, iternum + 1)
  {
    var r := AfterRescale(l, c.schedule, iternum);
    assert RescaleFactors(BeforeBound(l, c, iternum)) == RescaleFactors(r) + [];
    assert RescaleFactors(AfterLagrangian(l, c, iternum)) == RescaleFactors(BeforeBound(l, c, iternum)) + [];
    assert FiredFactors(c.schedule, iternum, iternum) == [];
    match FactorFor(c.schedule, iternum)
    case Some(f) =>
      assert RescaleFactors(r) == RescaleFactors(l) + [f];
      assert FiredFactors(c.schedule, iternum, iternum + 1) == [] + [f];
    case None =>
      assert FiredFactors(c.schedule, iternum, iternum + 1) == [] + [];
  }

  /** The weight update and the writes rescale nothing. */
  lemma UpdateAndWritesRescaleNothing(l: Log, c: PassConfig, iternum: int)
    ensures RescaleFactors(AfterWrite(AfterWeightUpdate(l), c, iternum)) == RescaleFactors(l)
  {
    var l1 := Then(Then(l, PutNonantCache), RestoreNonants);
    assert RescaleFactors(l1) == RescaleFactors(l) + [] + [];
    var u := AfterWeightUpdate(l);
    assert RescaleFactors(u) == RescaleFactors(l1) + [] + [];
    var w := if c.writeW then Then(u, WriteW(iternum)) else u;
    assert RescaleFactors(w) == RescaleFactors(u) + [];
    assert RescaleFactors(AfterWrite(u, c, iternum)) == RescaleFactors(w) + [];
  }

  /** A pass rescales by exactly the factor scheduled for its iteration number, if any. */
  lemma PassRescales(l: Log, c: PassConfig, iternum: int)
    ensures RescaleFactors(AfterPass(l, c, iternum)) ==
            RescaleFactors(l) + FiredFactors(c.schedule, iternum, iternum + 1)
  {
    var w := AfterWrite(AfterWeightUpdate(l), c, iternum);
    UpdateAndWritesRescaleNothing(l, c, iternum);
    LagrangianRescales(w, c, iternum);
    assert AfterPass(l, c, iternum) == AfterLagrangian(w, c, iternum);
  }

  /** The loop's passes rescale by exactly the factors scheduled for iterations 1 to k, in order. */
  lemma {:induction false} LoopRescales(l: Log, c: PassConfig, k: nat)
    ensures RescaleFactors(Looped(l, c, k)) == RescaleFactors(l) + FiredFactors(c.schedule, 1, k + 1)
    decreases k
  {
    if k == 0 {
      assert FiredFactors(c.schedule, 1, 1) == [];
    } else {
      var j: nat := k - 1;
      LoopRescales(l, c, j);
      var polled := Then(Looped(l, c, j), KillPoll(false));
      assert RescaleFactors(polled) == RescaleFactors(Looped(l, c, j)) + [];
      PassRescales(polled, c, j + 1);
      FiredFactorsSplit(c.schedule, 1, j + 1, j + 2);
      AppendAssoc(RescaleFactors(l), FiredFactors(c.schedule, 1, j + 1), FiredFactors(c.schedule, j + 1, j + 2), []);
    }
  }

  /** A pass writes one W record when configured to, carrying its iteration number. */
  lemma PassWrites(l: Log, c: PassConfig, iternum: int)
    ensures WrittenIterations(AfterPass(l, c, iternum)) ==
            WrittenIterations(l) + if c.writeW then [iternum] else []
  {
    var u := AfterWeightUpdate(l);
    var x := AfterWrite(u, c, iternum);
    WeightUpdateWritesNothing(l);
    WritesRecord(u, c, iternum);
    LagrangianWritesNothing(x, c, iternum);
    assert AfterPass(l, c, iternum) == AfterLagrangian(x, c, iternum);
  }

  lemma WeightUpdateWritesNothing(l: Log)
    ensures WrittenIterations(AfterWeightUpdate(l)) == WrittenIterations(l)
  {
    var l1 := Then(Then(l, PutNonantCache), RestoreNonants);
    assert WrittenIterations(l1) == WrittenIterations(l) + [] + [];
    assert WrittenIterations(AfterWeightUpdate(l)) == WrittenIterations(l1) + [] + [];
  }

  lemma WritesRecord(l: Log, c: PassConfig, iternum: int)
    ensures WrittenIterations(AfterWrite(l, c, iternum)) ==
            WrittenIterations(l) + if c.writeW then [iternum] else []
  {
    var w := if c.writeW then Then(l, WriteW(iternum)) else l;
    assert WrittenIterations(w) == WrittenIterations(l) + if c.writeW then [iternum] else [];
    assert WrittenIterations(AfterWrite(l, c, iternum)) == WrittenIterations(w) + [];
  }

  lemma LagrangianWritesNothing(l: Log, c: PassConfig, iternum: int)
    ensures WrittenIterations(AfterLagrangian(l, c, iternum)) == WrittenIterations(l)
  {
    var r := AfterRescale(l, c.schedule, iternum);
    assert WrittenIterations(r) == WrittenIterations(l) + [];
    assert WrittenIterations(BeforeBound(l, c, iternum)) == WrittenIterations(r) + [];
    assert WrittenIterations(AfterLagrangian(l, c, iternum)) == WrittenIterations(BeforeBound(l, c, iternum)) + [];
  }

  /** The loop's passes write W for iterations 1, 2, ..., k: in order and with no gaps. */
  lemma {:induction false} LoopIterationsConsecutive(l: Log, c: PassConfig, k: nat)
    requires c.writeW
    ensures WrittenIterations(Looped(l, c, k)) == WrittenIterations(l) + Range(1, k + 1)
    decreases k
  {
    if k != 0 {
      var j: nat := k - 1;
      LoopIterationsConsecutive(l, c, j);
      var polled := Then(Looped(l, c, j), KillPoll(false));
      assert WrittenIterations(polled) == WrittenIterations(Looped(l, c, j)) + [];
      PassWrites(polled, c, j + 1);
      AppendAssoc(WrittenIterations(l), Range(1, j + 1), [j + 1], []);
    }
  }

  /**
   * The trivial-bound computation consumes no shared data: it puts no
   * nonant cache, computes no xbar, updates no W and writes nothing. It
   * computes one bound.
   */
  lemma TrivialPassUsesNoSharedData(c: PassConfig)
    ensures var t := LagrangianEvents(c, 0);
      (forall e :: e in t ==> e !in WEIGHT_UPDATE_EVENTS && !e.WriteW? && !e.WriteXbar?) &&
      multiset(t)[Ebound] == 1
  {
  }

  /** How many times call `e` occurs in a log. */
  function Count(l: Log, e: Event): nat {
    match l
    case Empty => 0
    case Then(earlier, x) => Count(earlier, e) + if x == e then 1 else 0
  }

  /** The calls whose number a pass fixes: not a write, a rescale or a solve, whose arguments vary. */
  predicate Counted(e: Event) {
    !e.WriteW? && !e.WriteXbar? && !e.RescaleRho? && !e.SolveLoop?
  }

  /** The calls each round of the main loop makes exactly once. */
  predicate OncePerRound(e: Event) {
    e in WEIGHT_UPDATE_EVENTS || e == Ebound || e == KillPoll(false)
  }

  lemma WeightUpdateCounts(l: Log, e: Event)
    ensures Count(AfterWeightUpdate(l), e) == Count(l, e) + if e in WEIGHT_UPDATE_EVENTS then 1 else 0
  {
    var l1 := Then(Then(l, PutNonantCache), RestoreNonants);
    assert Count(l1, e) == Count(l, e) + (if e == PutNonantCache then 1 else 0) + (if e == RestoreNonants then 1 else 0);
    assert Count(AfterWeightUpdate(l), e) ==
           Count(l1, e) + (if e == ComputeXbar then 1 else 0) + (if e == UpdateW then 1 else 0);
  }

  lemma WritesCount(l: Log, c: PassConfig, iternum: int, e: Event)
    requires !e.WriteW? && !e.WriteXbar?
    ensures Count(AfterWrite(l, c, iternum), e) == Count(l, e)
  {
    var w := if c.writeW then Then(l, WriteW(iternum)) else l;
    assert Count(w, e) == Count(l, e);
  }

  lemma LagrangianCounts(l: Log, c: PassConfig, iternum: int, e: Event)
    requires !e.RescaleRho? && !e.SolveLoop?
    ensures Count(AfterLagrangian(l, c, iternum), e) == Count(l, e) + if e == Ebound then 1 else 0
  {
    var r := AfterRescale(l, c.schedule, iternum);
    assert Count(r, e) == Count(l, e);
    assert Count(BeforeBound(l, c, iternum), e) == Count(r, e);
  }

  /** A pass calls each weight-update step once and Ebound once, and polls nothing. */
  lemma PassCounts(l: Log, c: PassConfig, iternum: int, e: Event)
    requires Counted(e)
    ensures Count(AfterPass(l, c, iternum), e) ==
            Count(l, e) + if e in WEIGHT_UPDATE_EVENTS || e == Ebound then 1 else 0
  {
    var u := AfterWeightUpdate(l);
    var x := AfterWrite(u, c, iternum);
    WeightUpdateCounts(l, e);
    WritesCount(u, c, iternum, e);
    LagrangianCounts(x, c, iternum, e);
    assert AfterPass(l, c, iternum) == AfterLagrangian(x, c, iternum);
  }

  /**
   * After `k` rounds of the main loop there were `k` polls that said go on,
   * `k` of each weight-update step and `k` bounds; no poll said stop and
   * nothing of preparation was repeated.
   */
  lemma {:induction false} LoopCounts(l: Log, c: PassConfig, k: nat, e: Event)
    requires Counted(e)
    ensures Count(Looped(l, c, k), e) == Count(l, e) + if OncePerRound(e) then k else 0
    decreases k
  {
    if k != 0 {
      var j: nat := k - 1;
      LoopCounts(l, c, j, e);
      var polled := Then(Looped(l, c, j), KillPoll(false));
      assert Count(polled, e) == Count(Looped(l, c, j), e) + if e == KillPoll(false) then 1 else 0;
      PassCounts(polled, c, j + 1, e);
    }
  }

  /** The solve calls of a log, with the solver options and `tee` flag of each, oldest first. */
  function Solves(l: Log): seq<Event> {
    match l
    case Empty => []
    case Then(earlier, e) => Solves(earlier) + if e.SolveLoop? then [e] else []
  }

  /** `k` copies of `x`. */
  function Repeat<T>(x: T, k: nat): seq<T> {
    if k == 0 then [] else Repeat(x, k - 1) + [x]
  }

  lemma PrepSolvesNothing(l: Log)
    ensures Solves(AfterPrep(l)) == Solves(l)
  {
    var l1 := Then(Then(l, PHPrep), ReenableW);
    assert Solves(l1) == Solves(l) + [] + [];
    var l2 := Then(Then(l1, SubproblemCreation), CreateSolvers);
    assert Solves(l2) == Solves(l1) + [] + [];
    assert Solves(AfterPrep(l)) == Solves(l2) + [];
  }

  /** A bound computation solves once, with the configured options and `tee` flag. */
  lemma LagrangianSolves(l: Log, c: PassConfig, iternum: int)
    ensures Solves(AfterLagrangian(l, c, iternum)) == Solves(l) + [SolveLoop(c.solverOptions, c.tee)]
  {
    var r := AfterRescale(l, c.schedule, iternum);
    assert Solves(r) == Solves(l) + [];
    assert Solves(AfterLagrangian(l, c, iternum)) == Solves(BeforeBound(l, c, iternum)) + [];
  }

  /** A pass solves once, with the configured options and `tee` flag. */
  lemma PassSolves(l: Log, c: PassConfig, iternum: int)
    ensures Solves(AfterPass(l, c, iternum)) == Solves(l) + [SolveLoop(c.solverOptions, c.tee)]
  {
    var u := AfterWeightUpdate(l);
    var l1 := Then(Then(l, PutNonantCache), RestoreNonants);
    assert Solves(l1) == Solves(l) + [] + [];
    assert Solves(u) == Solves(l1) + [] + [];
    var w := if c.writeW then Then(u, WriteW(iternum)) else u;
    assert Solves(w) == Solves(u) + [];
    var x := AfterWrite(u, c, iternum);
    assert Solves(x) == Solves(w) + [];
    LagrangianSolves(x, c, iternum);
    assert AfterPass(l, c, iternum) == AfterLagrangian(x, c, iternum);
  }

  /** Every solve of the loop's `k` rounds uses the same options and `tee` flag. */
  lemma {:induction false} LoopSolves(l: Log, c: PassConfig, k: nat)
    ensures Solves(Looped(l, c, k)) == Solves(l) + Repeat(SolveLoop(c.solverOptions, c.tee), k)
    decreases k
  {
    if k != 0 {
      var j: nat := k - 1;
      LoopSolves(l, c, j);
      var polled := Then(Looped(l, c, j), KillPoll(false));
      assert Solves(polled) == Solves(Looped(l, c, j)) + [];
      PassSolves(polled, c, j + 1);
    }
  }

  /**
   * A whole run of the main method adds the solve of the trivial bound, with
   * the configuration `c0` it started with, and then `k` solves, all with the
   * loop's configuration `c`.
   */
  lemma RunSolves(t: Log, c0: PassConfig, c: PassConfig, k: nat)
    ensures Solves(Then(Looped(AfterLagrangian(AfterPrep(t), c0, 0), c, k), KillPoll(true))) ==
            Solves(t) + [SolveLoop(c0.solverOptions, c0.tee)] + Repeat(SolveLoop(c.solverOptions, c.tee), k)
  {
    var t0 := AfterLagrangian(AfterPrep(t), c0, 0);
    PrepSolvesNothing(t);
    LagrangianSolves(AfterPrep(t), c0, 0);
    LoopSolves(t0, c, k);
    assert Solves(Then(Looped(t0, c, k), KillPoll(true))) == Solves(Looped(t0, c, k)) + [];
  }
}
