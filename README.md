# Lagrangian outer-bound spoke (`LagrangerOuterBound`)

This project models the Lagrangian outer-bound spoke of mpi-sppy, a cylinder
that runs beside the hub. The spoke takes the nonant values the hub sends,
updates its own dual weights W, and reports a Lagrangian bound after every
pass until the hub tells it to stop. It can also rescale its penalty
coefficients (rho) at the iterations named in an optional schedule.

The model has five modules:

- `Wrappers` defines `Option`.
- `RhoTable` holds the rho of the local scenarios as a map from scenario name
  to a map from nonant index to a `real`. `Rescaled` defines the effect of
  one rescale. Lemmas show that rescales accumulate multiplicatively.
- `RescaleSchedule` holds the optional schedule `Option<map<int, real>>`. It
  says when a rescale fires (`FactorFor`) and gives the effect of a run of
  iterations on rho (`RescaledOver`, `NetFactor`, `FiredFactors`).
- `SpokeTrace` records every call the spoke makes into its optimisation
  object (`PH_Prep`, `Compute_Xbar`, `Update_W`, `solve_loop`, `Ebound`, ...),
  into its W and xbar writers, and into the kill-signal transport:
  - each call is an `Event`, appended to a `Log`, which is a list with the
    newest call last; it is a datatype rather than a `seq<Event>` because
    the verifier compares two datatype values term by term, while equal
    sequences built by different appends need extensionality reasoning
    that grows with every call of a run;
  - each step of the spoke is a function from the log before the step to the
    log after it (`AfterPrep`, `AfterLagrangian`, `AfterPass`, `Looped`);
  - `Calls` flattens a log into a sequence, and lemmas tie it to flat
    reference sequences (`PassEvents`, `LoopEvents`);
  - further lemmas state the order of a pass, which rescales fire, which W
    records are written, how many times each call happens, and which solver
    options each solve uses.
- `LagrangerBounder` holds the spoke itself, as the class
  `LagrangerOuterBound`:
  - fields: rho, the current solver options, the loaded schedule, the call
    log, `trivialBound`, `bound`, `aIter` and `finalBound`;
  - methods: one per method of the source, each proved against the trace
    functions and `Rescaled`;
  - `main` is `Run`, split into `Start`, `RunPasses` (the `while` loop)
    and `PassThenPoll` (one loop body followed by the next poll).

The model uses three parameters in place of behaviour it cannot see:

- **Ebound.** The value `Ebound` returns is the constant function field
  `eBound`. It is applied to the log of the calls made before it and to the
  rho at that moment. So two bounds are equal whenever the calls before them
  and their rho are equal, and otherwise nothing is assumed about them.
- **Kill signal.** The answers of the kill-signal polls are an oracle
  `kills: seq<bool>`. Poll number `j` returns `kills[j]`.
- **Phase.** A ghost `phase` records how far the spoke has come. It stands
  for the Python attributes that exist only after a step: `rho_rescale_factors`
  after preparation, and `A_iter` after `main`.

Three facts about the program shape the model:

- **Where the rescale sits.** The schedule check is at the top of
  `_lagrangian` (mpisppy/cylinders/lagranger_bounder.py:36-38). Inside a
  pass, that check runs after `Update_W` and the writes and before
  `solve_loop` (mpisppy/cylinders/lagranger_bounder.py:79-86).
- **Iteration 0.** The trivial bound is `_lagrangian(0)`
  (mpisppy/cylinders/lagranger_bounder.py:96), so it consults the schedule
  as well.
- **Factor sign.** The factors are read without any check of their sign
  (mpisppy/cylinders/lagranger_bounder.py:27).

## Model

| member | source | states |
|---|---|---|
| `LagrangerBounder.TeeMe` | mpisppy/cylinders/lagranger_bounder.py:39-41 | the solve's `tee` flag is true exactly when "tee-rank0-solves" is present and true and the cylinder rank is 0 |
| `LagrangerBounder.FirstKill` | mpisppy/cylinders/lagranger_bounder.py:103 | the loop stops at the first poll that answers true: that poll says stop and every earlier poll said go on |
| `LagrangerBounder.LagrangerOuterBound.LagrangianPrep` | mpisppy/cylinders/lagranger_bounder.py:16-31 | preparation makes the calls PH_Prep, _reenable_W, subproblem_creation, _create_solvers and _save_nonants, in that order; after it, rho is the rho of the scenarios PH_Prep creates; it loads the schedule from the option, None when the option is absent or None |
| `LagrangerBounder.LagrangerOuterBound.RescaleScenario` | mpisppy/cylinders/lagranger_bounder.py:59-60 | the inner loop multiplies the rho of one scenario by `rf` at each of that scenario's nonant indices; every other entry and every other scenario keeps its value |
| `LagrangerBounder.LagrangerOuterBound.RescaleRho` | mpisppy/cylinders/lagranger_bounder.py:55-60 | the nested loop leaves rho equal to `Rescaled(old rho, rf)`: every local scenario's nonant entries are multiplied by `rf` and nothing else changes |
| `LagrangerBounder.LagrangerOuterBound.Lagrangian` | mpisppy/cylinders/lagranger_bounder.py:33-52 | rho is rescaled by the factor scheduled for `iternum`, and is unchanged when none is scheduled; then one solve is made with the current solver options and `tee`, then Ebound; the result is Ebound's value on the log up to the solve and the rescaled rho |
| `LagrangerBounder.LagrangerOuterBound.WriteWAndXbar` | mpisppy/cylinders/lagranger_bounder.py:62-75 | a W record with the iteration is written when "lagranger_write_W" is set, and after it an xbar record when "lagranger_write_xbar" is set |
| `LagrangerBounder.LagrangerOuterBound.UpdateWeightsAndSolve` | mpisppy/cylinders/lagranger_bounder.py:77-86 | a pass makes the calls put-cache, restore, Compute_Xbar, Update_W, the writes and then the Lagrangian calls; it returns Ebound's value on everything before it |
| `LagrangerBounder.LagrangerOuterBound.GotKillSignal` | mpisppy/cylinders/lagranger_bounder.py:103 | a poll returns the oracle's answer and records it |
| `LagrangerBounder.LagrangerOuterBound.PassThenPoll` | mpisppy/cylinders/lagranger_bounder.py:103-106 | one loop body: the pass with number `A_iter` sets `bound` to its result, `A_iter` goes up by one, and the next poll follows |
| `LagrangerBounder.LagrangerOuterBound.RunPasses` | mpisppy/cylinders/lagranger_bounder.py:102-106 | after `k` passes, with `k` the first poll that says stop, `A_iter == k + 1`; the log holds `k` rounds of go-on poll and pass, numbered 1 to `k`, and then the stopping poll; rho has had iterations 1 to `k` applied in turn; `bound` is unchanged when `k == 0` and is the `k`-th pass's result otherwise |
| `LagrangerBounder.LagrangerOuterBound.Start` | mpisppy/cylinders/lagranger_bounder.py:94-102 | prep is followed by one Lagrangian call with iteration 0 and the old solver options; `trivial_bound == bound` and equals that call's result; the solver options become the iteration-k options; `A_iter == 1`; rho is the prepared rho after iteration 0's rescale, if any |
| `LagrangerBounder.LagrangerOuterBound.Run` | mpisppy/cylinders/lagranger_bounder.py:88-106 | a whole run: prep, the trivial bound at iteration 0 with the old solver options, then `k` rounds with the iteration-k options; `bound` is the trivial bound when `k == 0` and the `k`-th pass's result otherwise; `A_iter == k + 1`; rho is the prepared rho with the rescales of iterations 0 to `k` applied in turn |
| `LagrangerBounder.LagrangerOuterBound.Finalize` | mpisppy/cylinders/lagranger_bounder.py:108-116 | exactly one more pass, with number `A_iter`; its result is returned and becomes both `final_bound` and `bound` |
| `RhoTable.ScaleEntries` | mpisppy/cylinders/lagranger_bounder.py:59-60 | scaling one scenario's entries keeps its set of nonant indices |
| `RhoTable.Rescaled` | mpisppy/cylinders/lagranger_bounder.py:58-60 | a rescale keeps every scenario and every scenario's set of indices |
| `RhoTable.RescaledAt` | mpisppy/cylinders/lagranger_bounder.py:58-60 | after a rescale by `rf`, an entry is multiplied by `rf` exactly when it is a nonant index of a local scenario, and is unchanged otherwise |
| `RhoTable.RescaledComposes` | mpisppy/cylinders/lagranger_bounder.py:56-57 | a rescale by `a` followed by one by `b` equals one rescale by `a * b` |
| `RhoTable.RescaledByOne` | mpisppy/cylinders/lagranger_bounder.py:56-57 | a rescale by 1 leaves rho unchanged |
| `RhoTable.RescaledUndone` | mpisppy/cylinders/lagranger_bounder.py:56-57 | a rescale by `rf` followed by one by an inverse of `rf` restores rho |
| `RhoTable.HalfThenDouble` | mpisppy/cylinders/lagranger_bounder.py:57 | 0.5 then 2.0 gets rho back where it started |
| `RescaleSchedule.FactorFor` | mpisppy/cylinders/lagranger_bounder.py:36-38 | a rescale fires at iteration `n` exactly when the schedule is present and has key `n`, and then its factor is the schedule's value at `n` |
| `RescaleSchedule.NetFactorIsProduct` | mpisppy/cylinders/lagranger_bounder.py:56-57 | the net factor of a run of iterations is the product of the factors of the rescales that fired in it |
| `RescaleSchedule.NetFactorSplit` | mpisppy/cylinders/lagranger_bounder.py:56-57 | net factors of adjacent runs of iterations multiply |
| `RescaleSchedule.FiredFactorsSplit` | mpisppy/cylinders/lagranger_bounder.py:102-106 | the rescales of adjacent runs of iterations follow one another |
| `RescaleSchedule.RescaledThroughIteration` | mpisppy/cylinders/lagranger_bounder.py:36-38 | rho rescaled by the net factor before iteration `n`, then by iteration `n`'s factor, is rho rescaled by the net factor through `n` |
| `RescaleSchedule.RescaledOverIsNet` | mpisppy/cylinders/lagranger_bounder.py:56-57 | the rescales of a run of iterations, applied one at a time, equal one rescale by their net factor |
| `RescaleSchedule.RescaledOverSplit` | mpisppy/cylinders/lagranger_bounder.py:94-106 | the rescales of iteration 0, then of the loop's iterations, are those of the whole run |
| `RescaleSchedule.UnscheduledRun` | mpisppy/cylinders/lagranger_bounder.py:36-38 | over iterations with no schedule entry, no rescale fires and the net factor is 1 |
| `RescaleSchedule.NoScheduleNeverRescales` | mpisppy/cylinders/lagranger_bounder.py:23-38 | with no schedule configured, no rescale ever fires and rho is never changed |
| `RescaleSchedule.HalvedThenDoubled` | mpisppy/cylinders/lagranger_bounder.py:56-57 | under the schedule {3: 0.5, 6: 2.0}, rho with the rescales of iterations 0 to 6 applied in turn, which the solve of iteration 6 sees, equals rho with those of iterations 0 and 1 applied, which the solve of iteration 1 sees |
| `RescaleSchedule.HalvedThenDoubledNet` | mpisppy/cylinders/lagranger_bounder.py:56-57 | under the schedule {3: 0.5, 6: 2.0}, iterations 0 to 6 have the same net factor as iterations 0 and 1 |
| `SpokeTrace.AfterPrepAdds` | mpisppy/cylinders/lagranger_bounder.py:16-31 | preparation adds exactly its five calls, in order |
| `SpokeTrace.AfterWeightUpdateAdds` | mpisppy/cylinders/lagranger_bounder.py:79-83 | the weight update adds exactly put-cache, restore, Compute_Xbar and Update_W, in order |
| `SpokeTrace.AfterLagrangianAdds` | mpisppy/cylinders/lagranger_bounder.py:33-52 | a bound computation adds the optional rescale, the solve and Ebound; Ebound sees every call before it |
| `SpokeTrace.AfterWriteAdds` | mpisppy/cylinders/lagranger_bounder.py:62-75 | the writes add exactly the configured records |
| `SpokeTrace.AfterPassAdds` | mpisppy/cylinders/lagranger_bounder.py:77-86 | a pass adds exactly weight update, writes and bound computation, in that order; Ebound sees every call before it |
| `SpokeTrace.LoopedStep` | mpisppy/cylinders/lagranger_bounder.py:103-106 | one more round adds a go-on poll and then the pass with the next number |
| `SpokeTrace.LoopedAdds` | mpisppy/cylinders/lagranger_bounder.py:102-106 | `k` rounds add the flat sequence of `k` go-on polls, each followed by the pass numbered 1 to `k` |
| `SpokeTrace.PassOrder` | mpisppy/cylinders/lagranger_bounder.py:77-86 | a pass starts with the four weight-update calls and ends with the solve and Ebound; a rescale, if any, comes after the writes and before the solve |
| `SpokeTrace.LagrangianRescales` | mpisppy/cylinders/lagranger_bounder.py:36-38 | a bound computation rescales by exactly the factor scheduled for its number, if any |
| `SpokeTrace.UpdateAndWritesRescaleNothing` | mpisppy/cylinders/lagranger_bounder.py:79-85 | the weight update and the writes make no rescale |
| `SpokeTrace.PassRescales` | mpisppy/cylinders/lagranger_bounder.py:77-86 | a pass rescales by exactly the factor scheduled for its number, if any |
| `SpokeTrace.LoopRescales` | mpisppy/cylinders/lagranger_bounder.py:102-106 | `k` rounds rescale by exactly the factors scheduled for iterations 1 to `k`, in order |
| `SpokeTrace.PassWrites` | mpisppy/cylinders/lagranger_bounder.py:62-69 | a pass writes one W record, with its own number, exactly when W writing is on |
| `SpokeTrace.WeightUpdateWritesNothing` | mpisppy/cylinders/lagranger_bounder.py:79-83 | the weight update writes no W record |
| `SpokeTrace.WritesRecord` | mpisppy/cylinders/lagranger_bounder.py:63-69 | the writes add one W record with the iteration number exactly when W writing is on |
| `SpokeTrace.LagrangianWritesNothing` | mpisppy/cylinders/lagranger_bounder.py:33-52 | a bound computation writes no W record |
| `SpokeTrace.LoopIterationsConsecutive` | mpisppy/cylinders/lagranger_bounder.py:102-106 | with W writing on, `k` rounds write records for iterations 1, 2, ..., `k`: in order and with no gaps |
| `SpokeTrace.TrivialPassUsesNoSharedData` | mpisppy/cylinders/lagranger_bounder.py:94-96 | the trivial bound's calls include no cache put, restore, Compute_Xbar, Update_W or write, and exactly one Ebound |
| `SpokeTrace.WeightUpdateCounts` | mpisppy/cylinders/lagranger_bounder.py:79-83 | the weight update makes each of its four calls once and no other call |
| `SpokeTrace.WritesCount` | mpisppy/cylinders/lagranger_bounder.py:62-75 | the writes make no call other than W and xbar writes |
| `SpokeTrace.LagrangianCounts` | mpisppy/cylinders/lagranger_bounder.py:33-52 | a bound computation calls Ebound once and makes no call other than a rescale, a solve and that Ebound; in particular it writes nothing |
| `SpokeTrace.PassCounts` | mpisppy/cylinders/lagranger_bounder.py:77-86 | a pass makes each weight-update call once and Ebound once, and polls nothing |
| `SpokeTrace.LoopCounts` | mpisppy/cylinders/lagranger_bounder.py:102-106 | `k` rounds make `k` go-on polls, `k` of each weight-update call and `k` Ebound calls; no poll says stop and no preparation call is repeated |
| `SpokeTrace.PrepSolvesNothing` | mpisppy/cylinders/lagranger_bounder.py:16-31 | preparation makes no solve |
| `SpokeTrace.LagrangianSolves` | mpisppy/cylinders/lagranger_bounder.py:39-49 | a bound computation solves once, with the configured solver options and `tee` flag |
| `SpokeTrace.PassSolves` | mpisppy/cylinders/lagranger_bounder.py:77-86 | a pass solves once, with the configured solver options and `tee` flag |
| `SpokeTrace.LoopSolves` | mpisppy/cylinders/lagranger_bounder.py:100-106 | every solve of the loop's rounds uses the same solver options and `tee` flag |
| `SpokeTrace.RunSolves` | mpisppy/cylinders/lagranger_bounder.py:94-106 | over a whole run, the solve at iteration 0 uses the configuration the spoke started with, and each of the `k` later solves uses the loop's configuration |

## Left out

- Reading the JSON schedule file (mpisppy/cylinders/lagranger_bounder.py:25-27) is not modelled. The option holds the parsed map, or None; a malformed file is outside the model.
- The CSV appends and the `wxbarutils` writers (mpisppy/cylinders/lagranger_bounder.py:62-75) are file I/O. Only a `WriteW` or `WriteXbar` event with the iteration number is kept.
- The numerics of the optimisation object are not modelled: `PH_Prep`, `subproblem_creation`, `_create_solvers`, `solve_loop`, `Compute_Xbar`, `Update_W`, `Ebound` and the nonant save, restore and cache put. Their bodies are not part of this model, so each is an event. Ebound's value is a parameter that depends only on the earlier calls and the rho. Each call is assumed to return; an exception it raises, which would end `main` or `finalize` since the spoke catches none, is not modelled.
- The local scenarios and their nonant indices (`layout`) are a constant given to the constructor. They stand for what `PH_Prep` and `subproblem_creation` create (mpisppy/cylinders/lagranger_bounder.py:18-21). Nothing reads them before preparation, so this is the same behaviour. The rho of those scenarios is set by preparation, from the parameter `prepared`.
- The kill-signal transport (`got_kill_signal`) is replaced by an oracle sequence of answers.
- `LagrangerBounder.LagrangerOuterBound.Run`: requires that some poll answers true, so runs that never stop are not modelled.
- `LagrangerBounder.LagrangerOuterBound.RunPasses`: requires that some poll answers true, for the same reason.
- The nonant values the hub writes concurrently into `localnonants` are not modelled. The `PutNonantCache` event carries no values.
- The `rho_setter` probe in `main` (mpisppy/cylinders/lagranger_bounder.py:90-92) is not modelled, because it has no effect.
- The `verbose` option is not modelled, because it is only passed on to the optimisation object. The same holds for the `dtiming` and `gripe` arguments of the solve.
- Floating-point rounding is not modelled. Rho and the factors are `real`, so accumulation holds exactly.
- `LagrangerBounder.LagrangerOuterBound.RescaleRho`: requires that rho has an entry for every nonant index of every local scenario. Every scenario model has one, and a missing entry would be a Python `KeyError`, which is not modelled.
- `LagrangerBounder.LagrangerOuterBound.Finalize`: requires that `main` has run, because `A_iter` exists only then.
