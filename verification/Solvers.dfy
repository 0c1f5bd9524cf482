/** What is expected of the constraint solver, and that it can be met. */
module Solvers {
  import opened Wrappers
  import opened Records
  import opened CpModel
  import opened Optimum

  /** The solver, seen from outside: an optimum of the model, or nothing. */
  type Solver = Model -> Option<Assignment>

  ghost predicate SoundSolver(solver: Solver) {
    forall m :: solver(m).Some? ==> Optimal(m, solver(m).value)
  }

  ghost predicate CompleteSolver(solver: Solver) {
    forall m, a :: Feasible(m, a) ==> solver(m).Some?
  }

  /** A sound and complete solver answers exactly the models that have a solution. */
  lemma CompleteAnswer(solver: Solver, m: Model)
    requires SoundSolver(solver) && CompleteSolver(solver)
    ensures solver(m).Some? <==> exists a :: Feasible(m, a)
  {
    if solver(m).Some? {
      assert Optimal(m, solver(m).value);
    }
  }

  /** Every departure at the lower end of its domain: cheaper than any solution. */
  function Floor(m: Model): (a: Assignment)
    ensures a.Keys == m.events.Keys
  {
    map u | u in m.events :: Values(0, 0, 0, m.events[u].etd.low)
  }

  lemma NothingBelowFloor(m: Model, a: Assignment)
    requires Feasible(m, a)
    ensures a.Keys == m.events.Keys && Cost(m.events.Keys, Floor(m)) <= Cost(a.Keys, a)
  {
    CostMonotone(m.events.Keys, a, Floor(m));
  }

  /** A model that has a solution has an optimum: costs cannot fall forever. */
  lemma {:induction false} OptimumExists(m: Model, a: Assignment)
    requires Feasible(m, a)
    ensures exists b :: Optimal(m, b)
    decreases Cost(a.Keys, a) - Cost(m.events.Keys, Floor(m))
  {
    hide Feasible, Cost, Floor;
    NothingBelowFloor(m, a);
    if b :| Feasible(m, b) && Cost(b.Keys, b) < Cost(a.Keys, a) {
      NothingBelowFloor(m, b);
      OptimumExists(m, b);
    } else {
      assert Optimal(m, a);
    }
  }

  ghost function BestOf(m: Model): Option<Assignment> {
    if exists a :: Optimal(m, a) then
      var a :| Optimal(m, a);
      Some(a)
    else None
  }

  /** So what is asked of the solver can be met. */
  lemma SolverExists()
    ensures exists solver: Solver :: SoundSolver(solver) && CompleteSolver(solver)
  {
    var best: Solver := m => BestOf(m);
    forall m, a | Feasible(m, a)
      ensures best(m).Some?
    {
      OptimumExists(m, a);
    }
    assert SoundSolver(best) && CompleteSolver(best);
  }
}
