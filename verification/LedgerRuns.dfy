/** What the ledger keeps over every interleaving of the transactions of any number of processes. */
module LedgerRuns {
  import opened Prelude
  import opened Ledgers

  datatype Event =
    | Register(more: seq<Case>)
    | Reserve(model: string, scenario: string, tokens: Option<nat>)
    | Dispatch(id: nat)
    | Finish(id: nat, state: AttemptState)

  function Outcome(plan: Plan, b: Book, e: Event): Option<Book> {
    match e
    case Register(more) => Registered(plan, b, more)
    case Reserve(model, scenario, tokens) => WithReserved(plan, b, model, scenario, tokens)
    case Dispatch(id) => WithDispatched(b, id)
    case Finish(id, state) => WithFinished(plan, b, id, state)
  }

  function Apply(plan: Plan, b: Book, e: Event): Book {
    var next := Outcome(plan, b, e);
    if next.Some? then next.value else b
  }

  function Run(plan: Plan, b: Book, events: seq<Event>): Book {
    if events == [] then b else Apply(plan, Run(plan, b, events[..|events| - 1]), events[|events| - 1])
  }

  // ---- One book ----

  ghost predicate Scenarios(attempts: seq<Attempt>) {
    forall i, j :: 0 <= i < j < |attempts| ==> attempts[i].scenario != attempts[j].scenario
  }

  /** A model is blocked exactly when an attempt of it ended in a stopping state. */
  ghost predicate BlockedIff(plan: Plan, b: Book) {
    forall m ::
      m in b.blocked
      <==> exists i :: 0 <= i < |b.attempts| && b.attempts[i].model == m && Stops(plan, b.attempts[i].state)
  }

  ghost predicate BookOk(plan: Plan, b: Book) {
    && |b.attempts| <= plan.limit && Scenarios(b.attempts) && BlockedIff(plan, b) && |b.cases| <= CASES
    && forall i :: 0 <= i < |b.attempts| ==> ValidBudget(plan, b.attempts[i].model, b.attempts[i].tokens)
  }

  /** Attempts are never given back, and move only forward. */
  ghost predicate Advances(a: Attempt, b: Attempt) {
    && a.scenario == b.scenario && a.model == b.model && a.tokens == b.tokens
    && (a.state == b.state || a.state == Reserved || (a.state == Dispatched && b.state.Final()))
  }

  ghost predicate Follows(b: Book, c: Book) {
    && |b.attempts| <= |c.attempts| && b.blocked <= c.blocked
    && (forall i :: 0 <= i < |b.attempts| ==> Advances(b.attempts[i], c.attempts[i]))
    && (forall s :: s in b.cases ==> s in c.cases && c.cases[s] == b.cases[s])
  }

  lemma FinishKeepsBlocked(plan: Plan, b: Book, id: nat, state: AttemptState)
    requires BookOk(plan, b) && WithFinished(plan, b, id, state).Some?
    ensures BlockedIff(plan, WithFinished(plan, b, id, state).value)
  {
    var c := WithFinished(plan, b, id, state).value;
    forall m
      ensures m in c.blocked
              <==> exists i :: 0 <= i < |c.attempts| && c.attempts[i].model == m && Stops(plan, c.attempts[i].state)
    {
      if m in b.blocked {
        var i :| 0 <= i < |b.attempts| && b.attempts[i].model == m && Stops(plan, b.attempts[i].state);
        assert c.attempts[i] == b.attempts[i];
      } else if m in c.blocked {
        assert c.attempts[id - 1].model == m;
      }
      if i :| 0 <= i < |c.attempts| && c.attempts[i].model == m && Stops(plan, c.attempts[i].state) {
        assert i != id - 1 ==> c.attempts[i] == b.attempts[i];
      }
    }
  }

  /** Reserving or dispatching ends no attempt. */
  lemma OthersKeepBlocked(plan: Plan, b: Book, c: Book)
    requires BlockedIff(plan, b) && c.blocked == b.blocked && |c.attempts| >= |b.attempts|
    requires forall i :: 0 <= i < |c.attempts| ==>
               if i < |b.attempts| then c.attempts[i] == b.attempts[i]
                  || (!b.attempts[i].state.Final() && !c.attempts[i].state.Final())
               else !c.attempts[i].state.Final()
    ensures BlockedIff(plan, c)
  {
    forall m
      ensures m in c.blocked
              <==> exists i :: 0 <= i < |c.attempts| && c.attempts[i].model == m && Stops(plan, c.attempts[i].state)
    {
      if m in b.blocked {
        var i :| 0 <= i < |b.attempts| && b.attempts[i].model == m && Stops(plan, b.attempts[i].state);
        assert c.attempts[i] == b.attempts[i];
      }
      if i :| 0 <= i < |c.attempts| && c.attempts[i].model == m && Stops(plan, c.attempts[i].state) {
        assert i < |b.attempts| && c.attempts[i] == b.attempts[i];
      }
    }
  }

  lemma StepKeepsBook(plan: Plan, b: Book, e: Event)
    requires BookOk(plan, b)
    ensures BookOk(plan, Apply(plan, b, e))
  {
    if Outcome(plan, b, e).Some? {
      match e {
        case Register(_) =>
        case Reserve(_, _, _) => OthersKeepBlocked(plan, b, Apply(plan, b, e));
        case Dispatch(_) => OthersKeepBlocked(plan, b, Apply(plan, b, e));
        case Finish(id, state) => FinishKeepsBlocked(plan, b, id, state);
      }
    }
  }

  /**
   In every interleaving the budget holds, scenarios stay unique, and exactly
   the models with a stopping attempt are blocked.
   */
  lemma {:induction false} RunsKeepBook(plan: Plan, events: seq<Event>)
    ensures BookOk(plan, Run(plan, EmptyBook, events))
  {
    if events != [] {
      RunsKeepBook(plan, events[..|events| - 1]);
      StepKeepsBook(plan, Run(plan, EmptyBook, events[..|events| - 1]), events[|events| - 1]);
    }
  }

  lemma {:induction false} CasesStay(plan: Plan, cases: map<string, Terms>, more: seq<Case>)
    requires InsertAll(plan, cases, more).Some?
    ensures forall s :: s in cases ==>
              s in InsertAll(plan, cases, more).value && InsertAll(plan, cases, more).value[s] == cases[s]
  {
    if more != [] {
      CasesStay(plan, cases, more[..|more| - 1]);
    }
  }

  lemma StepFollows(plan: Plan, b: Book, e: Event)
    ensures Follows(b, Apply(plan, b, e))
  {
    if e.Register? && Outcome(plan, b, e).Some? {
      CasesStay(plan, b.cases, e.more);
    }
  }

  lemma FollowsOn(b: Book, c: Book, d: Book)
    requires Follows(b, c) && Follows(c, d)
    ensures Follows(b, d)
  {
    forall i | 0 <= i < |b.attempts| ensures Advances(b.attempts[i], d.attempts[i]) {
      assert Advances(b.attempts[i], c.attempts[i]) && Advances(c.attempts[i], d.attempts[i]);
    }
  }

  /** No interleaving refunds an attempt, takes a state back, unblocks a model or changes a registered case. */
  lemma {:induction false} NothingIsTakenBack(plan: Plan, b: Book, events: seq<Event>)
    ensures Follows(b, Run(plan, b, events))
  {
    if events != [] {
      var before := Run(plan, b, events[..|events| - 1]);
      NothingIsTakenBack(plan, b, events[..|events| - 1]);
      StepFollows(plan, before, events[|events| - 1]);
      FollowsOn(b, before, Run(plan, b, events));
    }
  }

  /** After a stopping attempt no process ever reserves for that model again. */
  lemma StoppedModelsStayStopped(
      plan: Plan, first: seq<Event>, later: seq<Event>, i: nat, scenario: string, tokens: Option<nat>)
    requires i < |Run(plan, EmptyBook, first).attempts| && Stops(plan, Run(plan, EmptyBook, first).attempts[i].state)
    ensures var b := Run(plan, Run(plan, EmptyBook, first), later);
            WithReserved(plan, b, Run(plan, EmptyBook, first).attempts[i].model, scenario, tokens).None?
  {
    RunsKeepBook(plan, first);
    NothingIsTakenBack(plan, Run(plan, EmptyBook, first), later);
  }

  // ---- Tokens ----

  function Spent(attempts: seq<Attempt>): nat {
    if attempts == [] then 0
    else
      var last := attempts[|attempts| - 1];
      Spent(attempts[..|attempts| - 1]) + if last.tokens.Some? then last.tokens.value else 0
  }

  lemma {:induction false} SpentAtMost(plan: Plan, attempts: seq<Attempt>, tokens: nat)
    requires plan.tokens == Some(tokens) && forall i :: 0 <= i < |attempts| ==>
      ValidBudget(plan, attempts[i].model, attempts[i].tokens)
    ensures Spent(attempts) <= |attempts| * tokens
  {
    if attempts != [] {
      SpentAtMost(plan, attempts[..|attempts| - 1], tokens);
    }
  }

  /** Whatever the processes do, the tokens reserved stay within the plan. */
  lemma TokensStayWithinPlan(plan: Plan, events: seq<Event>, tokens: nat)
    requires plan.tokens == Some(tokens)
    ensures Spent(Run(plan, EmptyBook, events).attempts) <= plan.limit * tokens
  {
    var b := Run(plan, EmptyBook, events);
    RunsKeepBook(plan, events);
    SpentAtMost(plan, b.attempts, tokens);
    Product(|b.attempts|, plan.limit, tokens);
  }

  lemma Product(a: nat, b: nat, c: nat)
    requires a <= b
    ensures a * c <= b * c
  {
  }

  // ---- Snapshots ----

  /** `snapshot`: the rows of the attempts, and the registered scenarios without one. */
  datatype Snapshot = Snapshot(rows: seq<Attempt>, pending: map<string, Terms>)

  function SnapshotOf(b: Book): Snapshot {
    Snapshot(b.attempts, map s | s in b.cases && !Taken(b.attempts, s) :: b.cases[s])
  }

  /** The places where a snapshot lists this scenario. */
  ghost function Listed(s: Snapshot, scenario: string): set<int> {
    (set i | 0 <= i < |s.rows| && s.rows[i].scenario == scenario) + if scenario in s.pending then {-1} else {}
  }

  lemma ListedOnce(b: Book, scenario: string)
    requires Scenarios(b.attempts)
    ensures |Listed(SnapshotOf(b), scenario)| == if scenario in b.cases || Taken(b.attempts, scenario) then 1 else 0
  {
    var listed := Listed(SnapshotOf(b), scenario);
    if Taken(b.attempts, scenario) {
      var i :| 0 <= i < |b.attempts| && b.attempts[i].scenario == scenario;
      assert scenario !in SnapshotOf(b).pending;
      assert listed == {i};
    } else {
      assert forall i :: 0 <= i < |b.attempts| ==> b.attempts[i].scenario != scenario;
      assert listed == if scenario in b.cases then {-1} else {};
    }
  }

  /** A snapshot lists every scenario that was registered or reserved exactly once, and no other. */
  lemma SnapshotsListEachOnce(plan: Plan, events: seq<Event>, scenario: string)
    ensures var b := Run(plan, EmptyBook, events);
            |Listed(SnapshotOf(b), scenario)| == if scenario in b.cases || Taken(b.attempts, scenario) then 1 else 0
  {
    RunsKeepBook(plan, events);
    ListedOnce(Run(plan, EmptyBook, events), scenario);
  }
}
