/**
 The probe ledger (`ledger.py`): a budget of attempts that several processes
 share through one database, one transaction at a time.
 */
module Ledgers {
  import opened Prelude

  /** `tokens` is absent in an image plan. */
  datatype Plan = Plan(models: set<string>, limit: nat, tokens: Option<nat>, continueOracle: bool)

  datatype AttemptState = Reserved | Dispatched | Passed | OracleFailed | Failed | Cancelled {
    predicate Final() { !Reserved? && !Dispatched? }
  }

  datatype Attempt = Attempt(scenario: string, model: string, tokens: Option<nat>, state: AttemptState)

  datatype Case = Case(model: string, scenario: string, tokens: Option<nat>)

  datatype Terms = Terms(model: string, tokens: Option<nat>)

  /** The tables. The row id of an attempt is its position plus one. */
  datatype Book = Book(cases: map<string, Terms>, attempts: seq<Attempt>, blocked: set<string>)

  const EmptyBook := Book(map[], [], {})

  const CASES: nat := 256

  predicate ValidBudget(plan: Plan, model: string, tokens: Option<nat>) {
    && model in plan.models
    && if plan.tokens.None? then tokens.None? else tokens.Some? && 1 <= tokens.value <= plan.tokens.value
  }

  predicate ScenarioChar(c: char) { 'a' <= c <= 'z' || 'A' <= c <= 'Z' || '0' <= c <= '9' || c in {'_', ':', '.', '-'} }

  predicate ValidScenario(s: string) { 1 <= |s| <= 128 && forall i :: 0 <= i < |s| ==> ScenarioChar(s[i]) }

  // ---- Transactions, by what they make of the tables; `None` rolls back ----

  function Insert(plan: Plan, cases: map<string, Terms>, c: Case): Option<map<string, Terms>> {
    if !ValidBudget(plan, c.model, c.tokens) || !ValidScenario(c.scenario) then None
    else if c.scenario in cases then if cases[c.scenario] == Terms(c.model, c.tokens) then Some(cases) else None
    else Some(cases[c.scenario := Terms(c.model, c.tokens)])
  }

  function InsertAll(plan: Plan, cases: map<string, Terms>, more: seq<Case>): Option<map<string, Terms>> {
    if more == [] then Some(cases)
    else
      match InsertAll(plan, cases, more[..|more| - 1])
      case None => None
      case Some(before) => Insert(plan, before, more[|more| - 1])
  }

  /** The new cases are legal, and agree with the registered ones and with each other. */
  ghost predicate Consistent(plan: Plan, cases: map<string, Terms>, more: seq<Case>) {
    && (forall i :: 0 <= i < |more| ==>
          && ValidBudget(plan, more[i].model, more[i].tokens) && ValidScenario(more[i].scenario)
          && (more[i].scenario in cases ==> cases[more[i].scenario] == Terms(more[i].model, more[i].tokens)))
    && (forall i, j :: 0 <= i < j < |more| && more[i].scenario == more[j].scenario ==>
          more[i].model == more[j].model && more[i].tokens == more[j].tokens)
  }

  /** The table `after` is `before` with the legal new cases, each under its own terms, and no others. */
  ghost predicate Includes(plan: Plan, before: map<string, Terms>, more: seq<Case>, after: map<string, Terms>) {
    && (forall i :: 0 <= i < |more| ==>
          && ValidBudget(plan, more[i].model, more[i].tokens) && ValidScenario(more[i].scenario)
          && more[i].scenario in after && after[more[i].scenario] == Terms(more[i].model, more[i].tokens))
    && (forall s :: s in after ==> s in before || exists i :: 0 <= i < |more| && more[i].scenario == s)
    && (forall s :: s in before ==> s in after && after[s] == before[s])
  }

  /** Inserting succeeds exactly on consistent cases, and includes them all. */
  lemma {:induction false} InsertedIsIncluded(plan: Plan, cases: map<string, Terms>, more: seq<Case>)
    ensures InsertAll(plan, cases, more).Some? <==> Consistent(plan, cases, more)
    ensures InsertAll(plan, cases, more).Some? ==>
              var after := InsertAll(plan, cases, more).value;
              Includes(plan, cases, more, after) && |after| <= |cases| + |more|
    decreases |more|
  {
    hide ValidBudget, ValidScenario;
    if more != [] {
      var n := |more| - 1;
      InsertedIsIncluded(plan, cases, more[..n]);
      if Consistent(plan, cases, more[..n]) {
        InsertOne(plan, cases, InsertAll(plan, cases, more[..n]).value, more);
      }
    }
  }

  /** One more case, in terms of the cases before it. */
  lemma ConsistentStep(plan: Plan, cases: map<string, Terms>, more: seq<Case>)
    requires more != []
    ensures var n := |more| - 1;
            var c := more[n];
            Consistent(plan, cases, more) <==>
              && Consistent(plan, cases, more[..n])
              && ValidBudget(plan, c.model, c.tokens) && ValidScenario(c.scenario)
              && (c.scenario in cases ==> cases[c.scenario] == Terms(c.model, c.tokens))
              && (forall i :: 0 <= i < n && more[..n][i].scenario == c.scenario ==>
                    more[..n][i].model == c.model && more[..n][i].tokens == c.tokens)
  {
    hide ValidBudget, ValidScenario;
    var n := |more| - 1;
    assert forall i :: 0 <= i < n ==> more[..n][i] == more[i];
  }

  lemma InsertOne(plan: Plan, cases: map<string, Terms>, before: map<string, Terms>, more: seq<Case>)
    requires more != []
    requires var n := |more| - 1; Consistent(plan, cases, more[..n]) && Includes(plan, cases, more[..n], before)
    ensures Insert(plan, before, more[|more| - 1]).Some? <==> Consistent(plan, cases, more)
    ensures Insert(plan, before, more[|more| - 1]).Some? ==>
              var after := Insert(plan, before, more[|more| - 1]).value;
              Includes(plan, cases, more, after) && |after| <= |before| + 1
  {
    hide ValidBudget, ValidScenario, Consistent;
    var n := |more| - 1;
    var c := more[n];
    ConsistentStep(plan, cases, more);
    if c.scenario in before && c.scenario !in cases {
      var i :| 0 <= i < n && more[..n][i].scenario == c.scenario;
      assert before[c.scenario] == Terms(more[..n][i].model, more[..n][i].tokens);
    }
    if Insert(plan, before, c).Some? {
      IncludesStep(plan, cases, before, more, Insert(plan, before, c).value);
    }
  }

  lemma InsertGrows(plan: Plan, before: map<string, Terms>, c: Case, after: map<string, Terms>)
    requires Insert(plan, before, c) == Some(after)
    ensures ValidBudget(plan, c.model, c.tokens) && ValidScenario(c.scenario)
    ensures c.scenario in after && after[c.scenario] == Terms(c.model, c.tokens)
    ensures forall s :: s in after ==> s in before || s == c.scenario
    ensures forall s :: s in before ==> s in after && after[s] == before[s]
    ensures |after| <= |before| + 1
  {
    hide ValidBudget, ValidScenario;
    assert before[c.scenario := Terms(c.model, c.tokens)].Keys == before.Keys + {c.scenario};
  }

  lemma IncludesStep(
      plan: Plan, cases: map<string, Terms>, before: map<string, Terms>, more: seq<Case>, after: map<string, Terms>)
    requires more != [] && Insert(plan, before, more[|more| - 1]) == Some(after)
    requires Includes(plan, cases, more[..|more| - 1], before)
    ensures Includes(plan, cases, more, after) && |after| <= |before| + 1
  {
    hide ValidBudget, ValidScenario, Insert;
    InsertGrows(plan, before, more[|more| - 1], after);
    var n := |more| - 1;
    var c := more[n];
    forall i | 0 <= i < |more|
      ensures ValidBudget(plan, more[i].model, more[i].tokens) && ValidScenario(more[i].scenario)
      ensures more[i].scenario in after && after[more[i].scenario] == Terms(more[i].model, more[i].tokens)
    {
      if i < n {
        assert more[..n][i] == more[i];
      }
    }
    forall s | s in after && s !in cases ensures exists i :: 0 <= i < |more| && more[i].scenario == s {
      if s == c.scenario {
        assert more[n].scenario == s;
      } else {
        var i :| 0 <= i < n && more[..n][i].scenario == s;
        assert more[i].scenario == s;
      }
    }
  }

  function Registered(plan: Plan, b: Book, more: seq<Case>): Option<Book> {
    var cases := InsertAll(plan, b.cases, more);
    if |more| > CASES || cases.None? || |cases.value| > CASES then None else Some(b.(cases := cases.value))
  }

  predicate Taken(attempts: seq<Attempt>, scenario: string) {
    exists i :: 0 <= i < |attempts| && attempts[i].scenario == scenario
  }

  function WithReserved(plan: Plan, b: Book, model: string, scenario: string, tokens: Option<nat>): Option<Book> {
    if !ValidBudget(plan, model, tokens) || !ValidScenario(scenario) || model in b.blocked
       || |b.attempts| >= plan.limit || Taken(b.attempts, scenario) then None
    else Some(b.(attempts := b.attempts + [Attempt(scenario, model, tokens, Reserved)]))
  }

  function WithDispatched(b: Book, id: nat): Option<Book> {
    if !(1 <= id <= |b.attempts|) || b.attempts[id - 1].state != Reserved then None
    else Some(b.(attempts := b.attempts[id - 1 := b.attempts[id - 1].(state := Dispatched)]))
  }

  predicate Stops(plan: Plan, state: AttemptState) {
    state == AttemptState.Failed || (state == OracleFailed && !plan.continueOracle)
  }

  function WithFinished(plan: Plan, b: Book, id: nat, state: AttemptState): Option<Book> {
    if !state.Final() || !(1 <= id <= |b.attempts|) || b.attempts[id - 1].state.Final() then None
    else
      var attempt := b.attempts[id - 1];
      Some(b.(attempts := b.attempts[id - 1 := attempt.(state := state)],
              blocked := if Stops(plan, state) then b.blocked + {attempt.model} else b.blocked))
  }

  // ---- The database as an object ----

  /** `accepted` says that the plan, its digest, its source and its expiry check out. */
  class Run {
    const plan: Plan
    var cases: map<string, Terms>
    var attempts: seq<Attempt>
    var blocked: set<string>

    function Tables(): Book
      reads this
    {
      Book(cases, attempts, blocked)
    }

    constructor (plan: Plan)
      ensures this.plan == plan && Tables() == EmptyBook
    {
      this.plan := plan;
      cases, attempts, blocked := map[], [], {};
    }

    method Register(more: seq<Case>, accepted: bool) returns (ok: bool)
      modifies this`cases
      ensures ok <==> accepted && Registered(plan, old(Tables()), more).Some?
      ensures Tables() == if ok then Registered(plan, old(Tables()), more).value else old(Tables())
      ensures ok ==> |more| <= CASES && |cases| <= CASES && Includes(plan, old(cases), more, cases)
      ensures accepted && Consistent(plan, old(cases), more) && |old(cases)| + |more| <= CASES ==> ok
    {
      hide ValidBudget, ValidScenario, Consistent, Includes;
      InsertedIsIncluded(plan, cases, more);
      if |more| > CASES || !accepted {
        return false;
      }
      var next := cases;
      var i := 0;
      while i < |more|
        invariant 0 <= i <= |more|
        invariant InsertAll(plan, cases, more[..i]) == Some(next)
      {
        assert more[..i + 1][..i] == more[..i] && more[..i + 1][i] == more[i];
        var c := more[i];
        if !ValidBudget(plan, c.model, c.tokens) || !ValidScenario(c.scenario)
           || (c.scenario in next && next[c.scenario] != Terms(c.model, c.tokens)) {
          InsertFails(plan, cases, more, i + 1);
          return false;
        }
        if c.scenario !in next {
          next := next[c.scenario := Terms(c.model, c.tokens)];
        }
        i := i + 1;
      }
      assert more[..i] == more;
      if |next| > CASES {
        return false;
      }
      cases := next;
      ok := true;
    }

    method Reserve(model: string, scenario: string, tokens: Option<nat>, accepted: bool) returns (id: Option<nat>)
      modifies this`attempts
      ensures id.Some? <==>
                && accepted && ValidBudget(plan, model, tokens) && ValidScenario(scenario)
                && model !in blocked && |old(attempts)| < plan.limit
                && forall i :: 0 <= i < |old(attempts)| ==> old(attempts)[i].scenario != scenario
      ensures id.Some? <==> accepted && WithReserved(plan, old(Tables()), model, scenario, tokens).Some?
      ensures Tables()
              == if id.Some? then WithReserved(plan, old(Tables()), model, scenario, tokens).value else old(Tables())
      ensures id.Some? ==>
                id.value == |attempts| && attempts[id.value - 1] == Attempt(scenario, model, tokens, Reserved)
    {
      if !ValidBudget(plan, model, tokens) || !ValidScenario(scenario) || !accepted {
        return None;
      }
      if model in blocked || |attempts| >= plan.limit || Taken(attempts, scenario) {
        return None;
      }
      attempts := attempts + [Attempt(scenario, model, tokens, Reserved)];
      id := Some(|attempts|);
    }

    method Dispatch(id: nat, accepted: bool) returns (ok: bool)
      modifies this`attempts
      ensures ok <==> accepted && 1 <= id <= |old(attempts)| && old(attempts)[id - 1].state == Reserved
      ensures ok ==> attempts == old(attempts)[id - 1 := old(attempts)[id - 1].(state := Dispatched)]
      ensures ok <==> accepted && WithDispatched(old(Tables()), id).Some?
      ensures Tables() == if ok then WithDispatched(old(Tables()), id).value else old(Tables())
    {
      if !accepted || id == 0 || id > |attempts| || attempts[id - 1].state != Reserved {
        return false;
      }
      attempts := attempts[id - 1 := attempts[id - 1].(state := Dispatched)];
      ok := true;
    }

    method Finish(id: nat, state: AttemptState, accepted: bool) returns (ok: bool)
      modifies this`attempts, this`blocked
      ensures ok <==>
                && accepted && state.Final() && 1 <= id <= |old(attempts)|
                && old(attempts)[id - 1].state in {Reserved, Dispatched}
      ensures ok ==>
                && attempts == old(attempts)[id - 1 := old(attempts)[id - 1].(state := state)]
                && blocked == (if state == AttemptState.Failed || (state == OracleFailed && !plan.continueOracle)
                               then old(blocked) + {attempts[id - 1].model} else old(blocked))
      ensures ok <==> accepted && WithFinished(plan, old(Tables()), id, state).Some?
      ensures Tables() == if ok then WithFinished(plan, old(Tables()), id, state).value else old(Tables())
    {
      if !state.Final() || !accepted || id == 0 || id > |attempts| || attempts[id - 1].state.Final() {
        return false;
      }
      var model := attempts[id - 1].model;
      attempts := attempts[id - 1 := attempts[id - 1].(state := state)];
      if state == AttemptState.Failed || (state == OracleFailed && !plan.continueOracle) {
        blocked := blocked + {model};
      }
      ok := true;
    }
  }

  lemma {:induction false} InsertFails(plan: Plan, cases: map<string, Terms>, more: seq<Case>, n: nat)
    requires n <= |more| && InsertAll(plan, cases, more[..n]).None?
    ensures InsertAll(plan, cases, more).None?
    decreases |more|
  {
    if n < |more| {
      assert more[..|more| - 1][..n] == more[..n];
      InsertFails(plan, cases, more[..|more| - 1], n);
    } else {
      assert more[..n] == more;
    }
  }
}
