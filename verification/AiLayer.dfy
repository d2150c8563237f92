/** The two guarded clients of the language model, Explain (internal/ai/explainer.go) and compose
    (internal/ai/qa/answer.go), over one shared budget and one shared circuit breaker. */
module AiLayer {
  import opened Budget
  import opened Breaker

  /** What the model answers. */
  datatype Answer = Text(text: string) | Unavailable

  /** How the outside world treats one request: Redis (see CheckAndReserve), the model, the time at which the call
      ends, and whether a log row is lost. */
  datatype World = World(reachable: bool, applied: bool, rollbackLost: bool, answer: Answer, endsAt: int, logLost: bool)

  datatype LogRow = LogRow(succeeded: bool, called: bool)

  datatype Outcome = Explained | NoClient | BudgetUnchecked | BudgetExceeded | CircuitOpen | CallFailed

  predicate CoveredKey(spent: map<string, real>, idle: map<string, real>, counters: map<string, real>, cap: real,
                       key: string)
  {
    && 0.0 <= At(spent, key) && 0.0 <= At(idle, key)
    && At(spent, key) + At(idle, key) <= At(counters, key)
    && At(spent, key) + At(idle, key) <= cap
  }

  /** Model calls and idle reservations are covered by the counter and stay within the cap, for every key. */
  ghost predicate Books(spent: map<string, real>, idle: map<string, real>, counters: map<string, real>, cap: real)
  {
    forall key :: CoveredKey(spent, idle, counters, cap, key)
  }

  lemma CounterMayGrow(spent: map<string, real>, idle: map<string, real>, before: map<string, real>,
                       after: map<string, real>, cap: real)
    requires Books(spent, idle, before, cap) && forall key :: At(before, key) <= At(after, key)
    ensures Books(spent, idle, after, cap)
  {
    forall key ensures CoveredKey(spent, idle, after, cap, key) { assert CoveredKey(spent, idle, before, cap, key); }
  }

  lemma ReservationUsed(spent: map<string, real>, idle: map<string, real>, counters: map<string, real>, cap: real,
                        key: string, cost: real)
    requires Books(spent, idle, counters, cap) && cost >= 0.0
    requires At(spent, key) + At(idle, key) + cost <= At(counters, key) && At(counters, key) <= cap
    ensures Books(spent[key := At(spent, key) + cost], idle, counters, cap)
    ensures Books(spent, idle[key := At(idle, key) + cost], counters, cap)
  {
    var spent', idle' := spent[key := At(spent, key) + cost], idle[key := At(idle, key) + cost];
    forall other ensures CoveredKey(spent', idle, counters, cap, other) {
      assert CoveredKey(spent, idle, counters, cap, other);
    }
    forall other ensures CoveredKey(spent, idle', counters, cap, other) {
      assert CoveredKey(spent, idle, counters, cap, other);
    }
  }

  /** The call starts after the last recorded outcome, and ends after it starts. */
  predicate InOrder(rounds: seq<Round>, now: int, endsAt: int)
  {
    now <= endsAt && (rounds != [] ==> rounds[|rounds| - 1].recordedAt <= now)
  }

  class Guarded {
    const configured: bool
    const logged: bool
    const budget: BudgetTracker?
    const breaker: CircuitBreaker?
    const explainCost: real
    const composeCost: real
    var log: seq<LogRow>
    /** Estimated cost of the model calls made, and of reservations kept although no call was made, per budget key. */
    ghost var spent: map<string, real>
    ghost var idle: map<string, real>

    constructor (configured: bool, logged: bool, budget: BudgetTracker?, breaker: CircuitBreaker?, explainCost: real,
                 composeCost: real)
      requires explainCost > 0.0 && composeCost > 0.0
      requires budget != null ==> budget.cap > 0.0 && budget.counters == map[]
      requires breaker != null ==> breaker.Valid()
      ensures Valid() && log == [] && spent == map[] && idle == map[]
      ensures this.configured == configured && this.logged == logged && this.budget == budget && this.breaker == breaker
    {
      this.configured, this.logged, this.budget, this.breaker := configured, logged, budget, breaker;
      this.explainCost, this.composeCost := explainCost, composeCost;
      log, spent, idle := [], map[], map[];
    }

    ghost predicate Valid()
      reads this, budget, breaker
    {
      && explainCost > 0.0
      && composeCost > 0.0
      && (budget != null ==> Books(spent, idle, budget.counters, budget.cap))
      && (breaker != null ==> breaker.Valid())
    }

    /** The budget, if any, grants a call at that cost. */
    ghost predicate Reserves(key: string, cost: real, reachable: bool)
      reads this, budget
    {
      budget != null ==> key != "" && reachable && At(budget.counters, key) + cost <= budget.cap
    }

    /** The breaker, if any, lets a call in. */
    ghost predicate Open(now: int)
      reads this, breaker
    {
      breaker != null ==> Allows(breaker.config, breaker.Abstract(), now)
    }

    /** The calls so far were sequential, and this one is too. */
    ghost predicate Orderly(now: int, endsAt: int)
      reads this, breaker
    {
      breaker != null ==> Legal(breaker.config, breaker.rounds, 1) && InOrder(breaker.rounds, now, endsAt)
    }

    method Reserve(key: string, cost: real, world: World) returns (verdict: Verdict)
      requires Valid() && cost > 0.0
      modifies budget
      ensures Valid()
      ensures verdict == Failure <==> budget != null && (key == "" || !world.reachable)
      ensures verdict == Within <==> old(Reserves(key, cost, world.reachable))
      ensures budget != null && verdict == Within ==>
        Books(spent[key := At(spent, key) + cost], idle, budget.counters, budget.cap) &&
        Books(spent, idle[key := At(idle, key) + cost], budget.counters, budget.cap)
    {
      if budget == null { return Within; }
      ghost var before := budget.counters;
      assert CoveredKey(spent, idle, before, budget.cap, key);
      verdict := budget.CheckAndReserve(key, cost, world.reachable, world.applied, world.rollbackLost);
      CounterMayGrow(spent, idle, before, budget.counters, budget.cap);
      if verdict == Within { ReservationUsed(spent, idle, budget.counters, budget.cap, key, cost); }
    }

    method Admit(now: int) returns (ok: bool)
      requires Valid()
      ensures ok <==> Open(now)
    {
      ok := true;
      if breaker != null { ok := breaker.Allow(now); }
    }

    /** Records the outcome of a call let in at `now`, with no other outcome recorded since. */
    method Record(success: bool, ghost now: int, endsAt: int)
      requires Valid() && Open(now)
      modifies breaker
      ensures Valid()
      ensures breaker != null ==>
        breaker.rounds == old(breaker.rounds + [Round(|breaker.rounds|, now, endsAt, success)])
      ensures breaker != null && old(Orderly(now, endsAt)) ==> Legal(breaker.config, breaker.rounds, 1)
    {
      if breaker == null { return; }
      ghost var before, n := breaker.rounds, |breaker.rounds|;
      if Legal(breaker.config, before, 1) && InOrder(before, now, endsAt) {
        LegalSnoc(breaker.config, before, Round(n, now, endsAt, success));
      }
      hide *;
      if success { breaker.RecordSuccess(n, now, endsAt); } else { breaker.RecordFailure(n, now, endsAt); }
    }

    /** writeLog: no row without a store, and a failing write is swallowed. */
    method WriteLog(row: LogRow, lost: bool)
      modifies this`log
      ensures log == old(log) + if logged && !lost then [row] else []
    {
      if logged && !lost { log := log + [row]; }
    }

    /** Explain. The model is called exactly when the client is configured, the budget grants the cost and the breaker
        lets the call in; every path past the budget check offers the log exactly one row; a refusal by the breaker
        keeps the reservation. */
    method Explain(batchRunId: string, now: int, world: World) returns (r: Outcome)
      requires Valid()
      modifies this, budget, breaker
      ensures Valid()
      ensures r == NoClient <==> !configured
      ensures r == BudgetUnchecked <==> configured && budget != null && (batchRunId == "" || !world.reachable)
      ensures r == BudgetExceeded <==>
        configured && r != BudgetUnchecked && !old(Reserves(batchRunId, explainCost, world.reachable))
      ensures r == CircuitOpen <==>
        configured && old(Reserves(batchRunId, explainCost, world.reachable)) && !old(Open(now))
      ensures r == Explained ==> world.answer.Text?
      ensures r == CallFailed ==> world.answer.Unavailable?
      ensures spent ==
        if ModelCalled(r) then old(spent[batchRunId := At(spent, batchRunId) + explainCost]) else old(spent)
      ensures idle == if r == CircuitOpen && budget != null
                      then old(idle[batchRunId := At(idle, batchRunId) + explainCost]) else old(idle)
      ensures r == NoClient || r == BudgetUnchecked || !logged || world.logLost ==> log == old(log)
      ensures r != NoClient && r != BudgetUnchecked && logged && !world.logLost ==>
        log == old(log) + [LogRow(r == Explained, ModelCalled(r))]
      ensures breaker != null && !ModelCalled(r) ==> breaker.rounds == old(breaker.rounds)
      ensures breaker != null && ModelCalled(r) ==>
        breaker.rounds == old(breaker.rounds + [Round(|breaker.rounds|, now, world.endsAt, r == Explained)])
      ensures breaker != null && old(Orderly(now, world.endsAt)) ==> Legal(breaker.config, breaker.rounds, 1)
    {
      if !configured { return NoClient; }
      var verdict := Reserve(batchRunId, explainCost, world);
      if verdict == Failure { return BudgetUnchecked; }
      if verdict == Over {
        WriteLog(LogRow(false, false), world.logLost);
        return BudgetExceeded;
      }
      var ok := Admit(now);
      hide Books;
      hide Legal;
      hide Allows;
      if !ok {
        if budget != null { idle := idle[batchRunId := At(idle, batchRunId) + explainCost]; }
        WriteLog(LogRow(false, false), world.logLost);
        return CircuitOpen;
      }
      spent := spent[batchRunId := At(spent, batchRunId) + explainCost];
      var success := world.answer.Text?;
      Record(success, now, world.endsAt);
      WriteLog(LogRow(success, true), world.logLost);
      r := if success then Explained else CallFailed;
    }

    /** compose: the same guards, no log; an empty answer counts as a failure of the model, an ungrounded one does not.
        `encodes` says whether the evidence rows marshal; the model's text comes with outer white space trimmed. */
    method Compose(budgetKey: string, now: int, world: World, encodes: bool, grounded: bool)
      returns (text: string, called: bool)
      requires Valid()
      modifies this, budget, breaker
      ensures Valid() && log == old(log)
      ensures called <==>
        configured && encodes && old(Reserves(budgetKey, composeCost, world.reachable)) && old(Open(now))
      ensures text == if called && grounded && world.answer.Text? then world.answer.text else ""
      ensures spent == if called then old(spent[budgetKey := At(spent, budgetKey) + composeCost]) else old(spent)
      ensures idle ==
        if !called && configured && budget != null && old(Reserves(budgetKey, composeCost, world.reachable))
        then old(idle[budgetKey := At(idle, budgetKey) + composeCost]) else old(idle)
      ensures breaker != null && !called ==> breaker.rounds == old(breaker.rounds)
      ensures breaker != null && called ==>
        breaker.rounds == old(breaker.rounds) +
          [Round(old(|breaker.rounds|), now, world.endsAt, world.answer.Text? && world.answer.text != "")]
      ensures breaker != null && old(Orderly(now, world.endsAt)) ==> Legal(breaker.config, breaker.rounds, 1)
    {
      text, called := "", false;
      if !configured { return; }
      var verdict := Reserve(budgetKey, composeCost, world);
      if verdict != Within { return; }
      var ok := Admit(now);
      hide Books;
      hide Legal;
      hide Allows;
      if !ok || !encodes {
        if budget != null { idle := idle[budgetKey := At(idle, budgetKey) + composeCost]; }
        return;
      }
      spent, called := spent[budgetKey := At(spent, budgetKey) + composeCost], true;
      var success := world.answer.Text? && world.answer.text != "";
      Record(success, now, world.endsAt);
      if success && grounded { text := world.answer.text; }
    }

    /** Whatever the mix of Explain and Compose, the model calls on one key cost at most the cap. */
    lemma SpentWithinCap(key: string)
      requires Valid() && budget != null
      ensures At(spent, key) <= budget.cap
    {
      assert CoveredKey(spent, idle, budget.counters, budget.cap, key);
    }

    /** And n failures past the breaker's threshold take them n cooldowns, if they call one after the other. */
    lemma FailuresAreSpaced()
      requires Valid() && breaker != null && Legal(breaker.config, breaker.rounds, 1)
      requires breaker.consecutiveFail >= breaker.config.threshold
      ensures var n, last := breaker.consecutiveFail - breaker.config.threshold, |breaker.rounds| - 1;
        && n <= last
        && breaker.rounds[last].recordedAt - breaker.rounds[last - n].recordedAt >= n * breaker.config.cooldown
    {
      FailsIsStreak(breaker.config, breaker.rounds);
      SequentialRateBound(breaker.config, breaker.rounds);
    }
  }

  /** The model was called. */
  predicate ModelCalled(r: Outcome) { r == Explained || r == CallFailed }
}
