/** The AI spend cap (internal/ai/budget.go): reserve, check, roll back, one Redis operation at a time.
    Money is an exact real, and the counter outlives the batch. */
module Budget {

  // ---------------------------------------------------------------- the protocol

  /** Where one CheckAndReserve call, and the LLM call it guards, has got to. */
  datatype Phase = Started
                 | Reserved(total: real)
                 | RollingBack
                 | Accepted
                 | Called
                 | BreakerOpen
                 | Rejected
                 | RollbackLost
                 | Errored(applied: bool)

  datatype Call = Call(cost: real, phase: Phase)

  /** One budget key: the Redis counter, and every call ever made on it by any number of clients. */
  datatype Account = Account(cap: real, counter: real, calls: seq<Call>)

  datatype Step = Arrive(cost: real)
                | Increment(i: nat)
                | IncrementError(i: nat, applied: bool)
                | Check(i: nat)
                | RollBack(i: nat)
                | LoseRollBack(i: nat)
                | CallModel(i: nat)
                | SkipByBreaker(i: nat)

  predicate Enabled(a: Account, step: Step)
  {
    match step
    case Arrive(cost) => cost >= 0.0
    case Increment(i) => i < |a.calls| && a.calls[i].phase.Started?
    case IncrementError(i, _) => i < |a.calls| && a.calls[i].phase.Started?
    case Check(i) => i < |a.calls| && a.calls[i].phase.Reserved?
    case RollBack(i) => i < |a.calls| && a.calls[i].phase.RollingBack?
    case LoseRollBack(i) => i < |a.calls| && a.calls[i].phase.RollingBack?
    case CallModel(i) => i < |a.calls| && a.calls[i].phase.Accepted?
    case SkipByBreaker(i) => i < |a.calls| && a.calls[i].phase.Accepted?
  }

  function Move(a: Account, i: nat, delta: real, phase: Phase): Account
    requires i < |a.calls|
  {
    a.(counter := a.counter + delta, calls := a.calls[i := a.calls[i].(phase := phase)])
  }

  function Do(a: Account, step: Step): Account
    requires Enabled(a, step)
  {
    match step
    case Arrive(cost) => a.(calls := a.calls + [Call(cost, Started)])
    case Increment(i) => Move(a, i, a.calls[i].cost, Reserved(a.counter + a.calls[i].cost))
    case IncrementError(i, applied) => Move(a, i, if applied then a.calls[i].cost else 0.0, Errored(applied))
    case Check(i) => Move(a, i, 0.0, if a.calls[i].phase.total > a.cap then RollingBack else Accepted)
    case RollBack(i) => Move(a, i, -a.calls[i].cost, Rejected)
    case LoseRollBack(i) => Move(a, i, 0.0, RollbackLost)
    case CallModel(i) => Move(a, i, 0.0, Called)
    case SkipByBreaker(i) => Move(a, i, 0.0, BreakerOpen)
  }

  // ---------------------------------------------------------------- sums

  function Sum(calls: seq<Call>, weight: Call -> real): real
  {
    if calls == [] then 0.0 else Sum(calls[..|calls| - 1], weight) + weight(calls[|calls| - 1])
  }

  lemma {:induction false} SumUpdated(calls: seq<Call>, i: nat, c: Call, weight: Call -> real)
    requires i < |calls|
    ensures Sum(calls[i := c], weight) == Sum(calls, weight) - weight(calls[i]) + weight(c)
  {
    var last := |calls| - 1;
    if i < last {
      SumUpdated(calls[..last], i, c, weight);
      assert calls[i := c][..last] == calls[..last][i := c];
    } else {
      assert calls[i := c][..last] == calls[..last];
    }
  }

  lemma {:induction false} SumBelow(calls: seq<Call>, light: Call -> real, heavy: Call -> real)
    requires forall i :: 0 <= i < |calls| ==> light(calls[i]) <= heavy(calls[i])
    ensures Sum(calls, light) <= Sum(calls, heavy)
  {
    if calls != [] { SumBelow(calls[..|calls| - 1], light, heavy); }
  }

  lemma {:induction false} SumSplit(calls: seq<Call>, whole: Call -> real, a: Call -> real, b: Call -> real)
    requires forall i :: 0 <= i < |calls| ==> whole(calls[i]) == a(calls[i]) + b(calls[i])
    ensures Sum(calls, whole) == Sum(calls, a) + Sum(calls, b)
  {
    if calls != [] { SumSplit(calls[..|calls| - 1], whole, a, b); }
  }

  /** What a call currently contributes to the counter. */
  function Charged(): Call -> real
  {
    (c: Call) => if c.phase.Started? || c.phase.Rejected? || c.phase == Errored(false) then 0.0 else c.cost
  }

  /** A call that was, or on its own total will be, accepted. */
  function Granted(cap: real): Call -> real
  {
    (c: Call) => if IsAccepted(c) || (c.phase.Reserved? && c.phase.total <= cap) then c.cost else 0.0
  }

  predicate IsAccepted(c: Call) { c.phase.Accepted? || c.phase.Called? || c.phase.BreakerOpen? }

  function AcceptedCost(): Call -> real { (c: Call) => if IsAccepted(c) then c.cost else 0.0 }

  function CalledCost(): Call -> real { (c: Call) => if c.phase.Called? then c.cost else 0.0 }

  /** Charges that no caller ever benefits from: lost rollbacks and increments reported as errors. */
  function StrandedCost(): Call -> real
  {
    (c: Call) => if c.phase.RollbackLost? || c.phase == Errored(true) then c.cost else 0.0
  }

  // ---------------------------------------------------------------- invariant

  ghost predicate Ok(a: Account)
  {
    && a.cap >= 0.0
    && (forall i :: 0 <= i < |a.calls| ==> a.calls[i].cost >= 0.0)
    && a.counter == Sum(a.calls, Charged())
    && Sum(a.calls, Granted(a.cap)) <= a.cap
  }

  /** Moving one call keeps the invariant when the counter follows its charge and a new grant fits the cap. */
  lemma MoveKeepsOk(a: Account, i: nat, delta: real, phase: Phase)
    requires Ok(a) && i < |a.calls|
    requires Charged()(a.calls[i].(phase := phase)) == Charged()(a.calls[i]) + delta
    requires Granted(a.cap)(a.calls[i].(phase := phase)) <= Granted(a.cap)(a.calls[i])
      || (Granted(a.cap)(a.calls[i]) == 0.0 && a.counter + Granted(a.cap)(a.calls[i].(phase := phase)) <= a.cap)
    ensures Ok(Move(a, i, delta, phase))
  {
    var c := a.calls[i].(phase := phase);
    SumBelow(a.calls, Granted(a.cap), Charged());
    SumUpdated(a.calls, i, c, Charged());
    SumUpdated(a.calls, i, c, Granted(a.cap));
    hide Sum;
    hide Charged;
    hide Granted;
  }

  lemma ArriveKeepsOk(a: Account, cost: real)
    requires Ok(a) && cost >= 0.0
    ensures Ok(Do(a, Arrive(cost)))
  {
    assert (a.calls + [Call(cost, Started)])[..|a.calls|] == a.calls;
  }

  /** Every step keeps the counter equal to the outstanding charges and the granted costs within the cap. */
  lemma StepKeepsOk(a: Account, step: Step)
    requires Ok(a) && Enabled(a, step)
    ensures Ok(Do(a, step))
  {
    if step.Arrive? {
      ArriveKeepsOk(a, step.cost);
    } else if step.Increment? || step.IncrementError? {
      IncrementKeepsOk(a, step);
    }
    hide Ok;
    match step
    case Arrive(_) =>
    case Increment(_) =>
    case IncrementError(_, _) =>
    case Check(i) => MoveKeepsOk(a, i, 0.0, if a.calls[i].phase.total > a.cap then RollingBack else Accepted);
    case RollBack(i) => MoveKeepsOk(a, i, -a.calls[i].cost, Rejected);
    case LoseRollBack(i) => MoveKeepsOk(a, i, 0.0, RollbackLost);
    case CallModel(i) => MoveKeepsOk(a, i, 0.0, Called);
    case SkipByBreaker(i) => MoveKeepsOk(a, i, 0.0, BreakerOpen);
  }

  lemma IncrementKeepsOk(a: Account, step: Step)
    requires Ok(a) && Enabled(a, step) && (step.Increment? || step.IncrementError?)
    ensures Ok(Do(a, step))
  {
    hide Ok;
    match step
    case Increment(i) => MoveKeepsOk(a, i, a.calls[i].cost, Reserved(a.counter + a.calls[i].cost));
    case IncrementError(i, applied) => MoveKeepsOk(a, i, if applied then a.calls[i].cost else 0.0, Errored(applied));
  }

  ghost predicate Behaves(accounts: seq<Account>, steps: seq<Step>)
  {
    && |accounts| == |steps| + 1
    && accounts[0].cap >= 0.0 && accounts[0].counter == 0.0 && accounts[0].calls == []
    && forall i :: 0 <= i < |steps| ==> Enabled(accounts[i], steps[i]) && accounts[i + 1] == Do(accounts[i], steps[i])
  }

  lemma {:induction false} AlwaysOk(accounts: seq<Account>, steps: seq<Step>, n: nat)
    requires Behaves(accounts, steps) && n < |accounts|
    ensures Ok(accounts[n]) && accounts[n].cap == accounts[0].cap
  {
    if n > 0 {
      AlwaysOk(accounts, steps, n - 1);
      assert accounts[n] == Do(accounts[n - 1], steps[n - 1]);
      StepKeepsOk(accounts[n - 1], steps[n - 1]);
    }
  }

  /** In every interleaving, lost rollbacks included, the accepted costs never exceed the cap; nor then do the
      estimated costs of the model calls made. */
  lemma AcceptedWithinCap(accounts: seq<Account>, steps: seq<Step>, n: nat)
    requires Behaves(accounts, steps) && n < |accounts|
    ensures Sum(accounts[n].calls, CalledCost()) <= Sum(accounts[n].calls, AcceptedCost()) <= accounts[0].cap
  {
    AlwaysOk(accounts, steps, n);
    var a := accounts[n];
    SumBelow(a.calls, CalledCost(), AcceptedCost());
    SumBelow(a.calls, AcceptedCost(), Granted(a.cap));
  }

  /** With no call in flight the counter is the accepted costs plus the stranded ones: exactly the accepted
      costs when no rollback was lost and no increment failed after taking effect. */
  lemma QuietCounter(accounts: seq<Account>, steps: seq<Step>, n: nat)
    requires Behaves(accounts, steps) && n < |accounts|
    requires forall i :: 0 <= i < |accounts[n].calls| ==>
      !accounts[n].calls[i].phase.Reserved? && !accounts[n].calls[i].phase.RollingBack?
    ensures accounts[n].counter == Sum(accounts[n].calls, AcceptedCost()) + Sum(accounts[n].calls, StrandedCost())
  {
    AlwaysOk(accounts, steps, n);
    SumSplit(accounts[n].calls, Charged(), AcceptedCost(), StrandedCost());
  }

  lemma {:induction false} CountCalled(calls: seq<Call>, cost: real)
    requires forall i :: 0 <= i < |calls| && calls[i].phase.Called? ==> calls[i].cost >= cost
    ensures NumCalled(calls) as real * cost <= Sum(calls, CalledCost())
  {
    if calls != [] { CountCalled(calls[..|calls| - 1], cost); }
  }

  function NumCalled(calls: seq<Call>): nat
  {
    if calls == [] then 0 else NumCalled(calls[..|calls| - 1]) + if calls[|calls| - 1].phase.Called? then 1 else 0
  }

  /** Calls made times their estimated cost stay within the cap. */
  lemma ModelCallsWithinCap(accounts: seq<Account>, steps: seq<Step>, n: nat, cost: real)
    requires Behaves(accounts, steps) && n < |accounts|
    requires forall i :: 0 <= i < |accounts[n].calls| && accounts[n].calls[i].phase.Called? ==>
      accounts[n].calls[i].cost >= cost
    ensures NumCalled(accounts[n].calls) as real * cost <= accounts[0].cap
  {
    CountCalled(accounts[n].calls, cost);
    AcceptedWithinCap(accounts, steps, n);
  }

  // ---------------------------------------------------------------- who is turned away

  /** Charges of calls that are not accepted: under way, about to be rolled back, or stranded. */
  function Pending(): Call -> real
  {
    (c: Call) =>
      if c.phase.Reserved? || c.phase.RollingBack? || c.phase.RollbackLost? || c.phase == Errored(true) then c.cost
      else 0.0
  }

  /** What an increment finds in the counter. */
  lemma CounterIsAcceptedAndPending(a: Account)
    requires Ok(a)
    ensures a.counter == Sum(a.calls, AcceptedCost()) + Sum(a.calls, Pending())
  {
    SumSplit(a.calls, Charged(), AcceptedCost(), Pending());
  }

  /** A call keeps the total its increment returned until it is checked. */
  lemma {:induction false} TotalStays(accounts: seq<Account>, steps: seq<Step>, n: nat, m: nat, i: nat)
    requires Behaves(accounts, steps) && n < m < |accounts| && steps[n] == Increment(i)
    requires forall j :: n < j < m ==> steps[j] != Check(i)
    ensures i < |accounts[n].calls| && i < |accounts[m].calls| && accounts[n].calls[i].phase.Started?
    ensures accounts[m].calls[i] ==
      Call(accounts[n].calls[i].cost, Reserved(accounts[n].counter + accounts[n].calls[i].cost))
  {
    if m > n + 1 { TotalStays(accounts, steps, n, m - 1, i); }
    assert Enabled(accounts[m - 1], steps[m - 1]) && accounts[m] == Do(accounts[m - 1], steps[m - 1]);
  }

  /** A call that increments at step `n` and is checked at step `m` is turned away exactly when at step `n` the accepted
      and pending costs left no room for it; so one that fits beside every accepted call is turned away exactly when
      the pending costs, rollbacks under way included, take up the difference. */
  lemma TurnedAwayIff(accounts: seq<Account>, steps: seq<Step>, n: nat, m: nat, i: nat)
    requires Behaves(accounts, steps) && n < m < |steps| && steps[n] == Increment(i) && steps[m] == Check(i)
    requires forall j :: n < j < m ==> steps[j] != Check(i)
    ensures i < |accounts[n].calls| && i < |accounts[m + 1].calls|
    ensures var a, cap := accounts[n], accounts[0].cap;
      var accepted, pending, cost := Sum(a.calls, AcceptedCost()), Sum(a.calls, Pending()), a.calls[i].cost;
      && (accounts[m + 1].calls[i].phase.RollingBack? <==> accepted + pending + cost > cap)
      && ((accounts[m + 1].calls[i].phase.RollingBack? && accepted + cost <= cap) <==>
          (accepted + cost <= cap < accepted + pending + cost))
  {
    TotalStays(accounts, steps, n, m, i);
    AlwaysOk(accounts, steps, n);
    AlwaysOk(accounts, steps, m);
    CounterIsAcceptedAndPending(accounts[n]);
    assert accounts[m + 1] == Do(accounts[m], steps[m]);
    hide Sum;
    hide Ok;
  }

  lemma SumSnoc(calls: seq<Call>, c: Call, weight: Call -> real)
    ensures Sum(calls + [c], weight) == Sum(calls, weight) + weight(c)
  {
    assert (calls + [c])[..|calls|] == calls;
  }

  lemma SumOfTwo(c: Call, d: Call, weight: Call -> real)
    ensures Sum([c, d], weight) == weight(c) + weight(d)
  {
    assert [c, d] == [] + [c] + [d];
    SumSnoc([] + [c], d, weight);
    SumSnoc([], c, weight);
  }

  /** It does happen: while a rejected reservation is outstanding a call that would fit beside every accepted one is
      turned away. */
  lemma SpuriousRejection() returns (accounts: seq<Account>, steps: seq<Step>)
    ensures Behaves(accounts, steps)
    ensures var a := accounts[|accounts| - 1];
      && |a.calls| == 2 && a.calls[1].phase.RollingBack?
      && Sum(a.calls, AcceptedCost()) + a.calls[1].cost <= a.cap
  {
    hide Sum;
    steps := [Arrive(11.0), Arrive(1.0), Increment(0), Increment(1), Check(1)];
    var a0 := Account(10.0, 0.0, []);
    var a1 := Do(a0, steps[0]);
    var a2 := Do(a1, steps[1]);
    var a3 := Do(a2, steps[2]);
    var a4 := Do(a3, steps[3]);
    var a5 := Do(a4, steps[4]);
    accounts := [a0, a1, a2, a3, a4, a5];
    assert a5.calls == [Call(11.0, Reserved(11.0)), Call(1.0, RollingBack)];
    SumOfTwo(Call(11.0, Reserved(11.0)), Call(1.0, RollingBack), AcceptedCost());
  }

  // ---------------------------------------------------------------- one call at a time

  function At(counters: map<string, real>, key: string): real { if key in counters then counters[key] else 0.0 }

  datatype Verdict = Within | Over | Failure

  class BudgetTracker {
    const cap: real
    var counters: map<string, real>

    constructor (cap: real)
      ensures this.cap == cap && counters == map[]
    {
      this.cap, counters := cap, map[];
    }

    /** CheckAndReserve without interference. Redis may answer the increment with an error, having `applied` it or not,
        and may drop the compensating one. */
    method CheckAndReserve(batchRunId: string, estCost: real, reachable: bool, applied: bool, rollbackLost: bool)
      returns (verdict: Verdict)
      modifies this
      ensures verdict == Failure <==> batchRunId == "" || !reachable
      ensures verdict == Within <==> verdict != Failure && old(At(counters, batchRunId)) + estCost <= cap
      ensures At(counters, batchRunId) == old(At(counters, batchRunId)) +
        (match verdict
         case Within => estCost
         case Over => if rollbackLost then estCost else 0.0
         case Failure => if batchRunId != "" && applied then estCost else 0.0)
      ensures forall key :: key != batchRunId ==> At(counters, key) == old(At(counters, key))
    {
      if batchRunId == "" { return Failure; }
      if !reachable {
        if applied { counters := counters[batchRunId := At(counters, batchRunId) + estCost]; }
        return Failure;
      }
      counters := counters[batchRunId := At(counters, batchRunId) + estCost];
      if counters[batchRunId] > cap {
        if !rollbackLost { counters := counters[batchRunId := At(counters, batchRunId) - estCost]; }
        return Over;
      }
      return Within;
    }
  }
}
