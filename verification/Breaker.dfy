/** The circuit breaker (internal/ai/breaker.go) and how fast failing calls can follow each other. */
module Breaker {

  datatype State = State(fails: nat, openedAt: int)

  datatype Config = Config(threshold: nat, cooldown: int)

  predicate Allows(k: Config, s: State, now: int) { s.fails < k.threshold || now - s.openedAt >= k.cooldown }

  function Failed(k: Config, s: State, now: int): State
  {
    State(s.fails + 1, if s.fails + 1 >= k.threshold then now else s.openedAt)
  }

  function Succeeded(s: State): State { s.(fails := 0) }

  /** NewCircuitBreaker's defaults. */
  function Configure(threshold: int, cooldown: int): (k: Config)
    ensures k.threshold > 0 && k.cooldown > 0
    ensures k.threshold == threshold || (threshold <= 0 && k.threshold == 3)
    ensures k.cooldown == cooldown || (cooldown <= 0 && k.cooldown == 30 * 1_000_000_000)
  {
    Config(if threshold <= 0 then 3 else threshold, if cooldown <= 0 then 30_000_000_000 else cooldown)
  }

  // ---------------------------------------------------------------- rounds

  /** One Allow that said yes, taken after `seen` outcomes had been recorded, and the outcome recorded after the call.
      Rounds stand in the order in which their outcomes were recorded. */
  datatype Round = Round(seen: nat, allowedAt: int, recordedAt: int, success: bool)

  function After(k: Config, rounds: seq<Round>): State
  {
    if rounds == [] then State(0, 0)
    else
      var s, r := After(k, rounds[..|rounds| - 1]), rounds[|rounds| - 1];
      if r.success then Succeeded(s) else Failed(k, s, r.recordedAt)
  }

  /** Failures since the last success. */
  function Streak(rounds: seq<Round>): (n: nat)
    ensures n <= |rounds|
  {
    if rounds == [] || rounds[|rounds| - 1].success then 0 else Streak(rounds[..|rounds| - 1]) + 1
  }

  /** consecutiveFail counts the failures since the last success, and an open breaker remembers the last of them. */
  lemma {:induction false} FailsIsStreak(k: Config, rounds: seq<Round>)
    requires k.threshold > 0
    ensures After(k, rounds).fails == Streak(rounds)
    ensures Streak(rounds) >= k.threshold ==> After(k, rounds).openedAt == rounds[|rounds| - 1].recordedAt
  {
    if rounds != [] { FailsIsStreak(k, rounds[..|rounds| - 1]); }
  }

  class CircuitBreaker {
    const config: Config
    var consecutiveFail: nat
    var openedAt: int
    /** Every outcome recorded so far. */
    ghost var rounds: seq<Round>

    ghost predicate Valid()
      reads this
    {
      config.threshold > 0 && config.cooldown > 0 && Abstract() == After(config, rounds)
    }

    ghost function Abstract(): State reads this { State(consecutiveFail, openedAt) }

    constructor (threshold: int, cooldown: int)
      ensures Valid() && config == Configure(threshold, cooldown) && rounds == []
    {
      config, consecutiveFail, openedAt, rounds := Configure(threshold, cooldown), 0, 0, [];
    }

    /** Refuses exactly when the last `threshold` outcomes or more were failures and the last of them is less than a
        cooldown ago. */
    method Allow(now: int) returns (ok: bool)
      requires Valid()
      ensures !ok <==> Streak(rounds) >= config.threshold && now - rounds[|rounds| - 1].recordedAt < config.cooldown
      ensures ok == Allows(config, Abstract(), now)
    {
      FailsIsStreak(config, rounds);
      if consecutiveFail < config.threshold { return true; }
      return now - openedAt >= config.cooldown;
    }

    method RecordSuccess(ghost seen: nat, ghost allowedAt: int, ghost now: int)
      requires Valid()
      modifies this
      ensures Valid() && rounds == old(rounds) + [Round(seen, allowedAt, now, true)] && Streak(rounds) == 0
    {
      rounds := rounds + [Round(seen, allowedAt, now, true)];
      assert rounds[..|rounds| - 1] == old(rounds);
      consecutiveFail := 0;
    }

    method RecordFailure(ghost seen: nat, ghost allowedAt: int, now: int)
      requires Valid()
      modifies this
      ensures Valid() && rounds == old(rounds) + [Round(seen, allowedAt, now, false)]
      ensures Streak(rounds) == old(Streak(rounds)) + 1
    {
      rounds := rounds + [Round(seen, allowedAt, now, false)];
      assert rounds[..|rounds| - 1] == old(rounds);
      consecutiveFail := consecutiveFail + 1;
      if consecutiveFail >= config.threshold { openedAt := now; }
    }
  }

  // ---------------------------------------------------------------- how fast failures can follow each other

  /** Round `i` was let in by the breaker as it stood then, and time does not run backwards. */
  predicate Admitted(k: Config, rounds: seq<Round>, i: nat)
    requires i < |rounds|
  {
    var r := rounds[i];
    && r.seen <= i
    && (r.seen > 0 ==> rounds[r.seen - 1].recordedAt <= r.allowedAt)
    && (i > 0 ==> rounds[i - 1].recordedAt <= r.recordedAt)
    && r.allowedAt <= r.recordedAt
    && Allows(k, After(k, rounds[..r.seen]), r.allowedAt)
  }

  /** One of the `width` rounds recorded after round `j` was let in after round `j` had been recorded: otherwise
      `width` + 1 calls were under way at that moment. */
  predicate LetInLater(rounds: seq<Round>, width: nat, j: nat)
    requires j + width < |rounds|
  {
    exists i :: j < i <= j + width && rounds[i].seen > j
  }

  /** A run in which at most `width` calls are under way at a time; with one it is sequential. */
  predicate Legal(k: Config, rounds: seq<Round>, width: nat)
  {
    && (forall i :: 0 <= i < |rounds| ==> Admitted(k, rounds, i))
    && (forall j :: 0 <= j < |rounds| - width ==> LetInLater(rounds, width, j))
  }

  lemma LegalPrefix(k: Config, rounds: seq<Round>, width: nat, n: nat)
    requires n <= |rounds| && Legal(k, rounds, width)
    ensures Legal(k, rounds[..n], width)
  {
    var init := rounds[..n];
    forall i | 0 <= i < |init| ensures Admitted(k, init, i) {
      assert Admitted(k, rounds, i) && init[..init[i].seen] == rounds[..rounds[i].seen];
    }
    forall j | 0 <= j < |init| - width ensures LetInLater(init, width, j) {
      assert LetInLater(rounds, width, j);
      var i :| j < i <= j + width && rounds[i].seen > j;
      assert init[i].seen > j;
    }
  }

  lemma LegalSnoc(k: Config, rounds: seq<Round>, r: Round)
    requires Legal(k, rounds, 1) && r.seen == |rounds| && Allows(k, After(k, rounds), r.allowedAt)
    requires r.allowedAt <= r.recordedAt && (rounds != [] ==> rounds[|rounds| - 1].recordedAt <= r.allowedAt)
    ensures Legal(k, rounds + [r], 1)
  {
    hide After;
    hide Allows;
    var all := rounds + [r];
    forall i | 0 <= i < |all| ensures Admitted(k, all, i) {
      if i < |rounds| {
        assert Admitted(k, rounds, i) && all[..all[i].seen] == rounds[..rounds[i].seen];
      } else {
        assert all[..|rounds|] == rounds;
      }
    }
    forall j | 0 <= j < |all| - 1 ensures LetInLater(all, 1, j) {
      if j < |rounds| - 1 {
        assert LetInLater(rounds, 1, j);
        assert all[j + 1] == rounds[j + 1];
      }
      assert all[j + 1].seen > j;
    }
  }

  lemma {:induction false} StreakPrefix(rounds: seq<Round>, n: nat)
    requires n <= |rounds| <= n + Streak(rounds)
    ensures Streak(rounds[..n]) == Streak(rounds) - (|rounds| - n)
    decreases |rounds|
  {
    if n < |rounds| {
      StreakPrefix(rounds[..|rounds| - 1], n);
      assert rounds[..|rounds| - 1][..n] == rounds[..n];
    } else {
      assert rounds[..n] == rounds;
    }
  }

  lemma {:induction false} TimesAscend(k: Config, rounds: seq<Round>, width: nat, i: nat, j: nat)
    requires Legal(k, rounds, width) && i <= j < |rounds|
    ensures rounds[i].recordedAt <= rounds[j].recordedAt
  {
    if i < j {
      TimesAscend(k, rounds, width, i, j - 1);
      assert Admitted(k, rounds, j);
    }
  }

  /** A round let in with the breaker open ends at least a cooldown after the last failure it knew of. */
  lemma OpenRoundWaits(k: Config, rounds: seq<Round>, i: nat)
    requires k.threshold > 0 && i < |rounds| && Admitted(k, rounds, i)
    requires Streak(rounds[..rounds[i].seen]) >= k.threshold
    ensures rounds[i].recordedAt >= rounds[rounds[i].seen - 1].recordedAt + k.cooldown
  {
    FailsIsStreak(k, rounds[..rounds[i].seen]);
    hide After;
    hide Streak;
  }

  lemma LaterRound(k: Config, rounds: seq<Round>, width: nat, j: nat) returns (i: nat)
    requires Legal(k, rounds, width) && j + width < |rounds|
    ensures j < i <= j + width && j < rounds[i].seen <= i && Admitted(k, rounds, i)
  {
    hide Admitted;
    assert LetInLater(rounds, width, j);
    i :| j < i <= j + width && rounds[i].seen > j;
    assert Admitted(k, rounds, i);
    assert rounds[i].seen <= i by { SeenBefore(k, rounds, i); }
  }

  lemma SeenBefore(k: Config, rounds: seq<Round>, i: nat)
    requires i < |rounds| && Admitted(k, rounds, i)
    ensures rounds[i].seen <= i
  {
  }

  /** Once the threshold is passed by `width` the last failure comes at least a cooldown after the one `width`
      before. */
  lemma OneCooldownLater(k: Config, rounds: seq<Round>, width: nat)
    requires k.threshold > 0 && width > 0 && Legal(k, rounds, width) && Streak(rounds) >= k.threshold + width
    ensures rounds[|rounds| - 1].recordedAt - rounds[|rounds| - 1 - width].recordedAt >= k.cooldown
  {
    hide *;
    var last := |rounds| - 1;
    var j := last - width;
    var i := LaterRound(k, rounds, width, j);
    StreakPrefix(rounds, rounds[i].seen);
    OpenRoundWaits(k, rounds, i);
    TimesAscend(k, rounds, width, j, rounds[i].seen - 1);
    TimesAscend(k, rounds, width, i, last);
  }

  /** With at most `width` calls under way at a time, m * width failures in a row past the threshold take at least m
      cooldowns, measured from the failure that reached the threshold. */
  lemma {:induction false} RateBound(k: Config, rounds: seq<Round>, width: nat, m: nat)
    requires k.threshold > 0 && k.cooldown > 0 && width > 0 && Legal(k, rounds, width)
    requires Streak(rounds) >= k.threshold && m * width <= Streak(rounds) - k.threshold
    ensures var n, last := Streak(rounds) - k.threshold, |rounds| - 1;
      rounds[last].recordedAt - rounds[last - n].recordedAt >= m * k.cooldown
    decreases m
  {
    var n, last := Streak(rounds) - k.threshold, |rounds| - 1;
    if m == 0 {
      TimesAscend(k, rounds, width, last - n, last);
    } else {
      assert m * width == (m - 1) * width + width && (m - 1) * width >= 0;
      var init := rounds[..|rounds| - width];
      StreakPrefix(rounds, |init|);
      LegalPrefix(k, rounds, width, |init|);
      RateBound(k, init, width, m - 1);
      OneCooldownLater(k, rounds, width);
      hide *;
      assert init[last - width] == rounds[last - width] && init[last - n] == rounds[last - n];
      assert m * k.cooldown == (m - 1) * k.cooldown + k.cooldown;
    }
  }

  /** Sequential calls: a streak of n > threshold failures spans at least n - threshold cooldowns. */
  lemma SequentialRateBound(k: Config, rounds: seq<Round>)
    requires k.threshold > 0 && k.cooldown > 0 && Legal(k, rounds, 1) && Streak(rounds) >= k.threshold
    ensures var n, last := Streak(rounds) - k.threshold, |rounds| - 1;
      rounds[last].recordedAt - rounds[last - n].recordedAt >= n * k.cooldown
  {
    RateBound(k, rounds, 1, Streak(rounds) - k.threshold);
  }

  /** The calls let in by the time outcome `j` is recorded and recorded at `j` or later, of the first `n`. */
  function UnderWay(rounds: seq<Round>, j: nat, n: nat): nat
    requires j <= n <= |rounds|
  {
    if n == j then 0 else UnderWay(rounds, j, n - 1) + if rounds[n - 1].seen <= j then 1 else 0
  }

  lemma {:induction false} UnderWayGrows(rounds: seq<Round>, j: nat, m: nat, n: nat)
    requires j <= m <= n <= |rounds|
    ensures UnderWay(rounds, j, m) <= UnderWay(rounds, j, n)
  {
    if m < n { UnderWayGrows(rounds, j, m, n - 1); }
  }

  lemma {:induction false} AllUnderWay(rounds: seq<Round>, j: nat, n: nat)
    requires j <= n <= |rounds| && forall i :: j <= i < n ==> rounds[i].seen <= j
    ensures UnderWay(rounds, j, n) == n - j
  {
    if j < n { AllUnderWay(rounds, j, n - 1); }
  }

  /** A run in which at most `width` calls are under way whenever an outcome is recorded is legal. */
  lemma FewUnderWay(k: Config, rounds: seq<Round>, width: nat)
    requires forall i :: 0 <= i < |rounds| ==> Admitted(k, rounds, i)
    requires forall j :: 0 <= j < |rounds| ==> UnderWay(rounds, j, |rounds|) <= width
    ensures Legal(k, rounds, width)
  {
    forall j | 0 <= j < |rounds| - width ensures LetInLater(rounds, width, j) {
      if !LetInLater(rounds, width, j) {
        SeenBefore(k, rounds, j);
        AllUnderWay(rounds, j, j + width + 1);
        UnderWayGrows(rounds, j, j + width + 1, |rounds|);
        assert false;
      }
    }
  }

  /** The bound for sequential calls. */
  predicate SequentialBound(k: Config, rounds: seq<Round>)
  {
    Streak(rounds) >= k.threshold > 0 ==>
      var n, last := Streak(rounds) - k.threshold, |rounds| - 1;
      rounds[last].recordedAt - rounds[last - n].recordedAt >= n * k.cooldown
  }

  /** `n` sequential failures at time zero, each let in after the one before. */
  function Opening(n: nat): seq<Round> { seq(n, (i: nat) => Round(i, 0, 0, false)) }

  lemma {:induction false} OpeningState(k: Config, n: nat)
    requires n <= k.threshold && k.threshold > 0
    ensures After(k, Opening(n)) == State(n, 0) && Streak(Opening(n)) == n
  {
    if n > 0 {
      OpeningState(k, n - 1);
      assert Opening(n)[..n - 1] == Opening(n - 1);
    }
  }

  /** Two trials let in together when the cooldown ends. */
  function TwoTrials(k: Config): seq<Round>
  {
    var trial := Round(k.threshold, k.cooldown, k.cooldown, false);
    Opening(k.threshold) + [trial] + [trial]
  }

  lemma TwoTrialsAdmitted(k: Config, i: nat)
    requires k.threshold > 0 && k.cooldown > 0 && i < |TwoTrials(k)|
    ensures Admitted(k, TwoTrials(k), i)
  {
    var rounds := TwoTrials(k);
    var seen := rounds[i].seen;
    assert rounds[..seen] == Opening(seen);
    OpeningState(k, seen);
    hide After;
  }

  lemma TwoTrialsLegal(k: Config, width: nat)
    requires k.threshold > 0 && k.cooldown > 0 && width >= 2
    ensures Legal(k, TwoTrials(k), width)
  {
    var rounds := TwoTrials(k);
    forall i | 0 <= i < |rounds| ensures Admitted(k, rounds, i) { TwoTrialsAdmitted(k, i); }
    forall j | 0 <= j < |rounds| - width ensures LetInLater(rounds, width, j) {
      assert rounds[j + 1].seen == j + 1;
    }
    hide Admitted;
  }

  lemma TwoTrialsStreak(k: Config)
    requires k.threshold > 0
    ensures Streak(TwoTrials(k)) == k.threshold + 2
  {
    var trial := Round(k.threshold, k.cooldown, k.cooldown, false);
    var opening, one, two := Opening(k.threshold), Opening(k.threshold) + [trial], TwoTrials(k);
    OpeningState(k, k.threshold);
    assert one[..|one| - 1] == opening && two[..|two| - 1] == one;
  }

  /** The sequential bound holds of every run with at most `width` calls under way exactly when `width` is one: the
      half-open trial is not exclusive. */
  lemma SequentialBoundIff(k: Config, width: nat)
    requires k.threshold > 0 && k.cooldown > 0 && width > 0
    ensures (forall rounds :: Legal(k, rounds, width) ==> SequentialBound(k, rounds)) <==> width == 1
  {
    if width == 1 {
      forall rounds | Legal(k, rounds, width) ensures SequentialBound(k, rounds) {
        if Streak(rounds) >= k.threshold { SequentialRateBound(k, rounds); }
      }
    } else {
      TwoTrialsLegal(k, width);
      TwoTrialsStreak(k);
      TwoTrialsTooFast(k);
    }
  }

  lemma TwoTrialsTooFast(k: Config)
    requires k.threshold > 0 && k.cooldown > 0 && Streak(TwoTrials(k)) == k.threshold + 2
    ensures !SequentialBound(k, TwoTrials(k))
  {
    hide Streak;
    var rounds := TwoTrials(k);
    assert rounds[|rounds| - 1].recordedAt == k.cooldown && rounds[|rounds| - 3].recordedAt == 0;
  }
}
