/** The Redis window lock (internal/matcher/locker.go): SETNX with expiry, GET, then DEL, one operation at a time,
    by any number of clients, some of which crash. */
module Locker {
  import opened Sequences

  datatype Held = Held(token: nat, expiresAt: int)

  /** A client is inside from its successful SETNX until it starts to release; `deadline` is when its key expires. */
  datatype Client = Inside(token: nat, deadline: int) | Releasing(token: nat, deadline: int)

  datatype Lock = Lock(now: int, key: Option<Held>, clients: map<nat, Client>, used: set<nat>)

  datatype Step = Tick(time: int)
                | Acquire(c: nat, token: nat, ttl: int)
                | Get(c: nat)
                | GetError(c: nat)
                | Del(c: nat)
                | DelError(c: nat)
                | Crash(c: nat)

  /** What Redis shows: an expired key is gone. */
  function View(s: Lock): Option<Held> { if s.key.Some? && s.now < s.key.value.expiresAt then s.key else None }

  predicate Enabled(s: Lock, step: Step)
  {
    match step
    case Tick(time) => s.now <= time
    case Acquire(c, token, ttl) => c !in s.clients && token !in s.used && ttl > 0
    case Get(c) => c in s.clients && s.clients[c].Inside?
    case GetError(c) => c in s.clients && s.clients[c].Inside?
    case Del(c) => c in s.clients && s.clients[c].Releasing?
    case DelError(c) => c in s.clients && s.clients[c].Releasing?
    case Crash(c) => c in s.clients
  }

  function Do(s: Lock, step: Step): Lock
    requires Enabled(s, step)
  {
    match step
    case Tick(time) => s.(now := time)
    case Acquire(c, token, ttl) =>
      if View(s).None? then
        Lock(s.now, Some(Held(token, s.now + ttl)), s.clients[c := Inside(token, s.now + ttl)], s.used + {token})
      else s.(used := s.used + {token})
    case Get(c) =>
      var me := s.clients[c];
      if View(s).Some? && View(s).value.token == me.token
      then s.(clients := s.clients[c := Releasing(me.token, me.deadline)])
      else s.(clients := s.clients - {c})
    case GetError(c) => s.(clients := s.clients - {c})
    case Del(c) => s.(key := None, clients := s.clients - {c})
    case DelError(c) => s.(clients := s.clients - {c})
    case Crash(c) => s.(clients := s.clients - {c})
  }

  /** The key has not expired between this client's GET and its DEL. */
  predicate OnTime(s: Lock, step: Step) { step.Del? && step.c in s.clients ==> s.now < s.clients[step.c].deadline }

  // ---------------------------------------------------------------- invariant

  ghost predicate Ok(s: Lock)
  {
    && (forall c | c in s.clients :: s.clients[c].token in s.used)
    && (forall c, d | c in s.clients && d in s.clients :: s.clients[c].token == s.clients[d].token ==> c == d)
    && (s.key.Some? ==> s.key.value.token in s.used)
    && (forall c | c in s.clients :: s.key.Some? && s.key.value.token == s.clients[c].token
          ==> s.key.value.expiresAt == s.clients[c].deadline)
    && (forall c | c in s.clients :: s.now < s.clients[c].deadline
          ==> s.key == Some(Held(s.clients[c].token, s.clients[c].deadline)))
  }

  lemma StepKeepsOk(s: Lock, step: Step)
    requires Ok(s) && Enabled(s, step) && OnTime(s, step)
    ensures Ok(Do(s, step))
  {
    match step
    case Acquire(c, token, ttl) =>
      if View(s).None? {
        forall d | d in s.clients ensures s.now >= s.clients[d].deadline && s.clients[d].token != token {}
      }
    case Del(c) => forall d | d in s.clients && d != c ensures s.now >= s.clients[d].deadline {}
    case _ =>
  }

  ghost predicate Behaves(locks: seq<Lock>, steps: seq<Step>)
  {
    && |locks| == |steps| + 1
    && locks[0].key.None? && locks[0].clients == map[] && locks[0].used == {}
    && forall i :: 0 <= i < |steps| ==> Enabled(locks[i], steps[i]) && locks[i + 1] == Do(locks[i], steps[i])
  }

  lemma {:induction false} AlwaysOk(locks: seq<Lock>, steps: seq<Step>, n: nat)
    requires Behaves(locks, steps) && n < |locks|
    requires forall i :: 0 <= i < n ==> OnTime(locks[i], steps[i])
    ensures Ok(locks[n])
  {
    if n > 0 {
      AlwaysOk(locks, steps, n - 1);
      assert locks[n] == Do(locks[n - 1], steps[n - 1]);
      StepKeepsOk(locks[n - 1], steps[n - 1]);
    }
  }

  /** Two clients that are both still within their ttl are one client, or some client's DEL came after its ttl. */
  lemma MutualExclusion(locks: seq<Lock>, steps: seq<Step>, n: nat, c: nat, d: nat)
    requires Behaves(locks, steps) && n < |locks|
    requires c in locks[n].clients && d in locks[n].clients
    requires locks[n].now < locks[n].clients[c].deadline && locks[n].now < locks[n].clients[d].deadline
    ensures c == d || exists i :: 0 <= i < n && !OnTime(locks[i], steps[i])
  {
    if forall i :: 0 <= i < n ==> OnTime(locks[i], steps[i]) { AlwaysOk(locks, steps, n); }
  }

  // ---------------------------------------------------------------- without any assumption on timing

  /** What holds of tokens and deadlines in every interleaving. */
  ghost predicate Tokens(s: Lock)
  {
    && (forall c | c in s.clients :: s.clients[c].token in s.used)
    && (s.key.Some? ==> s.key.value.token in s.used)
    && (forall c | c in s.clients :: s.key.Some? && s.key.value.token == s.clients[c].token
          ==> s.key.value.expiresAt == s.clients[c].deadline)
  }

  lemma {:induction false} AlwaysTokens(locks: seq<Lock>, steps: seq<Step>, n: nat)
    requires Behaves(locks, steps) && n < |locks|
    ensures Tokens(locks[n])
  {
    if n > 0 {
      AlwaysTokens(locks, steps, n - 1);
      assert locks[n] == Do(locks[n - 1], steps[n - 1]);
    }
  }

  /** Some client's DEL is among steps `m` to `n`. */
  predicate DelIn(steps: seq<Step>, m: nat, n: nat) { exists i :: m <= i < n && i < |steps| && steps[i].Del? }

  lemma DelInSnoc(steps: seq<Step>, m: nat, n: nat)
    requires m <= n < |steps|
    ensures DelIn(steps, m, n + 1) <==> DelIn(steps, m, n) || steps[n].Del?
  {
    if DelIn(steps, m, n) {
      var i :| m <= i < n && i < |steps| && steps[i].Del?;
      assert m <= i < n + 1;
    }
  }

  /** A key set by state `m` stays until it expires as long as nobody deletes, and once somebody has deleted no later
      key carries its token. */
  lemma {:induction false} KeyFate(locks: seq<Lock>, steps: seq<Step>, m: nat, n: nat, mine: Held)
    requires Behaves(locks, steps) && m <= n < |locks| && locks[m].key == Some(mine)
    ensures mine.token in locks[n].used && locks[m].now <= locks[n].now
    ensures locks[n].key.Some? && locks[n].key.value.token == mine.token ==> locks[n].key == Some(mine)
    ensures !DelIn(steps, m, n) && locks[n].now < mine.expiresAt ==> locks[n].key == Some(mine)
    ensures DelIn(steps, m, n) ==> locks[n].key.None? || locks[n].key.value.token != mine.token
  {
    AlwaysTokens(locks, steps, m);
    if n > m {
      KeyFate(locks, steps, m, n - 1, mine);
      assert locks[n] == Do(locks[n - 1], steps[n - 1]);
      DelInSnoc(steps, m, n - 1);
      hide DelIn;
      hide Tokens;
    }
  }

  /** Client `c` as it was before its last operation. */
  lemma ClientBefore(locks: seq<Lock>, steps: seq<Step>, n: nat, c: nat)
    requires Behaves(locks, steps) && 0 < n < |locks| && c in locks[n].clients
    ensures !steps[n - 1].Acquire? || steps[n - 1].c != c ==>
      && c in locks[n - 1].clients
      && locks[n - 1].clients[c].token == locks[n].clients[c].token
      && locks[n - 1].clients[c].deadline == locks[n].clients[c].deadline
      && (steps[n - 1] != Get(c) ==> locks[n - 1].clients[c] == locks[n].clients[c])
  {
    assert locks[n] == Do(locks[n - 1], steps[n - 1]);
  }

  /** Step `a` is the SETNX that let `c` in, as it is in state `n`. */
  ghost predicate LetInAt(locks: seq<Lock>, steps: seq<Step>, a: nat, n: nat, c: nat)
    requires Behaves(locks, steps) && n < |locks|
  {
    && a < n
    && steps[a].Acquire?
    && steps[a].c == c
    && c in locks[n].clients
    && locks[n].clients[c].token == steps[a].token
    && locks[n].clients[c].deadline == locks[a].now + steps[a].ttl
    && View(locks[a]).None?
    && locks[a + 1].key == Some(Held(locks[n].clients[c].token, locks[n].clients[c].deadline))
  }

  lemma {:induction false} FindLetIn(locks: seq<Lock>, steps: seq<Step>, n: nat, c: nat) returns (a: nat)
    requires Behaves(locks, steps) && n < |locks| && c in locks[n].clients
    ensures LetInAt(locks, steps, a, n, c)
  {
    assert n > 0;
    if steps[n - 1].Acquire? && steps[n - 1].c == c {
      a := n - 1;
      assert locks[n] == Do(locks[n - 1], steps[n - 1]);
    } else {
      ClientBefore(locks, steps, n, c);
      a := FindLetIn(locks, steps, n - 1, c);
    }
  }

  /** While its ttl runs a client owns the key exactly as long as nobody has deleted since it was let in; and another
      client is let in beside it exactly when somebody has and no key is live. */
  lemma HolderOwnsKeyIff(locks: seq<Lock>, steps: seq<Step>, a: nat, n: nat, c: nat)
    requires Behaves(locks, steps) && n < |locks| && LetInAt(locks, steps, a, n, c)
    requires locks[n].now < locks[n].clients[c].deadline
    ensures locks[n].key == Some(Held(locks[n].clients[c].token, locks[n].clients[c].deadline))
      <==> !DelIn(steps, a + 1, n)
    ensures forall d, token, ttl :: Enabled(locks[n], Acquire(d, token, ttl)) ==>
      (d in Do(locks[n], Acquire(d, token, ttl)).clients <==> DelIn(steps, a + 1, n) && View(locks[n]).None?)
  {
    KeyFate(locks, steps, a + 1, n, Held(locks[n].clients[c].token, locks[n].clients[c].deadline));
    hide DelIn;
  }

  /** Whenever two clients are within their ttl, somebody deleted between the two SETNX. */
  lemma TwoHoldersNeedDelete(locks: seq<Lock>, steps: seq<Step>, a: nat, b: nat, n: nat, c: nat, d: nat)
    requires Behaves(locks, steps) && n < |locks| && LetInAt(locks, steps, a, n, c) && LetInAt(locks, steps, b, n, d)
    requires locks[n].now < locks[n].clients[c].deadline && a < b
    ensures DelIn(steps, a + 1, b)
  {
    hide DelIn;
    var mine, yours := Held(locks[n].clients[c].token, locks[n].clients[c].deadline),
                       Held(locks[n].clients[d].token, locks[n].clients[d].deadline);
    KeyFate(locks, steps, a + 1, b, mine);
    KeyFate(locks, steps, b + 1, n, yours);
    assert locks[b + 1] == Do(locks[b], steps[b]);
  }

  /** Step `g` is the GET after which `c` is about to delete in state `n`. */
  ghost predicate GotAt(locks: seq<Lock>, steps: seq<Step>, g: nat, n: nat, c: nat)
    requires Behaves(locks, steps) && n < |locks|
  {
    && g < n
    && steps[g] == Get(c)
    && c in locks[n].clients
    && View(locks[g]) == Some(Held(locks[n].clients[c].token, locks[n].clients[c].deadline))
  }

  lemma {:induction false} FindGet(locks: seq<Lock>, steps: seq<Step>, n: nat, c: nat) returns (g: nat)
    requires Behaves(locks, steps) && n < |locks| && Enabled(locks[n], Del(c))
    ensures GotAt(locks, steps, g, n, c)
  {
    assert n > 0;
    ClientBefore(locks, steps, n, c);
    assert locks[n] == Do(locks[n - 1], steps[n - 1]);
    if steps[n - 1] == Get(c) {
      g := n - 1;
      AlwaysTokens(locks, steps, g);
    } else {
      g := FindGet(locks, steps, n - 1, c);
    }
  }

  /** When a release deletes another client's live lock: a key is live, and since the GET either the own key expired or
      somebody's DEL ran. */
  lemma ReleaseDeletesForeignLockIff(locks: seq<Lock>, steps: seq<Step>, g: nat, n: nat, c: nat)
    requires Behaves(locks, steps) && n < |locks| && Enabled(locks[n], Del(c)) && GotAt(locks, steps, g, n, c)
    ensures (View(locks[n]).Some? && View(locks[n]).value.token != locks[n].clients[c].token)
       <==> View(locks[n]).Some? && (locks[n].now >= locks[n].clients[c].deadline || DelIn(steps, g + 1, n))
  {
    hide DelIn;
    assert locks[g + 1] == Do(locks[g], steps[g]);
    KeyFate(locks, steps, g + 1, n, Held(locks[n].clients[c].token, locks[n].clients[c].deadline));
    AlwaysTokens(locks, steps, n);
  }

  /** An own key that does not expire between GET and DEL is not enough: after a late DEL of an earlier holder a
      release that is on time deletes the next client's live lock. */
  lemma OnTimeReleaseDeletesForeignLock() returns (locks: seq<Lock>, steps: seq<Step>)
    ensures Behaves(locks, steps) && locks != []
    ensures var s := locks[|locks| - 1];
      && Enabled(s, Del(1))
      && OnTime(s, Del(1))
      && View(s).Some?
      && View(s).value.token != s.clients[1].token
  {
    hide Behaves;
    locks, steps := Fresh();
    locks, steps := Extend(locks, steps, Acquire(0, 10, 5));
    locks, steps := Extend(locks, steps, Get(0));
    locks, steps := Extend(locks, steps, Tick(5));
    locks, steps := Extend(locks, steps, Acquire(1, 11, 5));
    locks, steps := Extend(locks, steps, Get(1));
    locks, steps := Extend(locks, steps, Del(0));
    locks, steps := Extend(locks, steps, Acquire(2, 12, 5));
  }

  lemma Fresh() returns (locks: seq<Lock>, steps: seq<Step>)
    ensures Behaves(locks, steps) && locks == [Lock(0, None, map[], {})]
  {
    locks, steps := [Lock(0, None, map[], {})], [];
  }

  /** One more step of a run. */
  lemma Extend(locks: seq<Lock>, steps: seq<Step>, step: Step) returns (more: seq<Lock>, longer: seq<Step>)
    requires Behaves(locks, steps) && locks != [] && Enabled(locks[|locks| - 1], step)
    ensures Behaves(more, longer) && more != [] && more[|more| - 1] == Do(locks[|locks| - 1], step)
  {
    hide Enabled;
    hide Do;
    more, longer := locks + [Do(locks[|locks| - 1], step)], steps + [step];
  }

  /** A release that finds its key gone or taken deletes nothing at all. */
  lemma OverrunReleaseIsHarmless(s: Lock, c: nat)
    requires Tokens(s) && Enabled(s, Get(c)) && s.now >= s.clients[c].deadline
    ensures Do(s, Get(c)).key == s.key && c !in Do(s, Get(c)).clients
  {
  }

  /** The condition is needed: when the key expires between GET and DEL the release removes the next holder's lock,
      and two clients are inside within their ttl. */
  lemma LateDeleteAdmitsTwo() returns (locks: seq<Lock>, steps: seq<Step>)
    ensures Behaves(locks, steps) && locks != []
    ensures var s := locks[|locks| - 1];
      1 in s.clients && 2 in s.clients && s.clients[1].Inside? && s.clients[2].Inside?
      && s.now < s.clients[1].deadline && s.now < s.clients[2].deadline
  {
    hide Behaves;
    locks, steps := Fresh();
    locks, steps := Extend(locks, steps, Acquire(0, 10, 5));
    locks, steps := Extend(locks, steps, Get(0));
    locks, steps := Extend(locks, steps, Tick(5));
    locks, steps := Extend(locks, steps, Acquire(1, 11, 5));
    locks, steps := Extend(locks, steps, Del(0));
    locks, steps := Extend(locks, steps, Acquire(2, 12, 5));
  }
}
