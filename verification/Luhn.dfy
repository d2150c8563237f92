/** Card-number screening (internal/schema/pan.go): the check-digit loop of Annex B of ISO/IEC 7812-1, separators, and
    the search for digit runs. */
module Luhn {
  import opened Sequences

  type Byte = b: int | 0 <= b < 256

  // ---------------------------------------------------------------- check digit

  /** The byte subtraction wraps. */
  function DigitOf(b: Byte): (d: nat) { (b - 48) % 256 }

  predicate IsDigit(b: Byte) { 48 <= b <= 57 }

  predicate AllDigits(s: seq<Byte>) { forall i :: 0 <= i < |s| ==> IsDigit(s[i]) }

  function Contribution(b: Byte, alternate: bool): int
  {
    var d := DigitOf(b);
    if !alternate then d else if 2 * d > 9 then 2 * d - 9 else 2 * d
  }

  /** Position i of n is doubled when an odd number of digits follow it. */
  predicate Doubled(n: nat, i: nat) { i < n && (n - 1 - i) % 2 == 1 }

  /** The sum over the first `n` positions of `s`. */
  function SumTo(s: seq<Byte>, n: nat): int
    requires n <= |s|
  {
    if n == 0 then 0 else SumTo(s, n - 1) + Contribution(s[n - 1], Doubled(|s|, n - 1))
  }

  predicate Valid(s: seq<Byte>) { AllDigits(s) && SumTo(s, |s|) % 10 == 0 }

  /** luhnValid. */
  method LuhnValid(digits: seq<Byte>) returns (valid: bool)
    ensures valid <==> Valid(digits)
  {
    var sum, alternate, index := 0, false, |digits| - 1;
    while index >= 0
      invariant -1 <= index < |digits|
      invariant forall i :: index < i < |digits| ==> IsDigit(digits[i])
      invariant alternate <==> (|digits| - 1 - index) % 2 == 1
      invariant sum + SumTo(digits, index + 1) == SumTo(digits, |digits|)
    {
      var digit: int := DigitOf(digits[index]);
      if digit < 0 || digit > 9 {
        assert !IsDigit(digits[index]);
        return false;
      }
      if alternate {
        digit := digit * 2;
        if digit > 9 { digit := digit - 9; }
      }
      sum := sum + digit;
      alternate := !alternate;
      index := index - 1;
    }
    return sum % 10 == 0;
  }

  lemma {:induction false} SumAfterChange(s: seq<Byte>, i: nat, b: Byte, n: nat)
    requires i < |s| && n <= |s|
    ensures SumTo(s[i := b], n) ==
      SumTo(s, n) + if n <= i then 0 else Contribution(b, Doubled(|s|, i)) - Contribution(s[i], Doubled(|s|, i))
  {
    if n > 0 { SumAfterChange(s, i, b, n - 1); }
  }

  lemma SmallMultiple(x: int)
    requires -10 < x < 10
    ensures x % 10 == 0 <==> x == 0
  {
    if x < 0 { assert x % 10 == x + 10; } else { assert x % 10 == x; }
  }

  lemma SameRemainder(a: int, b: int)
    requires a % 10 == 0
    ensures b % 10 == 0 <==> (b - a) % 10 == 0
  {
  }

  lemma ContributionsDiffer(a: Byte, b: Byte, alternate: bool)
    requires IsDigit(a) && IsDigit(b)
    ensures (Contribution(a, alternate) - Contribution(b, alternate)) % 10 == 0 <==> a == b
  {
    assert DigitOf(a) == a - 48 && DigitOf(b) == b - 48;
    hide DigitOf;
    SmallMultiple(Contribution(a, alternate) - Contribution(b, alternate));
  }

  /** Changing one digit of a valid string always shows. */
  lemma OneDigitChanged(s: seq<Byte>, i: nat, b: Byte)
    requires Valid(s) && i < |s|
    ensures Valid(s[i := b]) <==> b == s[i]
  {
    var t := s[i := b];
    if IsDigit(b) {
      assert AllDigits(t);
      SumAfterChange(s, i, b, |s|);
      SameRemainder(SumTo(s, |s|), SumTo(t, |t|));
      ContributionsDiffer(b, s[i], Doubled(|s|, i));
    } else {
      assert !IsDigit(t[i]);
    }
    hide Contribution;
    hide SumTo;
    hide Doubled;
  }

  predicate NineAndZero(a: Byte, b: Byte) { (a == 48 && b == 57) || (a == 57 && b == 48) }

  function Swapped(s: seq<Byte>, i: nat): seq<Byte>
    requires i + 1 < |s|
  {
    s[i := s[i + 1]][i + 1 := s[i]]
  }

  /** By how much doubling changes what a digit contributes. */
  function Gain(b: Byte): int { Contribution(b, true) - Contribution(b, false) }

  lemma GainsDiffer(a: Byte, b: Byte)
    requires IsDigit(a) && IsDigit(b)
    ensures (Gain(a) - Gain(b)) % 10 == 0 <==> a == b || NineAndZero(a, b)
  {
    assert DigitOf(a) == a - 48 && DigitOf(b) == b - 48;
    hide DigitOf;
    SmallMultiple(Gain(a) - Gain(b));
  }

  lemma Neighbours(n: nat, i: nat)
    requires i + 1 < n
    ensures Doubled(n, i) == !Doubled(n, i + 1)
  {
  }

  lemma SwappedSum(s: seq<Byte>, i: nat)
    requires i + 1 < |s|
    ensures SumTo(Swapped(s, i), |s|) - SumTo(s, |s|)
         == if Doubled(|s|, i) then Gain(s[i + 1]) - Gain(s[i]) else Gain(s[i]) - Gain(s[i + 1])
  {
    SumAfterChange(s, i, s[i + 1], |s|);
    SumAfterChange(s[i := s[i + 1]], i + 1, s[i], |s|);
    Neighbours(|s|, i);
    hide Contribution;
    hide SumTo;
    hide Doubled;
  }

  lemma SwappedDigits(s: seq<Byte>, i: nat)
    requires i + 1 < |s| && AllDigits(s)
    ensures AllDigits(Swapped(s, i)) && |Swapped(s, i)| == |s|
  {
  }

  /** Swapping neighbours in a valid string shows unless they are equal or a nine and a zero. */
  lemma NeighboursSwapped(s: seq<Byte>, i: nat)
    requires Valid(s) && i + 1 < |s|
    ensures Valid(Swapped(s, i)) <==> s[i] == s[i + 1] || NineAndZero(s[i], s[i + 1])
  {
    SwappedDigits(s, i);
    SwappedSum(s, i);
    GainsDiffer(s[i], s[i + 1]);
    GainsDiffer(s[i + 1], s[i]);
    SameRemainder(SumTo(s, |s|), SumTo(Swapped(s, i), |s|));
    hide Gain;
    hide SumTo;
    hide Swapped;
    hide AllDigits;
    hide Doubled;
  }

  // ---------------------------------------------------------------- the check digit itself

  function CrossSum(n: nat): nat { n / 10 + n % 10 }

  /** From the right: digits and cross sums of doubled digits in turn, starting with a doubled one if so told. */
  function PayloadSum(s: seq<Byte>, doubled: bool): int
    requires AllDigits(s)
  {
    if s == [] then 0
    else
      var d := s[|s| - 1] - 48;
      PayloadSum(s[..|s| - 1], !doubled) + if doubled then CrossSum(2 * d) else d
  }

  lemma ContributionIs(b: Byte, doubled: bool)
    requires IsDigit(b)
    ensures Contribution(b, doubled) == if doubled then CrossSum(2 * (b - 48)) else b - 48
  {
  }

  lemma {:induction false} SumIsPayloadSum(t: seq<Byte>, n: nat)
    requires n <= |t| && AllDigits(t)
    ensures SumTo(t, n) == PayloadSum(t[..n], (|t| - n) % 2 == 1)
  {
    if n > 0 {
      SumIsPayloadSum(t, n - 1);
      ContributionIs(t[n - 1], Doubled(|t|, n - 1));
      hide Contribution;
      hide CrossSum;
      assert t[..n][..n - 1] == t[..n - 1];
    }
  }

  /** The check digit: the one that makes up the sum of the payload, its last digit doubled first, to a multiple of
      ten. Exactly that one makes the payload valid. */
  lemma CheckDigitIff(s: seq<Byte>, b: Byte)
    requires AllDigits(s)
    ensures Valid(s + [b]) <==> b == 48 + (10 - PayloadSum(s, true) % 10) % 10
  {
    var t := s + [b];
    if IsDigit(b) {
      assert AllDigits(t);
      SumIsPayloadSum(t, |s|);
      assert t[..|s|] == s;
      ContributionIs(b, false);
      CheckDigitSum(PayloadSum(s, true), b - 48);
      hide Contribution;
      hide PayloadSum;
    } else {
      assert !IsDigit(t[|s|]);
    }
  }

  lemma CheckDigitSum(sum: int, d: int)
    requires 0 <= d <= 9
    ensures (sum + d) % 10 == 0 <==> d == (10 - sum % 10) % 10
  {
  }

  // ---------------------------------------------------------------- separators

  predicate IsSpace(b: Byte) { 9 <= b <= 13 || b == 32 || b == 0x85 || b == 0xA0 }

  predicate Kept(b: Byte) { b != 32 && b != 45 && !IsSpace(b) }

  /** Spaces, hyphens and the other white space of Latin-1 go, everything else stays. */
  lemma KeptBytes(b: Byte)
    ensures Kept(b) <==> b !in {9, 10, 11, 12, 13, 32, 45, 0x85, 0xA0}
  {
  }

  /** stripSeparators. */
  method StripSeparators(raw: seq<Byte>) returns (out: seq<Byte>)
    ensures out == Filter(raw, Kept)
  {
    out := [];
    for i := 0 to |raw|
      invariant out == Filter(raw[..i], Kept)
    {
      FilterSnoc(raw, i, Kept);
      if raw[i] == 32 || raw[i] == 45 { continue; }
      if IsSpace(raw[i]) { continue; }
      out := out + [raw[i]];
    }
    assert raw[..|raw|] == raw;
  }

  // ---------------------------------------------------------------- digit runs

  /** The number of digits in a row from position `p`. */
  function RunAt(s: seq<Byte>, p: nat): (n: nat)
    requires p <= |s|
    ensures p + n <= |s| && forall i :: p <= i < p + n ==> IsDigit(s[i])
    ensures p + n < |s| ==> !IsDigit(s[p + n])
    decreases |s| - p
  {
    if p < |s| && IsDigit(s[p]) then RunAt(s, p + 1) + 1 else 0
  }

  function RunLength(n: nat): nat { if n > 19 then 19 else n }

  /** What the pattern \d{13,19} finds from position `p` on: leftmost, longest, not overlapping. */
  function FindAll(s: seq<Byte>, p: nat): seq<seq<Byte>>
    requires p <= |s|
    decreases |s| - p
  {
    var n := RunAt(s, p);
    if n >= 13 then [s[p..p + RunLength(n)]] + FindAll(s, p + RunLength(n))
    else if p == |s| then []
    else FindAll(s, p + 1)
  }

  predicate Rejects(raw: seq<Byte>) { exists m :: m in FindAll(Filter(raw, Kept), 0) && Valid(m) }

  /** RejectPossiblePAN. */
  method RejectPossiblePan(raw: seq<Byte>) returns (reject: bool)
    ensures reject <==> Rejects(raw)
  {
    var filtered := StripSeparators(raw);
    var found := FindAll(filtered, 0);
    for i := 0 to |found|
      invariant forall j :: 0 <= j < i ==> !Valid(found[j])
    {
      var valid := LuhnValid(found[i]);
      if valid {
        assert found[i] in found;
        return true;
      }
    }
    return false;
  }

  /** `s[a..b]` is a run of digits that goes no further on either side. */
  predicate MaximalRun(s: seq<Byte>, a: nat, b: nat)
  {
    a <= b <= |s| && AllDigits(s[a..b]) && (a == 0 || !IsDigit(s[a - 1])) && (b == |s| || !IsDigit(s[b]))
  }

  lemma {:induction false} RunEndsAt(s: seq<Byte>, p: nat, b: nat)
    requires p <= b <= |s| && (forall i :: p <= i < b ==> IsDigit(s[i])) && (b == |s| || !IsDigit(s[b]))
    ensures RunAt(s, p) == b - p
    decreases b - p
  {
    if p < b { RunEndsAt(s, p + 1, b); }
  }

  lemma {:induction false} RunStopsBefore(s: seq<Byte>, p: nat, a: nat)
    requires p < a <= |s| && !IsDigit(s[a - 1])
    ensures p + RunAt(s, p) < a
    decreases a - p
  {
    if p + 1 < a { RunStopsBefore(s, p + 1, a); }
  }

  /** Piece `k` of a maximal run, cut every 19 digits, if it has at least 13. */
  predicate Piece(s: seq<Byte>, a: nat, b: nat, k: nat) { MaximalRun(s, a, b) && a + 19 * k + 13 <= b }

  function PieceOf(s: seq<Byte>, a: nat, b: nat, k: nat): seq<Byte>
    requires Piece(s, a, b, k)
  {
    var low := a + 19 * k;
    s[low..low + RunLength(b - low)]
  }

  lemma RunFrom(s: seq<Byte>, a: nat, b: nat, p: nat)
    requires MaximalRun(s, a, b) && a <= p <= b
    ensures RunAt(s, p) == b - p
  {
    forall i | p <= i < b ensures IsDigit(s[i]) {
      assert s[a..b][i - a] == s[i];
    }
    RunEndsAt(s, p, b);
  }

  /** Searching on from piece `j` of the run finds piece `k`. */
  lemma {:induction false} PieceIsFoundFrom(s: seq<Byte>, a: nat, b: nat, k: nat, j: nat)
    requires Piece(s, a, b, k) && j <= k
    ensures PieceOf(s, a, b, k) in FindAll(s, a + 19 * j)
    decreases k - j
  {
    RunFrom(s, a, b, a + 19 * j);
    if j < k { PieceIsFoundFrom(s, a, b, k, j + 1); }
  }

  lemma {:induction false} PieceIsFound(s: seq<Byte>, p: nat, a: nat, b: nat, k: nat)
    requires Piece(s, a, b, k) && p <= a
    ensures PieceOf(s, a, b, k) in FindAll(s, p)
    decreases a - p
  {
    if p == a {
      PieceIsFoundFrom(s, a, b, k, 0);
    } else {
      RunStopsBefore(s, p, a);
      PieceIsFound(s, if RunAt(s, p) >= 13 then p + RunLength(RunAt(s, p)) else p + 1, a, b, k);
    }
  }

  /** Position `p` is where piece `k` of the run that starts at `a` begins. */
  predicate PieceStart(s: seq<Byte>, p: nat, a: nat, k: nat)
  {
    && p == a + 19 * k <= |s|
    && (forall i :: a <= i < p ==> IsDigit(s[i]))
    && (a == 0 || !IsDigit(s[a - 1]))
  }

  lemma PieceAt(s: seq<Byte>, p: nat, a: nat, k: nat)
    requires PieceStart(s, p, a, k) && RunAt(s, p) >= 13
    ensures var b := p + RunAt(s, p); Piece(s, a, b, k) && PieceOf(s, a, b, k) == s[p..p + RunLength(RunAt(s, p))]
  {
    var b := p + RunAt(s, p);
    forall i | a <= i < b ensures IsDigit(s[i]) {}
    assert AllDigits(s[a..b]);
  }

  lemma NextPiece(s: seq<Byte>, p: nat, a: nat, k: nat)
    requires PieceStart(s, p, a, k) && RunAt(s, p) >= 19
    ensures PieceStart(s, p + 19, a, k + 1)
  {
  }

  lemma FreshPiece(s: seq<Byte>, p: nat)
    requires p < |s| && RunAt(s, p) == 0
    ensures PieceStart(s, p + 1, p + 1, 0)
  {
  }

  /** What is found at `p` is the run there, or found further on. */
  lemma FindStep(s: seq<Byte>, p: nat, m: seq<Byte>)
    requires p <= |s| && m in FindAll(s, p)
    ensures var n := RunAt(s, p);
      && (n >= 13 ==> m == s[p..p + RunLength(n)] || m in FindAll(s, p + RunLength(n)))
      && (n < 13 ==> p < |s| && m in FindAll(s, p + 1))
  {
  }

  lemma RunLengthIs(n: nat)
    ensures RunLength(n) == if n < 19 then n else 19
  {
  }

  /** Nothing is found but such pieces: the search only ever stands at the start of a piece, or where fewer than 13
      digits are left. */
  lemma {:induction false} FoundIsPiece(s: seq<Byte>, p: nat, m: seq<Byte>, a0: nat, k0: nat)
    returns (a: nat, b: nat, k: nat)
    requires p <= |s| && m in FindAll(s, p) && (RunAt(s, p) >= 13 ==> PieceStart(s, p, a0, k0))
    ensures Piece(s, a, b, k) && m == PieceOf(s, a, b, k)
    decreases |s| - p
  {
    hide *;
    FindStep(s, p, m);
    var n := RunAt(s, p);
    RunLengthIs(n);
    if n < 13 {
      if n > 0 { RunShrinks(s, p, 1); } else { FreshPiece(s, p); }
      a, b, k := FoundIsPiece(s, p + 1, m, p + 1, 0);
    } else if m == s[p..p + RunLength(n)] {
      PieceAt(s, p, a0, k0);
      a, b, k := a0, p + n, k0;
    } else {
      RunShrinks(s, p, RunLength(n));
      if n >= 19 { NextPiece(s, p, a0, k0); }
      a, b, k := FoundIsPiece(s, p + RunLength(n), m, a0, k0 + 1);
    }
  }

  lemma {:induction false} RunShrinks(s: seq<Byte>, p: nat, d: nat)
    requires p <= |s| && d <= RunAt(s, p)
    ensures RunAt(s, p + d) == RunAt(s, p) - d
    decreases d
  {
    if d > 0 { RunShrinks(s, p + 1, d - 1); }
  }

  /** One of the pieces of the digit runs passes the check. */
  ghost predicate HasValidPiece(s: seq<Byte>)
  {
    exists a: nat, b: nat, k: nat :: Piece(s, a, b, k) && Valid(PieceOf(s, a, b, k))
  }

  /** A payload is rejected exactly when, separators aside, one of the pieces of its digit runs passes the check: the
      run itself if it has 13 to 19 digits, its pieces of 19 and a last one of at least 13 if it is longer. */
  lemma RejectsIff(raw: seq<Byte>)
    ensures Rejects(raw) <==> HasValidPiece(Filter(raw, Kept))
  {
    var s := Filter(raw, Kept);
    hide Filter;
    hide Valid;
    hide FindAll;
    hide Piece;
    hide PieceOf;
    if HasValidPiece(s) {
      var a: nat, b: nat, k: nat :| Piece(s, a, b, k) && Valid(PieceOf(s, a, b, k));
      PieceStarts(s, a, b, k);
      PieceIsFound(s, 0, a, b, k);
    }
    if Rejects(raw) {
      var m :| m in FindAll(s, 0) && Valid(m);
      var a, b, k := FoundIsPiece(s, 0, m, 0, 0);
      assert Piece(s, a, b, k) && Valid(PieceOf(s, a, b, k));
    }
  }

  lemma PieceStarts(s: seq<Byte>, a: nat, b: nat, k: nat)
    requires Piece(s, a, b, k)
    ensures a <= |s|
  {
  }

  /** In particular a valid run of 13 to 19 digits is always rejected. */
  lemma RejectsValidRun(raw: seq<Byte>, a: nat, b: nat)
    requires var s := Filter(raw, Kept); MaximalRun(s, a, b) && 13 <= b - a <= 19 && Valid(s[a..b])
    ensures Rejects(raw)
  {
    assert Piece(Filter(raw, Kept), a, b, 0) && PieceOf(Filter(raw, Kept), a, b, 0) == Filter(raw, Kept)[a..b];
    RejectsIff(raw);
  }

  lemma {:induction false} SumBeforeZeros(s: seq<Byte>, n: nat)
    requires 1 <= n <= |s| && forall i :: 1 <= i < n ==> s[i] == 48
    ensures SumTo(s, n) == Contribution(s[0], Doubled(|s|, 0))
  {
    if n > 1 { SumBeforeZeros(s, n - 1); } else { assert SumTo(s, 0) == 0; }
  }

  /** `first` and zeros are valid exactly when `first` is a zero. */
  lemma ValidBeforeZeros(s: seq<Byte>)
    requires s != [] && IsDigit(s[0]) && forall i :: 1 <= i < |s| ==> s[i] == 48
    ensures Valid(s) <==> s[0] == 48
  {
    SumBeforeZeros(s, |s|);
    ContributionsDiffer(s[0], 48, Doubled(|s|, 0));
    assert Contribution(48, Doubled(|s|, 0)) == 0;
    hide Contribution;
    hide SumTo;
    hide Doubled;
  }

  /** A one and nineteen zeros. */
  function Twenty(): (s: seq<Byte>)
    ensures |s| == 20 && s[0] == 49 && forall i :: 1 <= i < 20 ==> s[i] == 48
  {
    seq(20, i => if i == 0 then 49 else 48)
  }

  lemma PieceOfTwenty(a: nat, b: nat, k: nat)
    requires Piece(Twenty(), a, b, k)
    ensures PieceOf(Twenty(), a, b, k) == Twenty()[0..19]
  {
    hide Twenty;
    var s := Twenty();
    assert forall i :: 0 <= i < 20 ==> IsDigit(s[i]);
    assert a == 0 && b == 20 && k == 0;
  }

  /** A valid run inside a longer one is not looked at unless it is a piece: here the last 19 of 20 digits pass the
      check and the payload is accepted. */
  lemma LongRunAccepted()
    ensures var s := Twenty(); !Rejects(s) && MaximalRun(s, 0, 20) && Valid(s[1..20])
  {
    hide Twenty;
    var s := Twenty();
    assert MaximalRun(s, 0, 20);
    FilterEverything(s, Kept);
    ValidBeforeZeros(s[1..20]);
    ValidBeforeZeros(s[0..19]);
    assert s[1] == 48 && s[1..20][0] == s[1] && s[0..19][0] == s[0];
    assert Valid(s[1..20]) && !Valid(s[0..19]);
    hide *;
    RejectsIff(s);
    NoValidPiece();
  }

  lemma NoValidPiece()
    requires !Valid(Twenty()[0..19])
    ensures !HasValidPiece(Twenty())
  {
    hide Twenty;
    hide Valid;
    hide Piece;
    hide PieceOf;
    forall a: nat, b: nat, k: nat | Piece(Twenty(), a, b, k) ensures !Valid(PieceOf(Twenty(), a, b, k)) {
      PieceOfTwenty(a, b, k);
    }
  }

  // ---------------------------------------------------------------- inserting separators

  function Weave(chunks: seq<seq<Byte>>, fill: nat -> seq<Byte>, i: nat): seq<Byte>
    requires i <= |chunks|
    decreases |chunks| - i
  {
    if i == |chunks| then [] else chunks[i] + (fill(i) + Weave(chunks, fill, i + 1))
  }

  /** Nothing but spaces, hyphens and other white space. */
  ghost predicate OnlySeparators(fill: nat -> seq<Byte>)
  {
    forall i, j :: 0 <= j < |fill(i)| ==> fill(i)[j] in {9, 10, 11, 12, 13, 32, 45, 0x85, 0xA0}
  }

  lemma StripPieces(chunk: seq<Byte>, fill: seq<Byte>, rest: seq<Byte>)
    requires forall j :: 0 <= j < |fill| ==> !Kept(fill[j])
    ensures Filter(chunk + (fill + rest), Kept) == Filter(chunk, Kept) + Filter(rest, Kept)
  {
    FilterNone(fill, Kept);
    hide *;
    FilterAppend(chunk, fill + rest, Kept);
    FilterAppend(fill, rest, Kept);
    var kept := Filter(rest, Kept);
    assert [] + kept == kept;
  }

  lemma {:induction false} WeaveStripped(chunks: seq<seq<Byte>>, fill: nat -> seq<Byte>, i: nat)
    requires i <= |chunks| && OnlySeparators(fill)
    ensures Filter(Weave(chunks, fill, i), Kept) == Filter(Weave(chunks, _ => [], i), Kept)
    decreases |chunks| - i
  {
    if i < |chunks| {
      var none: nat -> seq<Byte> := _ => [];
      WeaveStripped(chunks, fill, i + 1);
      forall j | 0 <= j < |fill(i)| ensures !Kept(fill(i)[j]) { KeptBytes(fill(i)[j]); }
      StripPieces(chunks[i], fill(i), Weave(chunks, fill, i + 1));
      StripPieces(chunks[i], none(i), Weave(chunks, none, i + 1));
      hide Filter;
      hide OnlySeparators;
    }
  }

  /** Cut the payload anywhere and put any separators between the pieces: the verdict is the same. */
  lemma SeparatorsDoNotMatter(chunks: seq<seq<Byte>>, fill: nat -> seq<Byte>)
    requires OnlySeparators(fill)
    ensures Rejects(Weave(chunks, fill, 0)) <==> Rejects(Weave(chunks, _ => [], 0))
  {
    WeaveStripped(chunks, fill, 0);
  }
}
