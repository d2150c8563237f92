/** The two-row edit-distance loop behind Tier 2 (internal/recon/matcher.go), its recursive
    meaning, the metric laws, and exactly which strings the loop is right for. */
module EditDistance {

  // ---------------------------------------------------------------- recursive distance

  function Min(a: int, b: int): int { if a < b then a else b }

  function Cost(x: char, y: char): int { if x == y then 0 else 1 }

  /** Edit distance of the first `i` runes of `a` and the first `j` runes of `b`. */
  function D(a: string, b: string, i: nat, j: nat): nat
    requires i <= |a| && j <= |b|
  {
    if i == 0 then j
    else if j == 0 then i
    else Min(D(a, b, i, j - 1) + 1, Min(D(a, b, i - 1, j) + 1, D(a, b, i - 1, j - 1) + Cost(a[i - 1], b[j - 1])))
  }

  function Dist(a: string, b: string): nat { D(a, b, |a|, |b|) }

  // ---------------------------------------------------------------- metric laws

  lemma {:induction false} DSymmetric(a: string, b: string, i: nat, j: nat)
    requires i <= |a| && j <= |b|
    ensures D(a, b, i, j) == D(b, a, j, i)
    decreases i + j
  {
    hide *;
    DUnfold(a, b, i, j);
    DUnfold(b, a, j, i);
    if i > 0 && j > 0 {
      DSymmetric(a, b, i, j - 1);
      DSymmetric(a, b, i - 1, j);
      DSymmetric(a, b, i - 1, j - 1);
      CostSymmetric(a[i - 1], b[j - 1]);
      MinSwap(D(a, b, i, j - 1) + 1, D(a, b, i - 1, j) + 1, D(a, b, i - 1, j - 1) + Cost(a[i - 1], b[j - 1]));
    }
  }

  lemma CostSymmetric(x: char, y: char)
    ensures Cost(x, y) == Cost(y, x)
  {
  }

  lemma MinSwap(x: int, y: int, z: int)
    ensures Min(x, Min(y, z)) == Min(y, Min(x, z))
  {
  }

  lemma DUnfold(a: string, b: string, i: nat, j: nat)
    requires i <= |a| && j <= |b|
    ensures i == 0 || j == 0 ==> D(a, b, i, j) == i + j
    ensures i > 0 && j > 0 ==>
      D(a, b, i, j) == Min(D(a, b, i, j - 1) + 1,
                           Min(D(a, b, i - 1, j) + 1, D(a, b, i - 1, j - 1) + Cost(a[i - 1], b[j - 1])))
  {
  }

  lemma {:induction false} DZero(a: string, b: string, i: nat, j: nat)
    requires i <= |a| && j <= |b|
    ensures D(a, b, i, j) == 0 <==> a[..i] == b[..j]
  {
    if i > 0 && j > 0 {
      DZero(a, b, i - 1, j - 1);
      assert a[..i] == a[..i - 1] + [a[i - 1]];
      assert b[..j] == b[..j - 1] + [b[j - 1]];
      if a[..i] == b[..j] {
        assert a[..i - 1] == a[..i][..i - 1] == b[..j][..j - 1] == b[..j - 1];
        assert a[i - 1] == a[..i][i - 1] == b[..j][j - 1] == b[j - 1];
      }
    }
  }

  /** One step of the recursion, as inequalities. */
  lemma DStep(a: string, b: string, i: nat, j: nat)
    requires i <= |a| && j <= |b|
    ensures i > 0 ==> D(a, b, i, j) <= D(a, b, i - 1, j) + 1
    ensures j > 0 ==> D(a, b, i, j) <= D(a, b, i, j - 1) + 1
    ensures i > 0 && j > 0 ==> D(a, b, i, j) <= D(a, b, i - 1, j - 1) + Cost(a[i - 1], b[j - 1])
  {
    if i > 0 && j == 0 { assert D(a, b, i - 1, j) == i - 1; }
    if i == 0 && j > 0 { assert D(a, b, i, j - 1) == j - 1; }
  }

  datatype Move = Stop | DeleteLast | InsertLast | Align

  /** Which of the three neighbours the distance comes from. */
  function LastMove(a: string, b: string, i: nat, j: nat): (m: Move)
    requires i <= |a| && j <= |b|
    ensures m.Stop? ==> i == 0 && j == 0 && D(a, b, i, j) == 0
    ensures m.DeleteLast? ==> i > 0 && D(a, b, i, j) == D(a, b, i - 1, j) + 1
    ensures m.InsertLast? ==> j > 0 && D(a, b, i, j) == D(a, b, i, j - 1) + 1
    ensures m.Align? ==> i > 0 && j > 0 && D(a, b, i, j) == D(a, b, i - 1, j - 1) + Cost(a[i - 1], b[j - 1])
  {
    if i == 0 && j == 0 then Stop
    else if j == 0 then DeleteLast
    else if i == 0 then InsertLast
    else if D(a, b, i, j) == D(a, b, i - 1, j) + 1 then DeleteLast
    else if D(a, b, i, j) == D(a, b, i, j - 1) + 1 then InsertLast
    else Align
  }

  lemma {:induction false} DTriangle(a: string, b: string, c: string, i: nat, j: nat, k: nat)
    requires i <= |a| && j <= |b| && k <= |c|
    ensures D(a, c, i, k) <= D(a, b, i, j) + D(b, c, j, k)
    decreases i + j + k
  {
    hide D;
    var ab, bc := LastMove(a, b, i, j), LastMove(b, c, j, k);
    DStep(a, c, i, k);
    match (ab, bc)
    case (DeleteLast, _) => DTriangle(a, b, c, i - 1, j, k);
    case (_, InsertLast) => DTriangle(a, b, c, i, j, k - 1);
    case (InsertLast, DeleteLast) => DTriangle(a, b, c, i, j - 1, k);
    case (InsertLast, Align) => DTriangle(a, b, c, i, j - 1, k - 1);
    case (Align, DeleteLast) => DTriangle(a, b, c, i - 1, j - 1, k);
    case (Align, Align) => DTriangle(a, b, c, i - 1, j - 1, k - 1);
    case (Stop, Stop) => DZero(a, c, i, k);
  }

  /** The distance is a metric: zero exactly on equal strings, symmetric, triangular. */
  lemma Metric(a: string, b: string, c: string)
    ensures Dist(a, b) == 0 <==> a == b
    ensures Dist(a, b) == Dist(b, a)
    ensures Dist(a, c) <= Dist(a, b) + Dist(b, c)
  {
    DZero(a, b, |a|, |b|);
    assert a[..|a|] == a && b[..|b|] == b;
    DSymmetric(a, b, |a|, |b|);
    DTriangle(a, b, c, |a|, |b|, |c|);
  }

  // ---------------------------------------------------------------- edit scripts

  datatype Edit = Insert(at: nat, c: char) | Delete(at: nat) | Replace(at: nat, c: char)

  predicate Applies(e: Edit, s: string) { if e.Insert? then e.at <= |s| else e.at < |s| }

  function Apply(e: Edit, s: string): string
    requires Applies(e, s)
  {
    match e
    case Insert(p, c) => s[..p] + [c] + s[p..]
    case Delete(p) => s[..p] + s[p + 1..]
    case Replace(p, c) => s[p := c]
  }

  /** `script` rewrites `a` into `b`, one edit at a time. */
  predicate Rewrites(script: seq<Edit>, a: string, b: string)
  {
    if script == [] then a == b
    else Applies(script[0], a) && Rewrites(script[1..], Apply(script[0], a), b)
  }

  lemma {:induction false} SamePrefix(a: string, b: string, i: nat)
    requires i <= |a| && i <= |b| && a[..i] == b[..i]
    ensures D(a, b, i, i) == 0
  {
    DZero(a, b, i, i);
  }

  lemma {:induction false} InsertCostsOne(s: string, p: nat, c: char, i: nat)
    requires p <= i <= |s|
    ensures D(s, s[..p] + [c] + s[p..], i, i + 1) <= 1
  {
    var t := s[..p] + [c] + s[p..];
    if i == p {
      assert s[..i] == t[..i];
      SamePrefix(s, t, i);
    } else {
      InsertCostsOne(s, p, c, i - 1);
      assert t[i] == s[i - 1];
    }
  }

  lemma {:induction false} ReplaceCostsOne(s: string, p: nat, c: char, i: nat)
    requires p < |s| && p < i <= |s|
    ensures D(s, s[p := c], i, i) <= 1
  {
    var t := s[p := c];
    if i == p + 1 {
      assert s[..p] == t[..p];
      SamePrefix(s, t, p);
    } else {
      ReplaceCostsOne(s, p, c, i - 1);
    }
  }

  lemma OneEdit(e: Edit, s: string)
    requires Applies(e, s)
    ensures Dist(s, Apply(e, s)) <= 1
  {
    match e
    case Insert(p, c) => InsertCostsOne(s, p, c, |s|);
    case Replace(p, c) => ReplaceCostsOne(s, p, c, |s|);
    case Delete(p) =>
      var t := Apply(e, s);
      assert t[..p] + [s[p]] + t[p..] == s;
      InsertCostsOne(t, p, s[p], |t|);
      Metric(t, s, s);
  }

  /** No script is shorter than the distance. */
  lemma {:induction false} ScriptLowerBound(script: seq<Edit>, a: string, b: string)
    requires Rewrites(script, a, b)
    ensures Dist(a, b) <= |script|
  {
    if script == [] {
      Metric(a, b, b);
    } else {
      var m := Apply(script[0], a);
      OneEdit(script[0], a);
      ScriptLowerBound(script[1..], m, b);
      Metric(a, m, b);
    }
  }

  lemma Prepend(e: Edit, s: string, m: string, rest: seq<Edit>, t: string) returns (script: seq<Edit>)
    requires Applies(e, s) && Apply(e, s) == m && Rewrites(rest, m, t)
    ensures Rewrites(script, s, t) && |script| == |rest| + 1
  {
    script := [e] + rest;
    assert script[1..] == rest;
  }

  lemma NoScript(s: string, t: string) returns (script: seq<Edit>)
    requires s == t
    ensures script == [] && Rewrites(script, s, t)
  {
    script := [];
  }

  /** Some script has exactly that length; `tail` is what stays to the right of the edited prefix. */
  lemma {:induction false} ShortestScript(a: string, b: string, i: nat, j: nat, tail: string)
    returns (script: seq<Edit>)
    requires i <= |a| && j <= |b|
    ensures |script| == D(a, b, i, j) && Rewrites(script, a[..i] + tail, b[..j] + tail)
    decreases i + j
  {
    hide D;
    hide Rewrites;
    var s, t := a[..i] + tail, b[..j] + tail;
    match LastMove(a, b, i, j)
    case Stop =>
      script := NoScript(s, t);
    case DeleteLast =>
      script := ShortestScript(a, b, i - 1, j, tail);
      assert Apply(Delete(i - 1), s) == a[..i - 1] + tail;
      script := Prepend(Delete(i - 1), s, a[..i - 1] + tail, script, t);
    case InsertLast =>
      var wider := [b[j - 1]] + tail;
      assert b[..j - 1] + wider == t;
      script := ShortestScript(a, b, i, j - 1, wider);
      assert Apply(Insert(i, b[j - 1]), s) == a[..i] + wider;
      script := Prepend(Insert(i, b[j - 1]), s, a[..i] + wider, script, t);
    case Align =>
      var wider := [b[j - 1]] + tail;
      assert b[..j - 1] + wider == t;
      script := ShortestScript(a, b, i - 1, j - 1, wider);
      if a[i - 1] == b[j - 1] {
        assert s == a[..i - 1] + wider;
      } else {
        assert Apply(Replace(i - 1, b[j - 1]), s) == a[..i - 1] + wider;
        script := Prepend(Replace(i - 1, b[j - 1]), s, a[..i - 1] + wider, script, t);
      }
  }

  /** The distance is the length of a shortest edit script. */
  lemma DistanceIsShortestScript(a: string, b: string)
    ensures exists script :: Rewrites(script, a, b) && |script| == Dist(a, b)
    ensures forall script :: Rewrites(script, a, b) ==> Dist(a, b) <= |script|
  {
    var script := ShortestScript(a, b, |a|, |b|, []);
    assert a[..|a|] + [] == a && b[..|b|] + [] == b;
    forall s | Rewrites(s, a, b) ensures Dist(a, b) <= |s| { ScriptLowerBound(s, a, b); }
  }

  // ---------------------------------------------------------------- the loop

  /** Bytes of one rune in a Go string (UTF-8). */
  function Width(c: char): nat
  {
    var n := c as int;
    if n < 0x80 then 1 else if n < 0x800 then 2 else if n < 0x10000 then 3 else 4
  }

  /** The UTF-8 encoding of a rune (section 3 of RFC 3629). */
  function Utf8(c: char): seq<int>
  {
    var n := c as int;
    if n <= 0x7F then [n]
    else if n <= 0x7FF then [0xC0 + n / 64, 0x80 + n % 64]
    else if n <= 0xFFFF then [0xE0 + n / 4096, 0x80 + n / 64 % 64, 0x80 + n % 64]
    else [0xF0 + n / 262144, 0x80 + n / 4096 % 64, 0x80 + n / 64 % 64, 0x80 + n % 64]
  }

  lemma WidthIsEncodedLength(c: char)
    ensures Width(c) == |Utf8(c)|
  {
  }

  /** Byte offset of rune `k`: what `range` over a Go string yields as index. */
  function Offset(s: string, k: nat): nat
    requires k <= |s|
  {
    if k == 0 then 0 else Offset(s, k - 1) + Width(s[k - 1])
  }

  function ByteLen(s: string): nat { Offset(s, |s|) }

  predicate SingleByte(s: string) { forall k :: 0 <= k < |s| ==> Width(s[k]) == 1 }

  lemma {:induction false} OffsetMonotone(s: string, i: nat, j: nat)
    requires i <= j <= |s|
    ensures Offset(s, i) + (j - i) <= Offset(s, j)
  {
    if i < j { OffsetMonotone(s, i, j - 1); }
  }

  lemma {:induction false} OffsetSingleByte(s: string, k: nat)
    requires k <= |s| && forall i :: 0 <= i < k ==> Width(s[i]) == 1
    ensures Offset(s, k) == k
  {
    if k > 0 { OffsetSingleByte(s, k - 1); }
  }

  /** The row slice `current` after the inner loop has visited `k` runes of `right`. */
  function FillRow(previous: seq<int>, c: char, first: int, right: string, k: nat): (row: seq<int>)
    requires k <= |right| && |previous| == ByteLen(right) + 1
    ensures |row| == |previous|
  {
    if k == 0 then [first] + seq(ByteLen(right), _ => 0)
    else
      var row := FillRow(previous, c, first, right, k - 1);
      var at := Offset(right, k - 1);
      OffsetMonotone(right, k, |right|);
      row[at + 1 := Min(row[at] + 1, Min(previous[at + 1] + 1, previous[at] + Cost(c, right[k - 1])))]
  }

  lemma FillRowStep(previous: seq<int>, c: char, first: int, right: string, k: nat)
    requires k < |right| && |previous| == ByteLen(right) + 1
    ensures Offset(right, k) + 1 < |previous|
    ensures var row, at := FillRow(previous, c, first, right, k), Offset(right, k);
      FillRow(previous, c, first, right, k + 1) ==
        row[at + 1 := Min(row[at] + 1, Min(previous[at + 1] + 1, previous[at] + Cost(c, right[k])))]
  {
    OffsetMonotone(right, k + 1, |right|);
  }

  /** The row slice `previous` after the outer loop has visited `i` runes of `left`. */
  function Rows(left: string, right: string, i: nat): (row: seq<int>)
    requires i <= |left|
    ensures |row| == ByteLen(right) + 1
  {
    if i == 0 then seq(ByteLen(right) + 1, j => j)
    else FillRow(Rows(left, right, i - 1), left[i - 1], Offset(left, i - 1) + 1, right, |right|)
  }

  function LoopDistance(left: string, right: string): int { Rows(left, right, |left|)[ByteLen(right)] }

  /** The inner loop of levenshtein: one new row from the previous one. */
  method NextRow(previous: array<int>, c: char, first: int, right: string) returns (current: array<int>)
    requires previous.Length == ByteLen(right) + 1
    ensures fresh(current) && current[..] == FillRow(previous[..], c, first, right, |right|)
  {
    current := new int[previous.Length](_ => 0);
    current[0] := first;
    ghost var was := previous[..];
    assert current[..] == FillRow(was, c, first, right, 0);
    hide FillRow;
    var j, rightIndex := 0, 0;
    while j < |right|
      invariant j <= |right| && rightIndex == Offset(right, j)
      invariant current.Length == previous.Length && current != previous && previous[..] == was
      invariant current[..] == FillRow(was, c, first, right, j)
    {
      FillRowStep(was, c, first, right, j);
      var cost := if c != right[j] then 1 else 0;
      current[rightIndex + 1] :=
        Min(current[rightIndex] + 1, Min(previous[rightIndex + 1] + 1, previous[rightIndex] + cost));
      j, rightIndex := j + 1, rightIndex + Width(right[j]);
    }
  }

  /** levenshtein: the outer loop over the runes of `left`, keeping two rows. */
  method Levenshtein(left: string, right: string) returns (distance: int)
    ensures distance == LoopDistance(left, right)
    ensures SingleByte(left) && SingleByte(right) ==> distance == Dist(left, right)
  {
    var length := ByteLen(right);
    var previous := new int[length + 1](index => index);
    assert previous[..] == Rows(left, right, 0);
    var i, leftIndex := 0, 0;
    while i < |left|
      invariant i <= |left| && leftIndex == Offset(left, i)
      invariant previous.Length == length + 1 && previous[..] == Rows(left, right, i)
    {
      previous := NextRow(previous, left[i], leftIndex + 1, right);
      i, leftIndex := i + 1, leftIndex + Width(left[i]);
    }
    distance := previous[length];
    if SingleByte(left) && SingleByte(right) { LoopIsDistance(left, right); }
  }

  // ---------------------------------------------------------------- where the loop is right

  /** `row` holds the distances of the first `i` runes of `left` to the first `0..k` runes of `right`. */
  predicate HoldsD(row: seq<int>, left: string, right: string, i: nat, k: nat)
    requires i <= |left| && k <= |right|
  {
    k < |row| && forall j :: 0 <= j <= k ==> row[j] == D(left, right, i, j)
  }

  lemma {:induction false} FillRowIsD(previous: seq<int>, left: string, right: string, i: nat, k: nat)
    requires 0 < i <= |left| && k <= |right| && SingleByte(right)
    requires |previous| == ByteLen(right) + 1 && HoldsD(previous, left, right, i - 1, |right|)
    ensures HoldsD(FillRow(previous, left[i - 1], i, right, k), left, right, i, k)
  {
    OffsetSingleByte(right, |right|);
    if k > 0 {
      OffsetSingleByte(right, k - 1);
      FillRowIsD(previous, left, right, i, k - 1);
    }
  }

  /** Also right when the last rune of `left` is multi-byte: its width is never used. */
  lemma {:induction false} RowsIsD(left: string, right: string, i: nat)
    requires i <= |left| && SingleByte(right) && forall k :: 0 <= k < i - 1 ==> Width(left[k]) == 1
    ensures HoldsD(Rows(left, right, i), left, right, i, |right|)
  {
    OffsetSingleByte(right, |right|);
    if i > 0 {
      OffsetSingleByte(left, i - 1);
      RowsIsD(left, right, i - 1);
      FillRowIsD(Rows(left, right, i - 1), left, right, i, |right|);
    }
  }

  /** On single-byte strings the loop computes the edit distance. */
  lemma LoopIsDistance(left: string, right: string)
    requires SingleByte(left) && SingleByte(right)
    ensures LoopDistance(left, right) == Dist(left, right)
  {
    RowsIsD(left, right, |left|);
    OffsetSingleByte(right, |right|);
  }

  /** The cells of `row` are no less than the distances HoldsD speaks of. */
  predicate HoldsAtLeastD(row: seq<int>, left: string, right: string, i: nat, k: nat)
    requires i <= |left| && k <= |right|
  {
    k < |row| && forall j :: 0 <= j <= k ==> row[j] >= D(left, right, i, j)
  }

  lemma {:induction false} FillRowAtLeastD(previous: seq<int>, left: string, right: string, i: nat, first: int, k: nat)
    requires 0 < i <= |left| && k <= |right| && SingleByte(right) && first >= i
    requires |previous| == ByteLen(right) + 1 && HoldsAtLeastD(previous, left, right, i - 1, |right|)
    ensures HoldsAtLeastD(FillRow(previous, left[i - 1], first, right, k), left, right, i, k)
  {
    OffsetSingleByte(right, |right|);
    if k > 0 {
      OffsetSingleByte(right, k - 1);
      FillRowAtLeastD(previous, left, right, i, first, k - 1);
    }
  }

  lemma {:induction false} RowsAtLeastD(left: string, right: string, i: nat)
    requires i <= |left| && SingleByte(right)
    ensures HoldsAtLeastD(Rows(left, right, i), left, right, i, |right|)
  {
    OffsetSingleByte(right, |right|);
    if i > 0 {
      OffsetMonotone(left, 0, i - 1);
      RowsAtLeastD(left, right, i - 1);
      FillRowAtLeastD(Rows(left, right, i - 1), left, right, i, Offset(left, i - 1) + 1, |right|);
    }
  }

  /** Against a single-byte right-hand string the loop never falls below the edit distance, whatever the left one. */
  lemma LoopAtLeastDistance(left: string, right: string)
    requires SingleByte(right)
    ensures LoopDistance(left, right) >= Dist(left, right)
  {
    RowsAtLeastD(left, right, |left|);
    OffsetSingleByte(right, |right|);
  }

  /** Cells the inner loop has not reached hold zero. */
  lemma {:induction false} Untouched(previous: seq<int>, c: char, first: int, right: string, k: nat, j: nat)
    requires k <= |right| && |previous| == ByteLen(right) + 1 && 0 < j <= ByteLen(right)
    requires k > 0 ==> Offset(right, k - 1) + 1 < j
    ensures FillRow(previous, c, first, right, k)[j] == 0
  {
    if k > 0 {
      if k > 1 { OffsetMonotone(right, k - 2, k - 1); }
      Untouched(previous, c, first, right, k - 1, j);
    }
  }

  /** Past a multi-byte rune of `right` the row restarts from zero. */
  lemma {:induction false} RowRestarts(previous: seq<int>, c: char, first: int, right: string, m: nat, k: nat)
    requires m < k <= |right| && |previous| == ByteLen(right) + 1 && Width(right[m]) > 1
    ensures Offset(right, k) <= ByteLen(right)
    ensures FillRow(previous, c, first, right, k)[Offset(right, k)] <= k - 1 - m
  {
    OffsetMonotone(right, k, |right|);
    if Width(right[k - 1]) > 1 {
      Untouched(previous, c, first, right, k, Offset(right, k));
    } else {
      RowRestarts(previous, c, first, right, m, k - 1);
    }
  }

  lemma {:induction false} DLowerBound(a: string, b: string, i: nat, j: nat)
    requires i <= |a| && j <= |b|
    ensures D(a, b, i, j) >= i - j
  {
    if i > 0 && j > 0 {
      DLowerBound(a, b, i, j - 1);
      DLowerBound(a, b, i - 1, j);
      DLowerBound(a, b, i - 1, j - 1);
    }
  }

  lemma WrongPastMultiByte(left: string, right: string, m: nat)
    requires left != [] && m < |right| && Width(right[m]) > 1
    ensures LoopDistance(left, right) <= |right| - 1 - m
  {
    RowRestarts(Rows(left, right, |left| - 1), left[|left| - 1], Offset(left, |left| - 1) + 1, right, m, |right|);
  }

  /** The right-hand strings for which the loop is the edit distance against every single-byte
      left-hand string are exactly the single-byte ones. */
  lemma LoopExactIff(right: string)
    ensures (forall left :: SingleByte(left) ==> LoopDistance(left, right) == Dist(left, right)) <==> SingleByte(right)
  {
    if SingleByte(right) {
      forall left | SingleByte(left) ensures LoopDistance(left, right) == Dist(left, right) {
        LoopIsDistance(left, right);
      }
    } else {
      var m :| 0 <= m < |right| && Width(right[m]) != 1;
      var left := seq(2 * |right|, _ => 'a');
      WrongPastMultiByte(left, right, m);
      DLowerBound(left, right, |left|, |right|);
      assert SingleByte(left) && LoopDistance(left, right) != Dist(left, right);
    }
  }

  /** Against the empty string the loop counts the bytes up to the last rune, and that rune once. */
  lemma LoopAgainstEmpty(left: string)
    requires left != []
    ensures LoopDistance(left, []) == Offset(left, |left| - 1) + 1 && Dist(left, []) == |left|
  {
  }

  /** All runes but the last are single-byte. */
  predicate SingleByteLead(s: string) { forall k :: 0 <= k < |s| - 1 ==> Width(s[k]) == 1 }

  lemma {:induction false} WideRuneShifts(s: string, k: nat, n: nat)
    requires k < n <= |s| && Width(s[k]) > 1
    ensures Offset(s, n) > n
  {
    OffsetMonotone(s, 0, k);
    OffsetMonotone(s, k + 1, n);
  }

  /** The left-hand strings for which the loop is the edit distance to every single-byte right-hand string are
      exactly those with no multi-byte rune before the last. */
  lemma LoopExactLeftIff(left: string)
    ensures (forall right :: SingleByte(right) ==> LoopDistance(left, right) == Dist(left, right)) <==>
      SingleByteLead(left)
  {
    if SingleByteLead(left) {
      forall right | SingleByte(right) ensures LoopDistance(left, right) == Dist(left, right) {
        RowsIsD(left, right, |left|);
        OffsetSingleByte(right, |right|);
      }
    } else {
      var k :| 0 <= k < |left| - 1 && Width(left[k]) != 1;
      LoopAgainstEmpty(left);
      WideRuneShifts(left, k, |left| - 1);
      hide LoopDistance;
      hide Dist;
      assert SingleByte([]) && LoopDistance(left, []) != Dist(left, []);
    }
  }

  /** An identifier ending in a multi-byte rune is at loop distance zero (or less) from every
      non-empty identifier. */
  lemma MultiByteEndMatchesAnything(left: string, right: string)
    requires left != [] && right != [] && Width(right[|right| - 1]) > 1
    ensures LoopDistance(left, right) <= 0
  {
    WrongPastMultiByte(left, right, |right| - 1);
  }

  // ---------------------------------------------------------------- strings close to the same string

  /** A cell the inner loop has passed does not change any more. */
  lemma {:induction false} CellSettled(previous: seq<int>, c: char, first: int, right: string, k: nat, n: nat, j: nat)
    requires k <= n <= |right| && |previous| == ByteLen(right) + 1 && j <= Offset(right, k)
    ensures Offset(right, k) <= ByteLen(right)
    ensures FillRow(previous, c, first, right, n)[j] == FillRow(previous, c, first, right, k)[j]
  {
    OffsetMonotone(right, k, |right|);
    if k < n {
      CellSettled(previous, c, first, right, k, n - 1, j);
      OffsetMonotone(right, k, n - 1);
    }
  }

  /** The cell behind a multi-byte rune is zero in every row. */
  lemma CellBehindWideRune(previous: seq<int>, c: char, first: int, right: string, m: nat)
    requires m < |right| && Width(right[m]) > 1 && |previous| == ByteLen(right) + 1
    ensures Offset(right, m + 1) <= ByteLen(right)
    ensures FillRow(previous, c, first, right, |right|)[Offset(right, m + 1)] == 0
  {
    OffsetMonotone(right, m + 1, |right|);
    Untouched(previous, c, first, right, m + 1, Offset(right, m + 1));
    CellSettled(previous, c, first, right, m + 1, |right|, Offset(right, m + 1));
  }

  /** An aligned equal rune hands the cell before it on. */
  lemma AlignedCell(previous: seq<int>, first: int, right: string, k: nat)
    requires k < |right| && Width(right[k]) == 1 && |previous| == ByteLen(right) + 1
    ensures Offset(right, k + 1) == Offset(right, k) + 1 <= ByteLen(right)
    ensures FillRow(previous, right[k], first, right, |right|)[Offset(right, k + 1)] <= previous[Offset(right, k)]
  {
    OffsetMonotone(right, k + 1, |right|);
    FillRowStep(previous, right[k], first, right, k);
    CellSettled(previous, right[k], first, right, k + 1, |right|, Offset(right, k + 1));
  }

  /** Runes `m + 1` on of `right` are single-byte. */
  predicate SingleByteFrom(right: string, m: nat) { forall k :: m < k < |right| ==> Width(right[k]) == 1 }

  lemma {:induction false} SameTailRow(lead: string, right: string, m: nat, t: nat)
    requires lead != [] && m < |right| && Width(right[m]) > 1 && SingleByteFrom(right, m) && t <= |right| - m - 1
    ensures Offset(right, m + 1 + t) <= ByteLen(right)
    ensures Rows(lead + right[m + 1..], right, |lead| + t)[Offset(right, m + 1 + t)] <= 0
  {
    var left := lead + right[m + 1..];
    var i := |lead| + t;
    OffsetMonotone(right, m + 1 + t, |right|);
    hide FillRow;
    if t == 0 {
      CellBehindWideRune(Rows(left, right, i - 1), left[i - 1], Offset(left, i - 1) + 1, right, m);
    } else {
      SameTailRow(lead, right, m, t - 1);
      assert left[i - 1] == right[m + t];
      AlignedCell(Rows(left, right, i - 1), Offset(left, i - 1) + 1, right, m + t);
    }
  }

  /** A string with a multi-byte rune is at loop distance zero or less from everything that ends like it. */
  lemma SameTailMatches(lead: string, right: string, m: nat)
    requires lead != [] && m < |right| && Width(right[m]) > 1 && SingleByteFrom(right, m)
    ensures LoopDistance(lead + right[m + 1..], right) <= 0
  {
    SameTailRow(lead, right, m, |right| - m - 1);
  }

  lemma {:induction false} LastWideRune(s: string, n: nat) returns (m: nat)
    requires n < |s| && Width(s[n]) > 1
    ensures m < |s| && Width(s[m]) > 1 && SingleByteFrom(s, m)
    decreases |s| - n
  {
    m := n;
    if k: nat :| n < k < |s| && Width(s[k]) > 1 { m := LastWideRune(s, k); }
  }

  lemma LengthsFarApart(a: string, b: string)
    requires |a| <= |b|
    ensures Dist(a, b) >= |b| - |a|
  {
    DLowerBound(b, a, |b|, |a|);
    Metric(a, b, b);
  }

  /** Two strings far apart that the loop takes for equal to `right`. */
  lemma FarPair(right: string, n: nat) returns (a: string, b: string)
    requires n < |right| && Width(right[n]) > 1
    ensures LoopDistance(a, right) <= 0 && LoopDistance(b, right) <= 0 && Dist(a, b) > 4
    ensures forall c :: c in a || c in b ==> c == 'a' || c in right
  {
    hide LoopDistance;
    hide Dist;
    var m := LastWideRune(right, n);
    var short, long := seq(1, _ => 'a'), seq(6, _ => 'a');
    a, b := short + right[m + 1..], long + right[m + 1..];
    SameTailMatches(short, right, m);
    SameTailMatches(long, right, m);
    LengthsFarApart(a, b);
  }

  /** Loop distance at most two to the same string keeps two strings within four edits, for all strings, exactly when
      that string is single-byte. */
  lemma CloseToSameIff(right: string)
    ensures (forall a, b :: LoopDistance(a, right) <= 2 && LoopDistance(b, right) <= 2 ==> Dist(a, b) <= 4) <==>
      SingleByte(right)
  {
    hide LoopDistance;
    hide Dist;
    if SingleByte(right) {
      forall a, b | LoopDistance(a, right) <= 2 && LoopDistance(b, right) <= 2 ensures Dist(a, b) <= 4 {
        LoopAtLeastDistance(a, right);
        LoopAtLeastDistance(b, right);
        Metric(a, right, b);
        Metric(b, right, right);
      }
    } else {
      var n :| 0 <= n < |right| && Width(right[n]) != 1;
      var a, b := FarPair(right, n);
    }
  }

  // ---------------------------------------------------------------- identical strings

  lemma {:induction false} DiagonalIsZero(s: string, i: nat)
    requires i <= |s|
    ensures Offset(s, i) <= ByteLen(s) && Rows(s, s, i)[Offset(s, i)] <= 0
  {
    OffsetMonotone(s, i, |s|);
    if i > 0 {
      DiagonalIsZero(s, i - 1);
      DiagonalRow(s, i, |s|);
    }
  }

  lemma {:induction false} DiagonalRow(s: string, i: nat, k: nat)
    requires 0 < i <= k <= |s|
    requires Offset(s, i) <= ByteLen(s) && Offset(s, i - 1) <= ByteLen(s) && Rows(s, s, i - 1)[Offset(s, i - 1)] <= 0
    ensures FillRow(Rows(s, s, i - 1), s[i - 1], Offset(s, i - 1) + 1, s, k)[Offset(s, i)] <= 0
  {
    if k > i {
      DiagonalRow(s, i, k - 1);
      OffsetMonotone(s, i, k - 1);
    } else if Width(s[i - 1]) > 1 {
      Untouched(Rows(s, s, i - 1), s[i - 1], Offset(s, i - 1) + 1, s, k, Offset(s, i));
    }
  }

  /** Equal strings are at loop distance zero or less, multi-byte or not. */
  lemma LoopOnEqual(s: string)
    ensures LoopDistance(s, s) <= 0
  {
    DiagonalIsZero(s, |s|);
  }
}
