/** How one message is divided over the channels of its class (src/unr/base/unr_blk.c:325-358).

    Every channel first gets the same whole number of blocks; the remainder is then dealt out
    block by block from a round-robin cursor that survives from one message to the next.
    All channels of a class have the same block size B (src/unr/base/unr_channel.c:198-204). */
module Split {
  import opened Arith

  // ---------- sums, offsets and counts of shares ----------

  /** Sum of the first j shares: the offset at which piece j starts. */
  function Prefix(s: seq<nat>, j: nat): nat
    requires j <= |s|
  {
    if j == 0 then 0 else Prefix(s, j - 1) + s[j - 1]
  }

  /** How many of the first j shares are not empty. */
  function NonZerosTo(s: seq<nat>, j: nat): (c: nat)
    requires j <= |s|
    ensures c <= j
  {
    if j == 0 then 0 else NonZerosTo(s, j - 1) + if s[j - 1] != 0 then 1 else 0
  }

  function NonZeros(s: seq<nat>): nat { NonZerosTo(s, |s|) }

  lemma {:induction false} PrefixUpdate(s: seq<nat>, j: nat, i: nat, x: nat)
    requires j <= |s| && i < |s|
    ensures Prefix(s[i := x], j) == Prefix(s, j) + if i < j then x - s[i] else 0
  {
    if j > 0 { PrefixUpdate(s, j - 1, i, x); }
  }

  lemma {:induction false} NonZerosUpdate(s: seq<nat>, j: nat, i: nat, x: nat)
    requires j <= |s| && i < |s| && s[i] == 0 && x > 0
    ensures NonZerosTo(s[i := x], j) == NonZerosTo(s, j) + if i < j then 1 else 0
  {
    if j > 0 { NonZerosUpdate(s, j - 1, i, x); }
  }

  lemma {:induction false} PrefixMonotone(s: seq<nat>, i: nat, j: nat)
    requires i <= j <= |s|
    ensures Prefix(s, i) <= Prefix(s, j)
  {
    if i < j { PrefixMonotone(s, i, j - 1); }
  }

  lemma PrefixNext(s: seq<nat>, i: nat)
    requires i < |s|
    ensures Prefix(s, i + 1) == Prefix(s, i) + s[i]
  {
  }

  lemma {:induction false} PiecesApart(s: seq<nat>, i: nat, j: nat)
    requires i < j <= |s|
    ensures Prefix(s, i) + s[i] <= Prefix(s, j)
    decreases j
  {
    PrefixNext(s, j - 1);
    if i < j - 1 { PiecesApart(s, i, j - 1); }
  }

  /** The pieces tile the message: each of its bytes lies in a piece ... */
  lemma PieceOfByte(s: seq<nat>, b: nat) returns (j: nat)
    requires b < Prefix(s, |s|)
    ensures j < |s| && Prefix(s, j) <= b < Prefix(s, j) + s[j]
  {
    j := |s| - 1;
    while b < Prefix(s, j)
      invariant j < |s| && b < Prefix(s, j + 1)
      decreases j
    {
      j := j - 1;
    }
  }

  /** ... and in no other. */
  lemma OnlyPieceOfByte(s: seq<nat>, b: nat, i: nat, j: nat)
    requires i < |s| && Prefix(s, i) <= b < Prefix(s, i) + s[i]
    requires j < |s| && Prefix(s, j) <= b < Prefix(s, j) + s[j]
    ensures i == j
  {
    if i < j { PiecesApart(s, i, j); }
    if j < i { PiecesApart(s, j, i); }
  }

  // ---------- the remainder loop ----------

  /** What the channel under the cursor receives in one visit: a block, and also what is left
      after it when that is less than a block. */
  function Given(rest: nat, B: nat): (g: nat)
    requires B > 0
    ensures g <= rest
    ensures rest > 0 ==> g > 0
  {
    var take := if rest > B then B else rest;
    take + if rest - take < B then rest - take else 0
  }

  /** The remainder loop as a whole: the shares it leaves, the channels it visited in order, and
      where the cursor stops. */
  datatype Dealt = Dealt(shares: seq<nat>, visited: seq<nat>, cursor: nat)

  function Deal(div: seq<nat>, rest: nat, cur: nat, B: nat): (r: Dealt)
    requires cur < |div| && B > 0
    ensures |r.shares| == |div| && r.cursor < |div|
    decreases rest
  {
    if rest == 0 then Dealt(div, [], cur)
    else
      var g := Given(rest, B);
      var r := Deal(div[cur := div[cur] + g], rest - g, Succ(cur, |div|), B);
      r.(visited := [cur] + r.visited)
  }

  function Repeat(x: nat, n: nat): (s: seq<nat>)
    ensures |s| == n && forall j :: 0 <= j < n ==> s[j] == x
  {
    seq(n, _ => x)
  }

  /** The share every channel gets before the remainder is dealt. */
  function Base(size: nat, n: nat, B: nat): nat
    requires n > 0 && B > 0
  {
    size / (n * B) * B
  }

  function Remainder(size: nat, n: nat, B: nat): nat
    requires n > 0 && B > 0
  {
    size % (n * B)
  }

  /** The division of a message of `size` bytes over n channels, the cursor standing at `cur`. */
  function Divided(size: nat, n: nat, B: nat, cur: nat): (d: Dealt)
    requires cur < n && B > 0
    ensures |d.shares| == n && d.cursor < n
  {
    Deal(Repeat(Base(size, n, B), n), Remainder(size, n, B), cur, B)
  }

  function Shares(size: nat, n: nat, B: nat, cur: nat): (s: seq<nat>)
    requires cur < n && B > 0
    ensures |s| == n
  {
    Divided(size, n, B, cur).shares
  }

  // ---------- what the loop deals: an independent description ----------

  /** Number of visits needed to deal `rest` bytes. */
  function Visits(rest: nat, B: nat): nat
    requires B > 0
  {
    if rest == 0 then 0 else if rest < 2 * B then 1 else 1 + Visits(rest - B, B)
  }

  /** What the channel d steps after the cursor receives. */
  function Extra(d: nat, rest: nat, B: nat): nat
    requires B > 0
    decreases rest
  {
    if rest == 0 then 0
    else if rest < 2 * B then (if d == 0 then rest else 0)
    else if d == 0 then B else Extra(d - 1, rest - B, B)
  }

  /** Steps the cursor takes from `cur` to reach channel j. */
  function Distance(j: nat, cur: nat, n: nat): (d: nat)
    requires j < n && cur < n
    ensures d < n
  {
    if j >= cur then j - cur else j + n - cur
  }

  /** A remainder smaller than n blocks is dealt in at most n visits. */
  lemma {:induction false} VisitsBound(rest: nat, B: nat, n: nat)
    requires B > 0 && n > 0 && rest < n * B
    ensures Visits(rest, B) <= n
    decreases n
  {
    if rest >= 2 * B && n > 1 {
      assert (n - 1) * B == n * B - B;
      VisitsBound(rest - B, B, n - 1);
    }
  }

  lemma {:induction false} VisitsClosed(rest: nat, B: nat)
    requires B > 0 && rest > 0
    ensures Visits(rest, B) == if rest < B then 1 else rest / B
  {
    if rest >= 2 * B {
      VisitsClosed(rest - B, B);
      DivStep(rest - B, B);
    } else if rest >= B {
      DivUnique(rest, B, 1);
    }
  }

  lemma {:induction false} ExtraFacts(d: nat, rest: nat, B: nat)
    requires B > 0
    ensures Extra(d, rest, B) < 2 * B
    ensures Extra(d, rest, B) > 0 <==> d < Visits(rest, B)
    ensures d + 1 != Visits(rest, B) ==> Extra(d, rest, B) in {0, B}
    decreases rest
  {
    if rest >= 2 * B && d > 0 { ExtraFacts(d - 1, rest - B, B); }
  }

  /** The loop gives channel j exactly what the description says and makes Visits steps. */
  lemma {:induction false} DealClosed(div: seq<nat>, rest: nat, cur: nat, B: nat, j: nat)
    requires cur < |div| && B > 0 && j < |div| && Visits(rest, B) <= |div|
    ensures Deal(div, rest, cur, B).shares[j] == div[j] + Extra(Distance(j, cur, |div|), rest, B)
    ensures |Deal(div, rest, cur, B).visited| == Visits(rest, B)
    decreases rest
  {
    if rest >= 2 * B {
      DealClosed(div[cur := div[cur] + B], rest - B, Succ(cur, |div|), B, j);
      if j == cur { ExtraFacts(|div| - 1, rest - B, B); }
    }
  }

  lemma {:induction false} DealSum(div: seq<nat>, rest: nat, cur: nat, B: nat)
    requires cur < |div| && B > 0
    ensures Prefix(Deal(div, rest, cur, B).shares, |div|) == Prefix(div, |div|) + rest
    decreases rest
  {
    if rest > 0 {
      var g := Given(rest, B);
      PrefixUpdate(div, |div|, cur, div[cur] + g);
      DealSum(div[cur := div[cur] + g], rest - g, Succ(cur, |div|), B);
    }
  }

  lemma {:induction false} DealNonZeros(div: seq<nat>, rest: nat, cur: nat, B: nat)
    requires cur < |div| && B > 0 && Visits(rest, B) <= |div|
    requires forall j | 0 <= j < |div| :: Distance(j, cur, |div|) < Visits(rest, B) ==> div[j] == 0
    ensures NonZeros(Deal(div, rest, cur, B).shares) == NonZeros(div) + Visits(rest, B)
    decreases rest
  {
    if rest > 0 {
      var n, g := |div|, Given(rest, B);
      assert Distance(cur, cur, n) == 0;
      NonZerosUpdate(div, n, cur, g);
      var div', cur' := div[cur := g], Succ(cur, n);
      forall j | 0 <= j < n && Distance(j, cur', n) < Visits(rest - g, B)
        ensures div'[j] == 0
      {
        assert j != cur;
        assert Distance(j, cur, n) == Distance(j, cur', n) + 1;
      }
      DealNonZeros(div', rest - g, cur', B);
    }
  }

  // ---------- the division of one message ----------

  lemma {:induction false} RepeatSum(x: nat, n: nat, j: nat)
    requires j <= n
    ensures Prefix(Repeat(x, n), j) == j * x
    ensures NonZerosTo(Repeat(x, n), j) == if x > 0 then j else 0
  {
    if j > 0 {
      RepeatSum(x, n, j - 1);
      assert j * x == (j - 1) * x + x;
    }
  }

  lemma BaseAndRemainder(size: nat, n: nat, B: nat)
    requires n > 0 && B > 0
    ensures n * B > 0
    ensures n * Base(size, n, B) + Remainder(size, n, B) == size
    ensures Base(size, n, B) % B == 0 && (Base(size, n, B) + B) % B == 0
    ensures Remainder(size, n, B) < n * B
    ensures Visits(Remainder(size, n, B), B) <= n
    ensures Base(size, n, B) == 0 <==> size < n * B
  {
    MulMonotone(0, n, B);
    var nB := n * B;
    var q := size / nB;
    assert size == q * nB + size % nB;
    assert q * nB == q * (n * B) == n * (q * B);
    MultipleMod(q, B);
    DivStep(q * B, B);
    VisitsBound(size % nB, B, n);
    MulMonotone(0, q, B);
    MulMonotone(0, q, nB);
  }

  /** The shares sum to the size of the message. */
  lemma SharesSum(size: nat, n: nat, B: nat, cur: nat)
    requires cur < n && B > 0
    ensures Prefix(Shares(size, n, B, cur), n) == size
  {
    var base, rest := Base(size, n, B), Remainder(size, n, B);
    DealSum(Repeat(base, n), rest, cur, B);
    RepeatSum(base, n, n);
    BaseAndRemainder(size, n, B);
  }

  lemma MultipleOrNext(base: nat, e: nat, B: nat)
    requires B > 0 && base % B == 0 && (base + B) % B == 0 && e in {0, B}
    ensures (base + e) % B == 0
  {
  }

  /** All shares but at most one are whole blocks, and no two differ by two blocks or more. */
  lemma SharesBalanced(size: nat, n: nat, B: nat, cur: nat) returns (odd: int)
    requires cur < n && B > 0
    ensures forall j :: 0 <= j < n && j != odd ==> Shares(size, n, B, cur)[j] % B == 0
    ensures forall i, j :: 0 <= i < n && 0 <= j < n ==>
              Shares(size, n, B, cur)[i] < Shares(size, n, B, cur)[j] + 2 * B
  {
    var base, rest, s := Base(size, n, B), Remainder(size, n, B), Shares(size, n, B, cur);
    BaseAndRemainder(size, n, B);
    var v := Visits(rest, B);
    odd := if v > 0 && cur + v - 1 >= n then cur + v - 1 - n else cur + v - 1;
    forall j | 0 <= j < n
      ensures base <= s[j] < base + 2 * B
      ensures j != odd ==> s[j] % B == 0
    {
      DealClosed(Repeat(base, n), rest, cur, B, j);
      ExtraFacts(Distance(j, cur, n), rest, B);
      if j != odd { MultipleOrNext(base, s[j] - base, B); }
    }
  }

  /** A message that is not empty is cut into exactly max(1, min(n, size / B)) pieces. */
  lemma PieceCount(size: nat, n: nat, B: nat, cur: nat)
    requires cur < n && B > 0 && size > 0
    ensures var whole := size / B;
            NonZeros(Shares(size, n, B, cur)) == if whole >= n then n else if whole == 0 then 1 else whole
  {
    var base, rest := Base(size, n, B), Remainder(size, n, B);
    BaseAndRemainder(size, n, B);
    WholeBlocks(size, n, B);
    RepeatSum(base, n, n);
    if base == 0 {
      DealNonZeros(Repeat(base, n), rest, cur, B);
      VisitsClosed(rest, B);
    } else {
      var s := Shares(size, n, B, cur);
      forall j | 0 <= j < n ensures s[j] > 0 { DealClosed(Repeat(base, n), rest, cur, B, j); }
      AllNonZero(s, n);
    }
  }

  /** It stays in one piece exactly when the class has one channel or it is shorter than two
      blocks. */
  lemma SinglePiece(size: nat, n: nat, B: nat, cur: nat)
    requires cur < n && B > 0 && size > 0
    ensures NonZeros(Shares(size, n, B, cur)) == 1 <==> n == 1 || size < 2 * B
  {
    PieceCount(size, n, B, cur);
    WholeBlocks(size, 2, B);
  }

  /** The remainder loop stops within n visits. */
  lemma DealingEnds(size: nat, n: nat, B: nat, cur: nat)
    requires cur < n && B > 0
    ensures |Divided(size, n, B, cur).visited| == Visits(Remainder(size, n, B), B) <= n
  {
    BaseAndRemainder(size, n, B);
    DealClosed(Repeat(Base(size, n, B), n), Remainder(size, n, B), cur, B, 0);
  }

  lemma WholeBlocks(size: nat, n: nat, B: nat)
    requires B > 0
    ensures size / B >= n <==> size >= n * B
    ensures size / B == 0 <==> size < B
  {
    var q := size / B;
    assert size == q * B + size % B;
    MulMonotone(q, n, B);
    MulMonotone(n, q, B);
    MulMonotone(1, q, B);
    MulMonotone(q, 0, B);
  }

  lemma {:induction false} AllNonZero(s: seq<nat>, j: nat)
    requires j <= |s| && forall i | 0 <= i < j :: s[i] > 0
    ensures NonZerosTo(s, j) == j
  {
    if j > 0 { AllNonZero(s, j - 1); }
  }

  // ---------- the cursor over a whole batch ----------

  /** The channel k steps after `cur` on the cycle. */
  function Advance(cur: nat, k: nat, n: nat): (c: nat)
    requires cur < n
    ensures c < n
    decreases k
  {
    if k == 0 then cur else Advance(Succ(cur, n), k - 1, n)
  }

  /** The log visits the channels in cyclic order, starting with `cur`. */
  ghost predicate Walk(log: seq<nat>, cur: nat, n: nat)
    requires cur < n
    decreases |log|
  {
    log == [] || (log[0] == cur && Walk(log[1..], Succ(cur, n), n))
  }

  lemma {:induction false} DealWalks(div: seq<nat>, rest: nat, cur: nat, B: nat)
    requires cur < |div| && B > 0
    ensures var r := Deal(div, rest, cur, B);
            r.cursor == Advance(cur, |r.visited|, |div|) && Walk(r.visited, cur, |div|)
    decreases rest
  {
    if rest > 0 {
      var g := Given(rest, B);
      DealWalks(div[cur := div[cur] + g], rest - g, Succ(cur, |div|), B);
      var tail := Deal(div[cur := div[cur] + g], rest - g, Succ(cur, |div|), B).visited;
      assert ([cur] + tail)[1..] == tail;
    }
  }

  lemma {:induction false} WalkJoin(first: seq<nat>, tail: seq<nat>, cur: nat, n: nat)
    requires cur < n && Walk(first, cur, n) && Walk(tail, Advance(cur, |first|, n), n)
    ensures Walk(first + tail, cur, n)
    decreases |first|
  {
    if first == [] {
      assert first + tail == tail;
    } else {
      assert (first + tail)[1..] == first[1..] + tail;
      WalkJoin(first[1..], tail, Succ(cur, n), n);
    }
  }

  /** The visits for one message continue the walk from where the cursor stands. */
  lemma DividedWalks(size: nat, n: nat, B: nat, cur: nat)
    requires cur < n && B > 0
    ensures var d := Divided(size, n, B, cur);
            d.cursor == Advance(cur, |d.visited|, n) && Walk(d.visited, cur, n)
  {
    DealWalks(Repeat(Base(size, n, B), n), Remainder(size, n, B), cur, B);
  }

  lemma {:induction false} AdvanceTwice(cur: nat, x: nat, y: nat, n: nat)
    requires cur < n
    ensures Advance(Advance(cur, x, n), y, n) == Advance(cur, x + y, n)
    decreases x
  {
    if x > 0 { AdvanceTwice(Succ(cur, n), x - 1, y, n); }
  }

  lemma {:induction false} WalkEntry(log: seq<nat>, cur: nat, n: nat, m: nat, k: nat)
    requires cur < n && Walk(log, cur, n) && cur == m % n && k < |log|
    ensures log[k] == (m + k) % n
    decreases |log|
  {
    if k > 0 {
      CycleStep(m, n);
      WalkEntry(log[1..], Succ(cur, n), n, m + 1, k - 1);
    }
  }

  /** A cyclic walk that starts at channel 0 visits no channel two times more often than
      another. */
  lemma WalkFair(log: seq<nat>, n: nat, c: nat, d: nat)
    requires c < n && d < n && Walk(log, 0, n)
    ensures multiset(log)[c] <= multiset(log)[d] + 1
  {
    WalkFromZero(log, n);
    CyclicCount(log, n, c);
    CyclicCount(log, n, d);
  }

  lemma WalkFromZero(log: seq<nat>, n: nat)
    requires n > 0 && Walk(log, 0, n)
    ensures forall k | 0 <= k < |log| :: log[k] == k % n
  {
    DivUnique(0, n, 0);
    forall k | 0 <= k < |log| ensures log[k] == k % n { WalkEntry(log, 0, n, 0, k); }
  }

  lemma {:induction false} CyclicCount(log: seq<nat>, n: nat, c: nat)
    requires c < n && forall k | 0 <= k < |log| :: log[k] == k % n
    ensures multiset(log)[c] == |log| / n + if c < |log| % n then 1 else 0
    decreases |log|
  {
    if |log| == 0 {
      DivUnique(0, n, 0);
    } else {
      var m := |log| - 1;
      var init := log[..m];
      assert log == init + [log[m]];
      CyclicCount(init, n, c);
      CycleStep(m, n);
    }
  }

  // ---------- the loops themselves ----------

  /** Fills `div` and `offset` for one message and moves the cursor
      (src/unr/base/unr_blk.c:325-358). */
  method Divide(size: nat, n: nat, blk: array<nat>, blkSum: nat, ghost B: nat,
                div: array<nat>, offset: array<nat>, cur: nat) returns (next: nat)
    requires 0 < n <= blk.Length && n <= div.Length && n <= offset.Length && cur < n && B > 0
    requires blk != div && blk != offset && div != offset
    requires blkSum == n * B && forall j | 0 <= j < n :: blk[j] == B
    requires offset[0] == 0
    modifies div, offset
    ensures div[..n] == Shares(size, n, B, cur)
    ensures next == Divided(size, n, B, cur).cursor
    ensures offset[0] == 0
    ensures forall j | 0 <= j < n :: offset[j] == Prefix(div[..n], j)
  {
    var rest := EvenShares(size, n, blk, blkSum, B, div);
    next := DealRest(rest, n, blk, B, div, cur);
    Offsets(n, div, offset);
  }

  method EvenShares(size: nat, n: nat, blk: array<nat>, blkSum: nat, ghost B: nat, div: array<nat>)
    returns (rest: nat)
    requires 0 < n <= blk.Length && n <= div.Length && B > 0 && blk != div
    requires blkSum == n * B && forall j | 0 <= j < n :: blk[j] == B
    modifies div
    ensures div[..n] == Repeat(Base(size, n, B), n)
    ensures rest == Remainder(size, n, B)
  {
    BaseAndRemainder(size, n, B);
    for j := 0 to n
      invariant forall i | 0 <= i < j :: div[i] == Base(size, n, B)
    {
      div[j] := size / blkSum * blk[j];
    }
    rest := size % blkSum;
  }

  method DealRest(remainder: nat, n: nat, blk: array<nat>, ghost B: nat, div: array<nat>, cur: nat)
    returns (next: nat)
    requires 0 < n <= blk.Length && n <= div.Length && B > 0 && blk != div && cur < n
    requires forall j | 0 <= j < n :: blk[j] == B
    modifies div
    ensures div[..n] == old(Deal(div[..n], remainder, cur, B).shares)
    ensures next == old(Deal(div[..n], remainder, cur, B).cursor)
  {
    var rest := remainder;
    next := cur;
    ghost var all := Deal(div[..n], remainder, cur, B);
    while rest != 0
      invariant next < n
      invariant all.shares == Deal(div[..n], rest, next, B).shares
      invariant all.cursor == Deal(div[..n], rest, next, B).cursor
      decreases rest
    {
      SuccIsMod(next, n);
      ghost var before, left := div[..n], rest;
      if rest > blk[next] {
        div[next] := div[next] + blk[next];
        rest := rest - blk[next];
      } else {
        div[next] := div[next] + rest;
        rest := 0;
      }
      if rest < blk[(next + 1) % n] {
        div[next] := div[next] + rest;
        rest := 0;
      }
      assert div[..n] == before[next := before[next] + Given(left, B)];
      next := (next + 1) % n;
    }
  }

  method Offsets(n: nat, div: array<nat>, offset: array<nat>)
    requires 0 < n <= div.Length && n <= offset.Length && div != offset && offset[0] == 0
    modifies offset
    ensures offset[0] == 0
    ensures forall j | 0 <= j < n :: offset[j] == Prefix(div[..n], j)
  {
    for j := 1 to n
      invariant offset[0] == 0
      invariant forall i | 0 <= i < j :: offset[i] == Prefix(div[..n], i)
    {
      offset[j] := offset[j - 1] + div[j - 1];
    }
  }
}
