/** Grouping the remote operations of a plan into one batch per receiver
    (src/uri/mpi/uri_mpi_rdma.c:90-113, src/uri/mpi/uri_mpi_utils.c:34-38). */
module Grouping {

  datatype RankedOp = RankedOp(rank: nat, uid: nat)

  /** uri_mpi_op_cmp. */
  function Compare(a: RankedOp, b: RankedOp): int { a.rank as int - b.rank as int }

  ghost predicate Sorted(s: seq<RankedOp>) { forall i, j :: 0 <= i < j < |s| ==> Compare(s[i], s[j]) <= 0 }

  /** The operations for one receiver, in order. */
  function OfRank(s: seq<RankedOp>, r: nat): seq<RankedOp> {
    if s == [] then []
    else OfRank(s[..|s| - 1], r) + if s[|s| - 1].rank == r then [s[|s| - 1]] else []
  }

  // ---------- runs of equal rank ----------

  function RunEnd(s: seq<RankedOp>, st: nat, en: nat): (e: nat)
    requires st < en <= |s|
    ensures en <= e <= |s|
    ensures e < |s| ==> s[e].rank != s[st].rank
    decreases |s| - en
  {
    if en < |s| && s[en].rank == s[st].rank then RunEnd(s, st, en + 1) else en
  }

  lemma {:induction false} RunExtends(s: seq<RankedOp>, st: nat, en: nat)
    requires st < en <= |s| && forall k :: st <= k < en ==> s[k].rank == s[st].rank
    ensures forall k :: st <= k < RunEnd(s, st, en) ==> s[k].rank == s[st].rank
    decreases |s| - en
  {
    if en < |s| && s[en].rank == s[st].rank { RunExtends(s, st, en + 1); }
  }

  /** A run is of one rank. */
  lemma RunRank(s: seq<RankedOp>, st: nat)
    requires st < |s|
    ensures forall k :: st <= k < RunEnd(s, st, st + 1) ==> s[k].rank == s[st].rank
  {
    RunExtends(s, st, st + 1);
  }

  /** The batches formed from position st on. */
  function BatchesFrom(s: seq<RankedOp>, st: nat): seq<seq<RankedOp>>
    requires st <= |s|
    decreases |s| - st
  {
    if st == |s| then [] else [s[st..RunEnd(s, st, st + 1)]] + BatchesFrom(s, RunEnd(s, st, st + 1))
  }

  /** Places from `from` on where the rank changes. */
  function Changes(s: seq<RankedOp>, from: nat): nat
    requires 1 <= from <= |s|
    decreases |s| - from
  {
    if from == |s| then 0 else (if s[from].rank != s[from - 1].rank then 1 else 0) + Changes(s, from + 1)
  }

  lemma {:induction false} ChangesInRun(s: seq<RankedOp>, st: nat, en: nat)
    requires st < |s| && st < en <= RunEnd(s, st, st + 1)
    ensures Changes(s, st + 1) == Changes(s, en)
    decreases en
  {
    RunRank(s, st);
    if en > st + 1 { ChangesInRun(s, st, en - 1); }
  }

  /** The counting loop and the batch-forming loop agree. */
  lemma {:induction false} CountAgrees(s: seq<RankedOp>, st: nat)
    requires st < |s|
    ensures |BatchesFrom(s, st)| == 1 + Changes(s, st + 1)
    decreases |s| - st
  {
    var en := RunEnd(s, st, st + 1);
    ChangesInRun(s, st, en);
    RunRank(s, st);
    if en < |s| { CountAgrees(s, en); }
  }

  // ---------- what the batches are ----------

  function Concat(bs: seq<seq<RankedOp>>): seq<RankedOp> {
    if bs == [] then [] else bs[0] + Concat(bs[1..])
  }

  lemma CutAt(s: seq<RankedOp>, st: nat, en: nat)
    requires st <= en <= |s|
    ensures s[st..] == s[st..en] + s[en..]
  {
  }

  lemma {:induction false} BatchesTile(s: seq<RankedOp>, st: nat)
    requires st <= |s|
    ensures Concat(BatchesFrom(s, st)) == s[st..]
    decreases |s| - st
  {
    if st < |s| {
      var en := RunEnd(s, st, st + 1);
      BatchesTile(s, en);
      assert BatchesFrom(s, st)[1..] == BatchesFrom(s, en);
      CutAt(s, st, en);
    }
  }

  lemma OfRankSnoc(s: seq<RankedOp>, x: RankedOp, r: nat)
    ensures OfRank(s + [x], r) == OfRank(s, r) + if x.rank == r then [x] else []
  {
    assert (s + [x])[..|s|] == s;
  }

  lemma {:induction false} OfRankAppend(a: seq<RankedOp>, b: seq<RankedOp>, r: nat)
    ensures OfRank(a + b, r) == OfRank(a, r) + OfRank(b, r)
    decreases |b|
  {
    if b == [] {
      assert a + b == a;
    } else {
      var init := b[..|b| - 1];
      assert a + b == (a + init) + [b[|b| - 1]];
      OfRankAppend(a, init, r);
      OfRankSnoc(a + init, b[|b| - 1], r);
    }
  }

  lemma {:induction false} OfRankAll(s: seq<RankedOp>, r: nat)
    requires forall k :: 0 <= k < |s| ==> s[k].rank == r
    ensures OfRank(s, r) == s
    decreases |s|
  {
    if s != [] { OfRankAll(s[..|s| - 1], r); }
  }

  lemma {:induction false} OfRankNone(s: seq<RankedOp>, r: nat)
    requires forall k :: 0 <= k < |s| ==> s[k].rank != r
    ensures OfRank(s, r) == []
    decreases |s|
  {
    if s != [] { OfRankNone(s[..|s| - 1], r); }
  }

  /** In a sorted array everything after a run has a greater rank. */
  lemma RankAfterRun(s: seq<RankedOp>, st: nat, k: nat)
    requires Sorted(s) && st < |s| && RunEnd(s, st, st + 1) <= k < |s|
    ensures s[st].rank < s[k].rank
  {
    var en := RunEnd(s, st, st + 1);
    assert Compare(s[st], s[en]) <= 0;
    assert en == k || Compare(s[en], s[k]) <= 0;
  }

  lemma RunIsOfRank(s: seq<RankedOp>, st: nat, en: nat)
    requires st < |s| && en == RunEnd(s, st, st + 1)
    ensures OfRank(s[st..en], s[st].rank) == s[st..en]
  {
    RunRank(s, st);
    OfRankAll(s[st..en], s[st].rank);
  }

  lemma NoneAfterRun(s: seq<RankedOp>, st: nat, en: nat)
    requires Sorted(s) && st < |s| && en == RunEnd(s, st, st + 1)
    ensures OfRank(s[en..], s[st].rank) == []
  {
    forall k | 0 <= k < |s[en..]| ensures s[en..][k].rank != s[st].rank { RankAfterRun(s, st, en + k); }
    OfRankNone(s[en..], s[st].rank);
  }

  lemma OfRankSplit(s: seq<RankedOp>, st: nat, en: nat, r: nat)
    requires st <= en <= |s|
    ensures OfRank(s[st..], r) == OfRank(s[st..en], r) + OfRank(s[en..], r)
  {
    CutAt(s, st, en);
    OfRankAppend(s[st..en], s[en..], r);
  }

  lemma OfRankFront(a: seq<RankedOp>, b: seq<RankedOp>, r: nat)
    requires OfRank(a, r) == a && OfRank(b, r) == []
    ensures OfRank(a + b, r) == a
  {
    OfRankAppend(a, b, r);
    assert a + [] == a;
  }

  /** The first batch holds all the operations of its rank. */
  lemma FirstBatch(s: seq<RankedOp>, st: nat, en: nat)
    requires Sorted(s) && st < |s| && en == RunEnd(s, st, st + 1)
    ensures s[st..en] == OfRank(s[st..], s[st].rank)
  {
    RunIsOfRank(s, st, en);
    NoneAfterRun(s, st, en);
    CutAt(s, st, en);
    OfRankFront(s[st..en], s[en..], s[st].rank);
  }

  /** A later rank does not occur in the first batch. */
  lemma NotInFirstBatch(s: seq<RankedOp>, st: nat, k: nat)
    requires Sorted(s) && st < |s| && RunEnd(s, st, st + 1) <= k < |s|
    ensures OfRank(s[st..], s[k].rank) == OfRank(s[RunEnd(s, st, st + 1)..], s[k].rank)
  {
    var en, r := RunEnd(s, st, st + 1), s[k].rank;
    RankAfterRun(s, st, k);
    RunRank(s, st);
    OfRankNone(s[st..en], r);
    OfRankSplit(s, st, en, r);
  }

  /** In a sorted array every batch holds all the operations of its rank; `at` is where it
      starts. */
  lemma {:induction false} BatchIsRank(s: seq<RankedOp>, st: nat, i: nat) returns (at: nat)
    requires Sorted(s) && st <= |s| && i < |BatchesFrom(s, st)|
    ensures st <= at < |s|
    ensures var b := BatchesFrom(s, st)[i];
            b != [] && b[0] == s[at] && b == OfRank(s[st..], s[at].rank)
    decreases i
  {
    if i == 0 {
      at := st;
      FirstBatch(s, st, RunEnd(s, st, st + 1));
    } else {
      var en := RunEnd(s, st, st + 1);
      at := BatchIsRank(s, en, i - 1);
      NotInFirstBatch(s, st, at);
    }
  }

  lemma TailBatch(s: seq<RankedOp>, st: nat, j: nat)
    requires st < |s| && 0 < j < |BatchesFrom(s, st)|
    ensures j - 1 < |BatchesFrom(s, RunEnd(s, st, st + 1))|
    ensures BatchesFrom(s, st)[j] == BatchesFrom(s, RunEnd(s, st, st + 1))[j - 1]
  {
  }

  /** Batches come in strictly increasing order of rank, so no two share a receiver. */
  lemma {:induction false} RanksIncrease(s: seq<RankedOp>, st: nat, i: nat, j: nat)
    requires Sorted(s) && st < |s| && i < j < |BatchesFrom(s, st)|
    requires BatchesFrom(s, st)[i] != [] && BatchesFrom(s, st)[j] != []
    ensures BatchesFrom(s, st)[i][0].rank < BatchesFrom(s, st)[j][0].rank
    decreases i
  {
    var en := RunEnd(s, st, st + 1);
    TailBatch(s, st, j);
    if i == 0 {
      assert BatchesFrom(s, st)[0][0] == s[st];
      var at := BatchIsRank(s, en, j - 1);
      RankAfterRun(s, st, at);
    } else {
      TailBatch(s, st, i);
      RanksIncrease(s, en, i - 1, j - 1);
    }
  }

  lemma {:induction false} OfRankCount(s: seq<RankedOp>, r: nat, x: RankedOp)
    ensures multiset(OfRank(s, r))[x] == if x.rank == r then multiset(s)[x] else 0
    decreases |s|
  {
    if s != [] {
      OfRankCount(s[..|s| - 1], r, x);
      assert s == s[..|s| - 1] + [s[|s| - 1]];
    }
  }

  /** Every rank that occurs has a batch. */
  lemma {:induction false} BatchOfOp(s: seq<RankedOp>, st: nat, k: nat) returns (i: nat)
    requires st <= k < |s| && Sorted(s)
    ensures i < |BatchesFrom(s, st)| && BatchesFrom(s, st)[i] != [] && BatchesFrom(s, st)[i][0].rank == s[k].rank
    decreases |s| - st
  {
    var en := RunEnd(s, st, st + 1);
    if k < en {
      i := 0;
      RunRank(s, st);
      assert BatchesFrom(s, st)[0] == s[st..en];
    } else {
      var i' := BatchOfOp(s, en, k);
      i := i' + 1;
    }
  }

  /** Whatever order qsort leaves equal ranks in, every batch holds exactly the operations of the
      plan that are for its receiver. */
  lemma BatchHoldsReceiver(orig: seq<RankedOp>, sorted: seq<RankedOp>, i: nat)
    requires multiset(sorted) == multiset(orig) && Sorted(sorted) && i < |BatchesFrom(sorted, 0)|
    ensures var b := BatchesFrom(sorted, 0)[i];
            b != [] && multiset(b) == multiset(OfRank(orig, b[0].rank))
  {
    var at := BatchIsRank(sorted, 0, i);
    var b := BatchesFrom(sorted, 0)[i];
    assert sorted[0..] == sorted;
    forall x ensures multiset(b)[x] == multiset(OfRank(orig, b[0].rank))[x] {
      OfRankCount(sorted, b[0].rank, x);
      OfRankCount(orig, b[0].rank, x);
    }
  }

  /** Each receiver of a plan gets one batch and no second one, with exactly its operations. */
  lemma OneBatchPerReceiver(orig: seq<RankedOp>, sorted: seq<RankedOp>, op: RankedOp) returns (i: nat)
    requires multiset(sorted) == multiset(orig) && Sorted(sorted) && op in orig
    ensures var bs := BatchesFrom(sorted, 0);
            && i < |bs| && multiset(bs[i]) == multiset(OfRank(orig, op.rank))
            && forall j :: 0 <= j < |bs| ==> bs[j] != [] && (bs[j][0].rank == op.rank <==> j == i)
  {
    assert op in multiset(sorted);
    var k :| 0 <= k < |sorted| && sorted[k] == op;
    i := BatchOfOp(sorted, 0, k);
    var bs: seq<seq<RankedOp>> := BatchesFrom(sorted, 0);
    forall j: nat | j < |bs| ensures bs[j] != [] && (bs[j][0].rank == op.rank <==> j == i) {
      OnlyBatch(orig, sorted, i, j);
    }
    BatchHoldsReceiver(orig, sorted, i);
  }

  lemma OnlyBatch(orig: seq<RankedOp>, sorted: seq<RankedOp>, i: nat, j: nat)
    requires multiset(sorted) == multiset(orig) && Sorted(sorted)
    requires i < |BatchesFrom(sorted, 0)| && j < |BatchesFrom(sorted, 0)|
    ensures var bs := BatchesFrom(sorted, 0);
            bs[i] != [] && bs[j] != [] && (bs[i][0].rank == bs[j][0].rank <==> i == j)
  {
    BatchHoldsReceiver(orig, sorted, i);
    BatchHoldsReceiver(orig, sorted, j);
    if j < i { RanksIncrease(sorted, 0, j, i); }
    if i < j { RanksIncrease(sorted, 0, i, j); }
  }

  // ---------- the loops themselves ----------

  /** Counts the receivers and forms the batches of a sorted, non-empty array. */
  method FormBatches(ops: array<RankedOp>) returns (numReceiver: nat, batches: seq<seq<RankedOp>>)
    requires ops.Length > 0
    ensures numReceiver == |batches|
    ensures batches == BatchesFrom(ops[..], 0)
    ensures Concat(batches) == ops[..]
  {
    numReceiver := CountReceivers(ops);
    CountAgrees(ops[..], 0);
    batches := CutBatches(ops, numReceiver);
    BatchesTile(ops[..], 0);
  }

  method CountReceivers(ops: array<RankedOp>) returns (n: nat)
    requires ops.Length > 0
    ensures n == 1 + Changes(ops[..], 1)
  {
    n := 1;
    for i := 1 to ops.Length
      invariant n + Changes(ops[..], i) == 1 + Changes(ops[..], 1)
    {
      if ops[i].rank != ops[i - 1].rank { n := n + 1; }
    }
  }

  method CutBatches(ops: array<RankedOp>, n: nat) returns (batches: seq<seq<RankedOp>>)
    requires n == |BatchesFrom(ops[..], 0)|
    ensures batches == BatchesFrom(ops[..], 0)
  {
    batches := [];
    var st := 0;
    for i := 0 to n
      invariant st <= ops.Length && |BatchesFrom(ops[..], st)| == n - i
      invariant batches + BatchesFrom(ops[..], st) == BatchesFrom(ops[..], 0)
    {
      var en := EndOfRun(ops, st);
      batches := batches + [ops[st..en]];
      st := en;
    }
  }

  method EndOfRun(ops: array<RankedOp>, st: nat) returns (en: nat)
    requires st < ops.Length
    ensures en == RunEnd(ops[..], st, st + 1)
  {
    en := st + 1;
    while en < ops.Length && ops[en].rank == ops[st].rank
      invariant st < en <= ops.Length && RunEnd(ops[..], st, st + 1) == RunEnd(ops[..], st, en)
    {
      en := en + 1;
    }
  }
}
