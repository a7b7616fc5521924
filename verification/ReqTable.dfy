/** The table of outstanding MPI requests of a channel: any thread appends, the daemon takes a
    snapshot, tests it, processes what completed and removes it by swapping in entries from the
    end (src/uri/mpi/uri_mpi_utils.c:40-56, src/uri/mpi/uri_mpi_channel.c:193-298). */
module ReqTable {

  /** An operation with its request handle and the increment it applies when it completes. */
  datatype Op = Op(handle: nat, flag: nat, add: int)

  ghost predicate Increasing(idx: seq<nat>) { forall i, j :: 0 <= i < j < |idx| ==> idx[i] < idx[j] }

  ghost predicate Within(idx: seq<nat>, n: nat) { forall i :: 0 <= i < |idx| ==> idx[i] < n }

  /** The entries of s at the positions idx[lo..hi], as a multiset. */
  ghost function Bag(s: seq<Op>, idx: seq<nat>, lo: nat, hi: nat): multiset<Op>
    requires lo <= hi <= |idx| && Within(idx, |s|)
    decreases hi
  {
    if lo == hi then multiset{} else Bag(s, idx, lo, hi - 1) + multiset{s[idx[hi - 1]]}
  }

  lemma {:induction false} BagCons(s: seq<Op>, idx: seq<nat>, lo: nat, hi: nat)
    requires lo < hi <= |idx| && Within(idx, |s|)
    ensures Bag(s, idx, lo, hi) == multiset{s[idx[lo]]} + Bag(s, idx, lo + 1, hi)
    decreases hi
  {
    if lo + 1 < hi { BagCons(s, idx, lo, hi - 1); }
  }

  lemma {:induction false} BagJoin(s: seq<Op>, idx: seq<nat>, lo: nat, mid: nat, hi: nat)
    requires lo <= mid <= hi <= |idx| && Within(idx, |s|)
    ensures Bag(s, idx, lo, hi) == Bag(s, idx, lo, mid) + Bag(s, idx, mid, hi)
    decreases hi
  {
    if mid < hi { BagJoin(s, idx, lo, mid, hi - 1); }
  }

  /** Appends do not change what is at the given positions. */
  lemma {:induction false} BagPrefix(s: seq<Op>, t: seq<Op>, idx: seq<nat>, hi: nat)
    requires s <= t && hi <= |idx| && Within(idx, |s|)
    ensures Bag(s, idx, 0, hi) == Bag(t, idx, 0, hi)
  {
    if hi > 0 { BagPrefix(s, t, idx, hi - 1); }
  }

  // ---------- removing one entry ----------

  lemma PopLast(s: seq<Op>)
    requires s != []
    ensures multiset(s) == multiset(s[..|s| - 1]) + multiset{s[|s| - 1]}
  {
    assert s == s[..|s| - 1] + [s[|s| - 1]];
  }

  /** Moving the last entry into position p removes what was at p. */
  lemma SwapRemove(s: seq<Op>, p: nat)
    requires p + 1 < |s|
    ensures multiset(s) == multiset(s[..|s| - 1][p := s[|s| - 1]]) + multiset{s[p]}
  {
    PopLast(s);
    var init := s[..|s| - 1];
    assert init == init[..p] + [s[p]] + init[p + 1..];
    assert init[p := s[|s| - 1]] == init[..p] + [s[|s| - 1]] + init[p + 1..];
  }

  /** Half way through: the holes of the first i positions are filled and the entries from `count`
      on were cut off; the positions in between are as they were. */
  ghost predicate Waiting(orig: seq<Op>, cur: seq<Op>, idx: seq<nat>, i: nat, count: nat)
    requires i <= count <= |idx| && Within(idx, |orig|)
  {
    && |cur| + i + (|idx| - count) == |orig|
    && forall k :: i <= k < count ==> idx[k] < |cur| && cur[idx[k]] == orig[idx[k]]
  }

  ghost predicate Balanced(orig: seq<Op>, cur: seq<Op>, idx: seq<nat>, i: nat, count: nat)
    requires i <= count <= |idx| && Within(idx, |orig|)
  {
    multiset(orig) == multiset(cur) + Bag(orig, idx, 0, i) + Bag(orig, idx, count, |idx|)
  }

  ghost predicate Removed(orig: seq<Op>, cur: seq<Op>, idx: seq<nat>, i: nat, count: nat) {
    && i <= count <= |idx| && Increasing(idx) && Within(idx, |orig|)
    && Waiting(orig, cur, idx, i, count) && Balanced(orig, cur, idx, i, count)
  }

  lemma MoveOut<T>(all: multiset<T>, cur: multiset<T>, rest: multiset<T>, x: T, out: multiset<T>, other: multiset<T>)
    requires all == cur + out + other && cur == rest + multiset{x}
    ensures all == rest + (out + multiset{x}) + other == rest + out + (multiset{x} + other)
  {
  }

  /** A completed entry at the very end is cut off. */
  lemma CutStep(orig: seq<Op>, cur: seq<Op>, idx: seq<nat>, i: nat, count: nat)
    requires Removed(orig, cur, idx, i, count) && i < count && idx[count - 1] == |cur| - 1
    ensures Removed(orig, cur[..|cur| - 1], idx, i, count - 1)
  {
    CutWaiting(orig, cur, idx, i, count);
    CutBalanced(orig, cur, idx, i, count - 1);
  }

  lemma CutBalanced(orig: seq<Op>, cur: seq<Op>, idx: seq<nat>, i: nat, c: nat)
    requires i <= c < |idx| && Within(idx, |orig|) && Balanced(orig, cur, idx, i, c + 1)
    requires cur != [] && cur[|cur| - 1] == orig[idx[c]]
    ensures Balanced(orig, cur[..|cur| - 1], idx, i, c)
  {
    PopLast(cur);
    BagCons(orig, idx, c, |idx|);
    MoveOut(multiset(orig), multiset(cur), multiset(cur[..|cur| - 1]), orig[idx[c]],
            Bag(orig, idx, 0, i), Bag(orig, idx, c + 1, |idx|));
  }

  lemma CutWaiting(orig: seq<Op>, cur: seq<Op>, idx: seq<nat>, i: nat, count: nat)
    requires i < count <= |idx| && Increasing(idx) && Within(idx, |orig|)
    requires Waiting(orig, cur, idx, i, count) && idx[count - 1] == |cur| - 1
    ensures Waiting(orig, cur[..|cur| - 1], idx, i, count - 1)
  {
    forall k | i <= k < count - 1
      ensures idx[k] < |cur| - 1 && cur[..|cur| - 1][idx[k]] == orig[idx[k]]
    {
      assert idx[k] < idx[count - 1];
    }
  }

  /** Otherwise the last entry is alive and fills the hole. */
  lemma FillStep(orig: seq<Op>, cur: seq<Op>, idx: seq<nat>, i: nat, count: nat)
    requires Removed(orig, cur, idx, i, count) && i < count && idx[count - 1] != |cur| - 1
    ensures idx[i] + 1 < |cur|
    ensures Removed(orig, cur[..|cur| - 1][idx[i] := cur[|cur| - 1]], idx, i + 1, count)
  {
    assert idx[i] <= idx[count - 1] < |cur| - 1;
    var cur' := cur[..|cur| - 1][idx[i] := cur[|cur| - 1]];
    SwapRemove(cur, idx[i]);
    MoveOut(multiset(orig), multiset(cur), multiset(cur'), orig[idx[i]],
            Bag(orig, idx, 0, i), Bag(orig, idx, count, |idx|));
    assert Balanced(orig, cur', idx, i + 1, count);
    assert Waiting(orig, cur', idx, i + 1, count);
  }

  lemma RemovedNone(orig: seq<Op>, idx: seq<nat>)
    requires Increasing(idx) && Within(idx, |orig|)
    ensures Removed(orig, orig, idx, 0, |idx|)
  {
  }

  lemma RemovedAll(orig: seq<Op>, cur: seq<Op>, idx: seq<nat>, i: nat)
    requires Removed(orig, cur, idx, i, i)
    ensures multiset(orig) == multiset(cur) + Bag(orig, idx, 0, |idx|) && |cur| == |orig| - |idx|
  {
    BagJoin(orig, idx, 0, i, |idx|);
  }

  // ---------- the table as the program keeps it ----------

  class Requests {
    var reqArr: array<nat>
    var opArr: array<Op>
    var tail: nat

    /** The two arrays are of one length and paired entry by entry. */
    ghost predicate Valid()
      reads this, reqArr, opArr
    {
      && reqArr.Length == opArr.Length && tail <= opArr.Length
      && forall k :: 0 <= k < tail ==> reqArr[k] == opArr[k].handle
    }

    ghost function View(): seq<Op>
      reads this, opArr
      requires tail <= opArr.Length
    {
      opArr[..tail]
    }

    constructor (len: nat)
      ensures Valid() && View() == [] && fresh(reqArr) && fresh(opArr)
    {
      reqArr := new nat[len];
      opArr := new Op[len](_ => Op(0, 0, 0));
      tail := 0;
    }

    /** Appends the operations, doubling the arrays when they do not fit. */
    method Append(ops: seq<Op>)
      requires Valid()
      modifies this, reqArr, opArr
      ensures Valid() && View() == old(View()) + ops
      ensures (reqArr == old(reqArr) && opArr == old(opArr)) || (fresh(reqArr) && fresh(opArr))
    {
      if tail + |ops| > opArr.Length {
        Enlarge((tail + |ops|) * 2);
      }
      ghost var start := View();
      for i := 0 to |ops|
        invariant Valid() && tail == |start| + i && tail + (|ops| - i) <= opArr.Length
        invariant reqArr != old(reqArr) ==> fresh(reqArr)
        invariant opArr != old(opArr) ==> fresh(opArr)
        invariant (reqArr == old(reqArr)) == (opArr == old(opArr))
        invariant View() == start + ops[..i]
      {
        Put(ops[i]);
      }
    }

    method Put(op: Op)
      requires Valid() && tail < opArr.Length
      modifies `tail, reqArr, opArr
      ensures Valid() && View() == old(View()) + [op] && tail == old(tail) + 1
    {
      opArr[tail] := op;
      reqArr[tail] := op.handle;
      tail := tail + 1;
    }

    method Enlarge(len: nat)
      requires Valid() && len >= tail
      modifies this
      ensures Valid() && View() == old(View()) && tail == old(tail)
      ensures opArr.Length == len && fresh(reqArr) && fresh(opArr)
    {
      var r := new nat[len];
      var o := new Op[len](_ => Op(0, 0, 0));
      for k := 0 to tail
        invariant Valid() && tail == old(tail) && opArr == old(opArr) && View() == old(View())
        invariant forall i :: 0 <= i < k ==> r[i] == reqArr[i] && o[i] == opArr[i]
      {
        r[k], o[k] := reqArr[k], opArr[k];
      }
      reqArr, opArr := r, o;
    }

    /** Removes the entries at the completed positions: nothing else is lost, nothing is kept
        twice, and the two arrays stay paired. */
    method Compact(idx: seq<nat>)
      requires Valid() && Increasing(idx) && Within(idx, tail)
      modifies `tail, reqArr, opArr
      ensures Valid() && tail == old(tail) - |idx|
      ensures multiset(old(View())) == multiset(View()) + old(Bag(View(), idx, 0, |idx|))
    {
      ghost var orig := View();
      var count: nat, i: nat := |idx|, 0;
      RemovedNone(orig, idx);
      while i < count
        invariant Valid() && Removed(orig, View(), idx, i, count)
      {
        count := CutCompleted(orig, idx, i, count);
        if i < count {
          FillHole(orig, idx, i, count);
          i := i + 1;
        }
      }
      RemovedAll(orig, View(), idx, i);
    }

    /** The inner loop: completed entries at the end are cut off. */
    method CutCompleted(ghost orig: seq<Op>, idx: seq<nat>, i: nat, n: nat) returns (count: nat)
      requires Valid() && Removed(orig, View(), idx, i, n)
      modifies `tail
      ensures Valid() && count <= n && Removed(orig, View(), idx, i, count)
      ensures i < count ==> idx[count - 1] != tail - 1
    {
      count := n;
      while i < count && idx[count - 1] == tail - 1
        invariant Valid() && count <= n && Removed(orig, View(), idx, i, count)
        decreases count
      {
        CutOne(orig, idx, i, count);
        count := count - 1;
      }
    }

    method FillHole(ghost orig: seq<Op>, idx: seq<nat>, i: nat, ghost count: nat)
      requires Valid() && Removed(orig, View(), idx, i, count) && i < count && idx[count - 1] != tail - 1
      modifies `tail, reqArr, opArr
      ensures Valid() && Removed(orig, View(), idx, i + 1, count)
    {
      FillStep(orig, View(), idx, i, count);
      MoveLast(idx[i]);
    }

    method CutOne(ghost orig: seq<Op>, ghost idx: seq<nat>, ghost i: nat, ghost count: nat)
      requires Valid() && Removed(orig, View(), idx, i, count) && i < count && idx[count - 1] == tail - 1
      modifies `tail
      ensures Valid() && tail == old(tail) - 1 && Removed(orig, View(), idx, i, count - 1)
    {
      CutStep(orig, View(), idx, i, count);
      tail := tail - 1;
      assert View() == old(View()[..tail - 1]);
    }

    /** Fills position p with the last entry. */
    method MoveLast(p: nat)
      requires Valid() && p + 1 < tail
      modifies `tail, reqArr, opArr
      ensures Valid() && tail == old(tail) - 1
      ensures View() == old(View()[..tail - 1][p := opArr[tail - 1]])
    {
      tail := tail - 1;
      reqArr[p] := reqArr[tail];
      opArr[p] := opArr[tail];
    }
  }

  // ---------- runs with appends at any time ----------

  datatype Daemon = Idle | Testing(snap: seq<Op>) | Processing(snap: seq<Op>, idx: seq<nat>, next: nat)

  datatype State = State(table: seq<Op>, daemon: Daemon, appended: multiset<Op>, processed: multiset<Op>)

  datatype Step =
    | Append(ops: seq<Op>)
    | Snapshot(len: nat)
    | Test(idx: seq<nat>)
    | Process
    | Compact

  ghost predicate DoStep(s: State, t: State, step: Step) {
    match step
    case Append(ops) =>
      t == s.(table := s.table + ops, appended := s.appended + multiset(ops))
    case Snapshot(len) =>
      // the tail is read first, so appends may already have made the table longer
      s.daemon.Idle? && len <= |s.table| && t == s.(daemon := Testing(s.table[..len]))
    case Test(idx) =>
      && s.daemon.Testing? && Increasing(idx) && Within(idx, |s.daemon.snap|)
      && t == s.(daemon := Processing(s.daemon.snap, idx, 0))
    case Process =>
      && s.daemon.Processing? && s.daemon.next < |s.daemon.idx| && s.daemon.idx[s.daemon.next] < |s.daemon.snap|
      && t == s.(daemon := s.daemon.(next := s.daemon.next + 1),
                 processed := s.processed + multiset{s.daemon.snap[s.daemon.idx[s.daemon.next]]})
    case Compact =>
      && s.daemon.Processing? && s.daemon.next == |s.daemon.idx| && Within(s.daemon.idx, |s.table|)
      && t == s.(daemon := Idle, table := t.table)
      && |t.table| + |s.daemon.idx| == |s.table|
      && multiset(s.table) == multiset(t.table) + Bag(s.table, s.daemon.idx, 0, |s.daemon.idx|)
  }

  ghost predicate Next(s: State, t: State) { exists step :: DoStep(s, t, step) }

  ghost predicate IsRun(run: seq<State>) {
    && |run| > 0 && run[0] == State([], Idle, multiset{}, multiset{})
    && forall k :: 0 < k < |run| ==> Next(run[k - 1], run[k])
  }

  /** What the daemon has processed and not removed yet. */
  ghost function InHand(d: Daemon): multiset<Op>
    requires d.Processing? ==> d.next <= |d.idx| && Within(d.idx, |d.snap|)
  {
    if d.Processing? then Bag(d.snap, d.idx, 0, d.next) else multiset{}
  }

  ghost predicate Inv(s: State) {
    && (s.daemon.Testing? ==> s.daemon.snap <= s.table)
    && (s.daemon.Processing? ==>
          && s.daemon.snap <= s.table && s.daemon.next <= |s.daemon.idx|
          && Increasing(s.daemon.idx) && Within(s.daemon.idx, |s.daemon.snap|))
    && s.appended + InHand(s.daemon) == multiset(s.table) + s.processed
  }

  lemma Cancel<T>(a: multiset<T>, b: multiset<T>, m: multiset<T>, p: multiset<T>)
    requires a + b == (m + b) + p
    ensures a == m + p
  {
    forall x ensures a[x] == (m + p)[x] {
      assert (a + b)[x] == ((m + b) + p)[x];
    }
  }

  lemma AddBoth<T>(a: multiset<T>, b: multiset<T>, m: multiset<T>, p: multiset<T>, x: multiset<T>)
    requires a + b == m + p
    ensures (a + x) + b == (m + x) + p && a + (b + x) == m + (p + x)
  {
    assert (a + x) + b == (a + b) + x == (m + p) + x == (m + x) + p;
    assert a + (b + x) == (a + b) + x == (m + p) + x == m + (p + x);
  }

  lemma NextKeepsInv(s: State, t: State)
    requires Inv(s) && Next(s, t)
    ensures Inv(t)
  {
    var step :| DoStep(s, t, step);
    match step
    case Append(ops) =>
      AddBoth(s.appended, InHand(s.daemon), multiset(s.table), s.processed, multiset(ops));
    case Snapshot(len) =>
    case Test(idx) =>
    case Process =>
      ProcessKeepsInv(s, t);
    case Compact =>
      CompactKeepsInv(s, t);
  }

  lemma ProcessKeepsInv(s: State, t: State)
    requires Inv(s) && DoStep(s, t, Process)
    ensures Inv(t)
  {
    AddBoth(s.appended, InHand(s.daemon), multiset(s.table), s.processed,
            multiset{s.daemon.snap[s.daemon.idx[s.daemon.next]]});
  }

  lemma CompactKeepsInv(s: State, t: State)
    requires Inv(s) && DoStep(s, t, Compact)
    ensures Inv(t)
  {
    var idx := s.daemon.idx;
    BagPrefix(s.daemon.snap, s.table, idx, |idx|);
    Cancel(s.appended, Bag(s.table, idx, 0, |idx|), multiset(t.table), s.processed);
  }

  lemma {:induction false} RunKeepsInv(run: seq<State>, k: nat)
    requires IsRun(run) && k < |run|
    ensures Inv(run[k])
  {
    if k > 0 {
      RunKeepsInv(run, k - 1);
      NextKeepsInv(run[k - 1], run[k]);
    }
  }

  /** In every run and at every moment, what was appended, and once more what is processed and not
      removed yet, is what is in the table and what was processed. */
  lemma NothingLost(run: seq<State>, k: nat)
    requires IsRun(run) && k < |run|
    ensures var d := run[k].daemon; d.Processing? ==> d.next <= |d.idx| && Within(d.idx, |d.snap|)
    ensures run[k].appended + InHand(run[k].daemon) == multiset(run[k].table) + run[k].processed
  {
    RunKeepsInv(run, k);
  }

  /** One more position, behind those before: a longer front of the table holds it as well. */
  lemma FrontGrows(s: seq<Op>, p: nat, q: nat, op: Op)
    requires p <= q < |s|
    ensures multiset(s[..p])[op] + (if s[q] == op then 1 else 0) <= multiset(s[..q + 1])[op]
  {
    assert s[..q + 1] == s[..p] + s[p..q] + [s[q]];
    assert multiset(s[..q + 1])[op] == multiset(s[..p])[op] + multiset(s[p..q])[op] + multiset([s[q]])[op];
  }

  /** The part of the table up to and with the last of the first n positions. */
  function FrontOf(s: seq<Op>, idx: seq<nat>, n: nat): seq<Op>
    requires n <= |idx| && (n > 0 ==> idx[n - 1] < |s|)
  {
    if n == 0 then [] else s[..idx[n - 1] + 1]
  }

  lemma BagNext(s: seq<Op>, idx: seq<nat>, n: nat, op: Op)
    requires Within(idx, |s|) && n < |idx|
    ensures Bag(s, idx, 0, n + 1)[op] == Bag(s, idx, 0, n)[op] + if s[idx[n]] == op then 1 else 0
  {
  }

  lemma FrontNext(s: seq<Op>, idx: seq<nat>, n: nat, op: Op)
    requires Increasing(idx) && Within(idx, |s|) && n < |idx|
    ensures multiset(FrontOf(s, idx, n))[op] + (if s[idx[n]] == op then 1 else 0)
         <= multiset(FrontOf(s, idx, n + 1))[op]
  {
    FrontGrows(s, if n == 0 then 0 else idx[n - 1] + 1, idx[n], op);
    assert s[..0] == [];
  }

  lemma {:induction false} BagOnce(s: seq<Op>, idx: seq<nat>, n: nat, op: Op)
    requires Increasing(idx) && Within(idx, |s|) && n <= |idx|
    ensures Bag(s, idx, 0, n)[op] <= multiset(FrontOf(s, idx, n))[op]
  {
    if n > 0 {
      BagOnce(s, idx, n - 1, op);
      BagNext(s, idx, n - 1, op);
      FrontNext(s, idx, n - 1, op);
    }
  }

  /** What is in hand is still in the table. */
  lemma InHandInTable(table: seq<Op>, snap: seq<Op>, idx: seq<nat>, next: nat, op: Op)
    requires snap <= table && next <= |idx| && Increasing(idx) && Within(idx, |snap|)
    ensures Bag(snap, idx, 0, next)[op] <= multiset(table)[op]
  {
    BagOnce(snap, idx, next, op);
    var m := if next == 0 then 0 else idx[next - 1] + 1;
    assert table == FrontOf(snap, idx, next) + table[m..];
  }

  /** At every moment no request has been processed, and so no increment applied, more often than
      it was appended. */
  lemma ProcessedAtMostOnce(run: seq<State>, k: nat, op: Op)
    requires IsRun(run) && k < |run|
    ensures run[k].processed[op] <= run[k].appended[op]
  {
    RunKeepsInv(run, k);
    var s := run[k];
    if s.daemon.Processing? {
      InHandInTable(s.table, s.daemon.snap, s.daemon.idx, s.daemon.next, op);
    }
    assert (s.appended + InHand(s.daemon))[op] == (multiset(s.table) + s.processed)[op];
  }
}
