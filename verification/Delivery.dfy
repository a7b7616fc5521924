/** What the pieces of a whole plan add up to, signal by signal (src/unr/base/unr_blk.c:360-449). */
module Delivery {
  import opened Split
  import opened Signal
  import opened Plan

  /** A signal: a flag of a rank. */
  datatype Sig = Sig(rank: nat, flag: nat)

  /** Copies of handles name the rank they were made on (module MemSync). */
  ghost predicate RanksRight(t: Topology, g: Registry) {
    && (forall k :: 0 <= k < |g.loc| ==> g.loc[k].rank == t.rank)
    && (forall r, k :: 0 <= r < |g.rmt| && 0 <= k < |g.rmt[r]| ==> g.rmt[r][k].rank == r)
  }

  /** The signal that one end of a piece reports to, and the one that end of message i is for. */
  function SigOf(p: Piece, remote: bool): Sig {
    if remote then Sig(p.rmtMem.rank, p.rmtFlag) else Sig(p.locMem.rank, p.locFlag)
  }

  function SigFor(a: Args, i: nat, remote: bool): Sig
    requires ValidArgs(a) && i < |a.loc|
  {
    if remote then Sig(a.rmt[i].rank, RmtFlag(a, i)) else Sig(a.loc[i].rank, LocFlag(a, i))
  }

  lemma SigOfPiece(t: Topology, g: Registry, a: Args, j: nat, i: nat, remote: bool)
    requires ValidTopology(t) && ValidArgs(a) && i < |a.loc| && j < Channels(t, IsIntra(t, a, i))
    requires SizeOf(a, i) > 0 && Admissible(t, g, a, i) && RanksRight(t, g)
    ensures SigOf(PieceOf(t, g, a, j, i), remote) == SigFor(a, i, remote)
  {
  }

  /** The increments for a signal on one list. */
  function OnList(list: seq<Piece>, sig: Sig, remote: bool): int {
    if list == [] then 0
    else OnList(list[..|list| - 1], sig, remote)
         + if SigOf(list[|list| - 1], remote) == sig then list[|list| - 1].add else 0
  }

  function Sum(s: seq<int>): int { if s == [] then 0 else Sum(s[..|s| - 1]) + s[|s| - 1] }

  lemma {:induction false} SumAdds(a: seq<int>, b: seq<int>, c: seq<int>)
    requires |a| == |b| == |c| && forall j :: 0 <= j < |a| ==> c[j] == a[j] + b[j]
    ensures Sum(c) == Sum(a) + Sum(b)
  {
    if a != [] { SumAdds(a[..|a| - 1], b[..|b| - 1], c[..|c| - 1]); }
  }

  lemma {:induction false} SumJoins(a: seq<int>, b: seq<int>)
    ensures Sum(a + b) == Sum(a) + Sum(b)
    decreases |b|
  {
    if b == [] {
      assert a + b == a;
    } else {
      assert (a + b)[..|a + b| - 1] == a + b[..|b| - 1];
      SumJoins(a, b[..|b| - 1]);
    }
  }

  lemma {:induction false} SumZero(s: seq<int>)
    requires forall j :: 0 <= j < |s| ==> s[j] == 0
    ensures Sum(s) == 0
  {
    if s != [] { SumZero(s[..|s| - 1]); }
  }

  /** The increments for a signal, list by list. */
  function PerList(lists: seq<seq<Piece>>, sig: Sig, remote: bool): (s: seq<int>)
    ensures |s| == |lists| && forall k :: 0 <= k < |s| ==> s[k] == OnList(lists[k], sig, remote)
  {
    seq(|lists|, k requires 0 <= k < |lists| => OnList(lists[k], sig, remote))
  }

  /** The increments for a signal on all lists of a plan. */
  function OnLists(lists: seq<seq<Piece>>, sig: Sig, remote: bool): int { Sum(PerList(lists, sig, remote)) }

  /** The messages among the first m that are not empty and report to the signal. */
  function Messages(a: Args, m: nat, sig: Sig, remote: bool): nat
    requires ValidArgs(a) && m <= |a.loc|
  {
    if m == 0 then 0
    else Messages(a, m - 1, sig, remote)
         + if SizeOf(a, m - 1) > 0 && SigFor(a, m - 1, remote) == sig then 1 else 0
  }

  /** The increments of the pieces of a message. */
  function Events(s: seq<nat>): (e: seq<int>)
    ensures |e| == |s| && forall j :: 0 <= j < |e| ==> e[j] == SigAdd(s, j)
  {
    seq(|s|, j requires 0 <= j < |s| => SigAdd(s, j))
  }

  lemma {:induction false} EventsApplied(s: seq<nat>, done: seq<bool>, n: nat)
    requires n <= |s| == |done| && forall j :: 0 <= j < |done| ==> done[j]
    ensures Sum(Events(s)[..n]) == AppliedTo(s, done, n)
  {
    if n > 0 {
      EventsApplied(s, done, n - 1);
      assert Events(s)[..n][..n - 1] == Events(s)[..n - 1];
    }
  }

  /** A whole message sends one event. */
  lemma WholeMessage(t: Topology, a: Args, i: nat)
    requires ValidTopology(t) && ValidArgs(a) && i < |a.loc| && SizeOf(a, i) > 0
    ensures Sum(Events(Cut(t, a, i))) == -1
  {
    PiecesMakeMessage(t, a, i);
    var s := Cut(t, a, i);
    EventsApplied(s, seq(|s|, _ => true), |s|);
    assert Events(s)[..|s|] == Events(s);
  }

  /** The increments for a signal on the lists of a class after m messages. */
  function ClassLists(t: Topology, g: Registry, a: Args, intra: bool, m: nat, sig: Sig, remote: bool): (s: seq<int>)
    requires ValidTopology(t) && ValidArgs(a) && m <= |a.loc| && AdmissibleTo(t, g, a, m)
    ensures |s| == Channels(t, intra)
    ensures forall j :: 0 <= j < |s| ==> s[j] == OnList(ChannelList(t, g, a, intra, j, m), sig, remote)
  {
    seq(Channels(t, intra), j requires 0 <= j < Channels(t, intra) =>
      OnList(ChannelList(t, g, a, intra, j, m), sig, remote))
  }

  /** What message m adds to the lists of a class. */
  function Added(t: Topology, a: Args, intra: bool, m: nat, sig: Sig, remote: bool): (s: seq<int>)
    requires ValidTopology(t) && ValidArgs(a) && m < |a.loc|
    ensures |s| == Channels(t, intra)
  {
    if SizeOf(a, m) > 0 && IsIntra(t, a, m) == intra && SigFor(a, m, remote) == sig then Events(Cut(t, a, m))
    else seq(Channels(t, intra), _ => 0)
  }

  lemma PieceAdds(t: Topology, g: Registry, a: Args, intra: bool, j: nat, m: nat, sig: Sig, remote: bool)
    requires ValidTopology(t) && ValidArgs(a) && m < |a.loc| && AdmissibleTo(t, g, a, m + 1) && j < Channels(t, intra)
    requires RanksRight(t, g)
    ensures AdmissibleTo(t, g, a, m)
    ensures OnList(ChannelList(t, g, a, intra, j, m + 1), sig, remote)
         == OnList(ChannelList(t, g, a, intra, j, m), sig, remote)
            + Added(t, a, intra, m, sig, remote)[j]
  {
    var was, now := ChannelList(t, g, a, intra, j, m), ChannelList(t, g, a, intra, j, m + 1);
    if HasPiece(t, a, intra, j, m) {
      assert Admissible(t, g, a, m);
      SigOfPiece(t, g, a, j, m, remote);
      assert now[..|now| - 1] == was;
    } else {
      assert now == was;
    }
  }

  /** Message m adds one event to the lists of its class, if it reports to the signal, and nothing to
      those of the other. */
  lemma MessageAdds(t: Topology, g: Registry, a: Args, intra: bool, m: nat, sig: Sig, remote: bool)
    requires ValidTopology(t) && ValidArgs(a) && m < |a.loc| && AdmissibleTo(t, g, a, m + 1) && RanksRight(t, g)
    ensures AdmissibleTo(t, g, a, m)
    ensures Sum(ClassLists(t, g, a, intra, m + 1, sig, remote))
         == Sum(ClassLists(t, g, a, intra, m, sig, remote))
            - if SizeOf(a, m) > 0 && IsIntra(t, a, m) == intra && SigFor(a, m, remote) == sig then 1 else 0
  {
    var added := Added(t, a, intra, m, sig, remote);
    assert AdmissibleTo(t, g, a, m);
    var was, now := ClassLists(t, g, a, intra, m, sig, remote), ClassLists(t, g, a, intra, m + 1, sig, remote);
    forall j: nat | j < Channels(t, intra) ensures now[j] == was[j] + added[j] {
      PieceAdds(t, g, a, intra, j, m, sig, remote);
    }
    SumAdds(was, added, now);
    if SizeOf(a, m) > 0 && IsIntra(t, a, m) == intra && SigFor(a, m, remote) == sig {
      WholeMessage(t, a, m);
    } else {
      SumZero(added);
    }
  }

  /** Two counts that start at zero and move against each other step by step sum to zero. */
  lemma {:induction false} Telescope(x: seq<int>, y: seq<int>, k: nat)
    requires k < |x| == |y| && x[0] == 0 && y[0] == 0
    requires forall i :: 0 <= i < |x| - 1 ==> x[i + 1] - x[i] == y[i] - y[i + 1]
    ensures x[k] == 0 - y[k]
  {
    if k > 0 {
      Telescope(x, y, k - 1);
      assert x[k - 1 + 1] - x[k - 1] == y[k - 1] - y[k - 1 + 1];
    }
  }

  /** All lists of both classes after m messages. */
  function BothSums(t: Topology, g: Registry, a: Args, m: nat, sig: Sig, remote: bool): int
    requires ValidTopology(t) && ValidArgs(a) && AllAdmissible(t, g, a) && m <= |a.loc|
  {
    Sum(ClassLists(t, g, a, false, m, sig, remote)) + Sum(ClassLists(t, g, a, true, m, sig, remote))
  }

  lemma SumsMove(t: Topology, g: Registry, a: Args, m: nat, sig: Sig, remote: bool)
    requires ValidTopology(t) && ValidArgs(a) && AllAdmissible(t, g, a) && RanksRight(t, g) && m < |a.loc|
    ensures BothSums(t, g, a, m + 1, sig, remote) - BothSums(t, g, a, m, sig, remote)
         == Messages(a, m, sig, remote) - Messages(a, m + 1, sig, remote)
  {
    MessageAdds(t, g, a, false, m, sig, remote);
    MessageAdds(t, g, a, true, m, sig, remote);
  }

  lemma SumsStart(t: Topology, g: Registry, a: Args, sig: Sig, remote: bool)
    requires ValidTopology(t) && ValidArgs(a) && AllAdmissible(t, g, a)
    ensures BothSums(t, g, a, 0, sig, remote) == 0
  {
    SumZero(ClassLists(t, g, a, false, 0, sig, remote));
    SumZero(ClassLists(t, g, a, true, 0, sig, remote));
  }

  function SumsOf(t: Topology, g: Registry, a: Args, sig: Sig, remote: bool): (x: seq<int>)
    requires ValidTopology(t) && ValidArgs(a) && AllAdmissible(t, g, a)
    ensures |x| == |a.loc| + 1 && forall m :: 0 <= m < |x| ==> x[m] == BothSums(t, g, a, m, sig, remote)
  {
    seq(|a.loc| + 1, m requires 0 <= m <= |a.loc| => BothSums(t, g, a, m, sig, remote))
  }

  function CountsOf(a: Args, sig: Sig, remote: bool): (y: seq<int>)
    requires ValidArgs(a)
    ensures |y| == |a.loc| + 1 && forall m :: 0 <= m < |y| ==> y[m] == Messages(a, m, sig, remote)
  {
    seq(|a.loc| + 1, m requires 0 <= m <= |a.loc| => Messages(a, m, sig, remote))
  }

  lemma SumsMoveAt(t: Topology, g: Registry, a: Args, x: seq<int>, y: seq<int>, m: nat, sig: Sig, remote: bool)
    requires ValidTopology(t) && ValidArgs(a) && AllAdmissible(t, g, a) && RanksRight(t, g) && m < |a.loc|
    requires x == SumsOf(t, g, a, sig, remote) && y == CountsOf(a, sig, remote)
    ensures x[m + 1] - x[m] == y[m] - y[m + 1]
  {
    SumsMove(t, g, a, m, sig, remote);
  }

  lemma SumsFrom(t: Topology, g: Registry, a: Args, x: seq<int>, y: seq<int>, sig: Sig, remote: bool)
    requires ValidTopology(t) && ValidArgs(a) && AllAdmissible(t, g, a)
    requires x == SumsOf(t, g, a, sig, remote) && y == CountsOf(a, sig, remote)
    ensures x[0] == 0 == y[0]
    ensures x[|a.loc|] == BothSums(t, g, a, |a.loc|, sig, remote) && y[|a.loc|] == Messages(a, |a.loc|, sig, remote)
  {
    SumsStart(t, g, a, sig, remote);
  }

  /** No more and no fewer events than messages. */
  lemma SumsSettle(t: Topology, g: Registry, a: Args, sig: Sig, remote: bool)
    requires ValidTopology(t) && ValidArgs(a) && AllAdmissible(t, g, a) && RanksRight(t, g)
    ensures BothSums(t, g, a, |a.loc|, sig, remote) == 0 - Messages(a, |a.loc|, sig, remote)
  {
    var x, y := SumsOf(t, g, a, sig, remote), CountsOf(a, sig, remote);
    SumsFrom(t, g, a, x, y, sig, remote);
    forall m: nat | m < |a.loc| ensures x[m + 1] - x[m] == y[m] - y[m + 1] {
      SumsMoveAt(t, g, a, x, y, m, sig, remote);
    }
    Telescope(x, y, |a.loc|);
  }

  lemma ListsByClass(t: Topology, g: Registry, a: Args, lists: seq<seq<Piece>>, sig: Sig, remote: bool)
    requires ValidTopology(t) && ValidArgs(a) && AllAdmissible(t, g, a) && Built(t, g, a, lists, |a.loc|)
    ensures PerList(lists, sig, remote)
         == ClassLists(t, g, a, false, |a.loc|, sig, remote) + ClassLists(t, g, a, true, |a.loc|, sig, remote)
  {
    var inter, intra := ClassLists(t, g, a, false, |a.loc|, sig, remote), ClassLists(t, g, a, true, |a.loc|, sig, remote);
    var all := PerList(lists, sig, remote);
    forall j: nat | j < t.inter ensures all[j] == inter[j] {
      assert lists[Slot(t, false, j)] == ChannelList(t, g, a, false, j, |a.loc|);
    }
    forall j: nat | j < t.intra ensures all[t.inter + j] == intra[j] {
      assert lists[Slot(t, true, j)] == ChannelList(t, g, a, true, j, |a.loc|);
    }
    assert forall k :: t.inter <= k < |all| ==> all[k] == all[t.inter + (k - t.inter)];
  }

  /** A plan as built sends every signal exactly one event per message that is not empty: over all
      channels, the increments for a flag of a rank sum to minus the number of messages that report
      to it, at either end. */
  lemma OneEventPerMessage(t: Topology, g: Registry, a: Args, lists: seq<seq<Piece>>, sig: Sig, remote: bool)
    requires ValidTopology(t) && ValidArgs(a) && AllAdmissible(t, g, a) && Built(t, g, a, lists, |a.loc|)
    requires RanksRight(t, g)
    ensures OnLists(lists, sig, remote) == 0 - Messages(a, |a.loc|, sig, remote)
  {
    ListsByClass(t, g, a, lists, sig, remote);
    SumJoins(ClassLists(t, g, a, false, |a.loc|, sig, remote), ClassLists(t, g, a, true, |a.loc|, sig, remote));
    SumsSettle(t, g, a, sig, remote);
  }
}
