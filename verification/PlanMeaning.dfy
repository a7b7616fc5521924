/** What a plan means in the caller's own terms: every list entry, every event and every delivered byte
    spelled out in the fields of the parameters and of the registered handles
    (src/unr/base/unr_blk.c:289-449, src/uri/mpi/uri_mpi_rdma.c:41-63). */
module PlanMeaning {
  import opened Split
  import opened Signal
  import opened Plan
  import opened Delivery
  import opened EntryRun
  import opened PlanRun
  import T = Transfer

  // ---------- messages and their ends ----------

  /** The number of bytes of message i. */
  function Length(a: Args, i: nat): nat
    requires ValidArgs(a) && i < |a.loc|
  {
    if a.size.Some? then a.size.value[i] else a.loc[i].size
  }

  predicate PutAt(a: Args, i: nat)
    requires ValidArgs(a)
  {
    i < |a.loc| && Length(a, i) > 0 && (a.dma.AllPut? || (a.dma.Each? && a.dma.types[i].Put?))
  }

  predicate GetAt(a: Args, i: nat)
    requires ValidArgs(a)
  {
    i < |a.loc| && Length(a, i) > 0 && (a.dma.AllGet? || (a.dma.Each? && a.dma.types[i].Get?))
  }

  /** Where the local and the remote part of message i start in the memory of their rank. */
  function LocalAddr(g: Registry, a: Args, i: nat): nat
    requires ValidArgs(a) && i < |a.loc| && a.loc[i].memIdx < |g.loc|
  {
    g.loc[a.loc[i].memIdx].addr + a.loc[i].offset + if a.locOff.Some? then a.locOff.value[i] else 0
  }

  function RemoteAddr(g: Registry, a: Args, i: nat): nat
    requires ValidArgs(a) && i < |a.loc| && a.rmt[i].rank < |g.rmt| && a.rmt[i].memIdx < |g.rmt[a.rmt[i].rank]|
  {
    g.rmt[a.rmt[i].rank][a.rmt[i].memIdx].addr + a.rmt[i].offset + if a.rmtOff.Some? then a.rmtOff.value[i] else 0
  }

  /** A given signal wins; without one, the block's receive flag is meant where bytes arrive and its
      send flag where they leave. */
  predicate LocalFlagIs(a: Args, i: nat, put: bool, f: nat)
    requires ValidArgs(a) && i < |a.loc|
  {
    if a.locSig.Some? && a.locSig.value[i].SigRef? then a.locSig.value[i].flag == f
    else if put then a.loc[i].sendFlag == f else a.loc[i].recvFlag == f
  }

  predicate RemoteFlagIs(a: Args, i: nat, put: bool, f: nat)
    requires ValidArgs(a) && i < |a.loc|
  {
    if a.rmtSig.Some? && a.rmtSig.value[i].SigRef? then a.rmtSig.value[i].flag == f
    else if put then a.rmt[i].recvFlag == f else a.rmt[i].sendFlag == f
  }

  /** What the builder asserts of message i; of an empty one only that the two blocks agree, when
      their size is the size of the message. */
  ghost predicate Accepted(t: Topology, g: Registry, a: Args, i: nat)
    requires ValidArgs(a) && i < |a.loc|
  {
    && (a.size.None? ==> a.loc[i].size == a.rmt[i].size)
    && (Length(a, i) > 0 ==>
          && a.loc[i].rank == t.rank && a.rmt[i].rank < |t.sameNode| && a.loc[i].memIdx < |g.loc|
          && a.rmt[i].rank < |g.rmt| && a.rmt[i].memIdx < |g.rmt[a.rmt[i].rank]|
          && (a.locSig.Some? && a.locSig.value[i].SigRef? ==> a.locSig.value[i].rank == t.rank)
          && (a.rmtSig.Some? && a.rmtSig.value[i].SigRef? ==> a.rmtSig.value[i].rank == a.rmt[i].rank))
  }

  lemma MessageAccepted(t: Topology, g: Registry, a: Args, i: nat)
    requires ValidArgs(a) && i < |a.loc|
    ensures Admissible(t, g, a, i) <==> Accepted(t, g, a, i)
  {
  }

  /** Exactly the arguments on which no assertion of the builder fails. */
  lemma AdmissibleMeans(t: Topology, g: Registry, a: Args)
    requires ValidArgs(a)
    ensures AllAdmissible(t, g, a) <==> |a.loc| > 0 && forall i :: 0 <= i < |a.loc| ==> Accepted(t, g, a, i)
  {
    forall i: nat | i < |a.loc| ensures Admissible(t, g, a, i) <==> Accepted(t, g, a, i) { MessageAccepted(t, g, a, i); }
  }

  // ---------- entries ----------

  /** Entry p of list id carries bytes off to off + p.size of message i. */
  ghost predicate Means(t: Topology, g: Registry, a: Args, id: nat, p: Piece, i: nat, off: nat)
    requires ValidTopology(t) && ValidArgs(a) && id < t.inter + t.intra
  {
    && i < |a.loc| && p.size > 0 && off + p.size <= Length(a, i)
    // direction
    && (p.dma.Put? <==> PutAt(a, i)) && (p.dma.Get? <==> GetAt(a, i))
    // class of channels
    && a.rmt[i].rank < |t.sameNode| && (t.sameNode[a.rmt[i].rank] <==> id >= t.inter)
    // memories, and the channel's part of their handles
    && a.loc[i].memIdx < |g.loc| && p.locMem == g.loc[a.loc[i].memIdx]
    && a.rmt[i].rank < |g.rmt| && a.rmt[i].memIdx < |g.rmt[a.rmt[i].rank]|
    && p.rmtMem == g.rmt[a.rmt[i].rank][a.rmt[i].memIdx]
    && p.sub == (if id < t.inter then t.interSub[id] else t.intraSub[id - t.inter])
    // places
    && p.locMem.addr + p.locOff == LocalAddr(g, a, i) + off
    && p.rmtMem.addr + p.rmtOff == RemoteAddr(g, a, i) + off
    // flags
    && LocalFlagIs(a, i, p.dma.Put?, p.locFlag) && RemoteFlagIs(a, i, p.dma.Put?, p.rmtFlag)
  }

  lemma PieceMeans(t: Topology, g: Registry, a: Args, intra: bool, j: nat, i: nat)
    requires ValidTopology(t) && ValidArgs(a) && i < |a.loc| && j < Channels(t, intra) && HasPiece(t, a, intra, j, i)
    requires Admissible(t, g, a, i)
    ensures j < Channels(t, intra) && Slot(t, intra, j) < t.inter + t.intra
    ensures Means(t, g, a, Slot(t, intra, j), PieceOf(t, g, a, j, i), i, Prefix(Cut(t, a, i), j))
  {
    PiecesMakeMessage(t, a, i);
    PrefixMonotone(Cut(t, a, i), j + 1, |Cut(t, a, i)|);
  }

  /** Every entry of the lists of a plan as built means a part of one message of the caller. */
  lemma EntryMeans(t: Topology, g: Registry, a: Args, lists: seq<seq<Piece>>, id: nat, k: nat) returns (i: nat, off: nat)
    requires ValidTopology(t) && ValidArgs(a) && AllAdmissible(t, g, a) && Built(t, g, a, lists, |a.loc|)
    requires id < |lists| && k < |lists[id]|
    ensures id < t.inter + t.intra && Means(t, g, a, id, lists[id][k], i, off)
  {
    var intra := id >= t.inter;
    var j := if intra then id - t.inter else id;
    assert lists[Slot(t, intra, j)] == ChannelList(t, g, a, intra, j, |a.loc|);
    i := OwnerOf(t, g, a, intra, j, |a.loc|, k);
    off := Prefix(Cut(t, a, i), j);
    PieceMeans(t, g, a, intra, j, i);
  }

  /** Every byte of every message of the caller is in such a part. */
  lemma ByteHasEntry(t: Topology, g: Registry, a: Args, lists: seq<seq<Piece>>, i: nat, b: nat)
    returns (id: nat, k: nat, off: nat)
    requires ValidTopology(t) && ValidArgs(a) && AllAdmissible(t, g, a) && Built(t, g, a, lists, |a.loc|)
    requires i < |a.loc| && b < Length(a, i)
    ensures id < |lists| == t.inter + t.intra && k < |lists[id]|
    ensures Means(t, g, a, id, lists[id][k], i, off) && off <= b < off + lists[id][k].size
  {
    var intra := IsIntra(t, a, i);
    var j, p := ByteCarried(t, g, a, i, b);
    id, off := Slot(t, intra, j), Prefix(Cut(t, a, i), j);
    var list := ChannelList(t, g, a, intra, j, |a.loc|);
    assert lists[id] == list;
    k :| 0 <= k < |list| && list[k] == p;
    PieceMeans(t, g, a, intra, j, i);
  }

  /** How many entries a message gets: one per whole block, but at least one and at most one per
      channel of the class its target is reached through. */
  lemma EntriesOfMessage(t: Topology, a: Args, i: nat, n: nat, B: nat)
    requires ValidTopology(t) && ValidArgs(a) && i < |a.loc| && Length(a, i) > 0 && a.rmt[i].rank < |t.sameNode|
    requires if t.sameNode[a.rmt[i].rank] then n == t.intra && B == t.intraBlk else n == t.inter && B == t.interBlk
    ensures B > 0
    ensures var whole := Length(a, i) / B;
            NonZeros(Cut(t, a, i)) == if whole >= n then n else if whole == 0 then 1 else whole
  {
    var intra := t.sameNode[a.rmt[i].rank];
    assert Cut(t, a, i) == Shares(Length(a, i), n, B, Cursor(t, a, intra, i));
    PieceCount(Length(a, i), n, B, Cursor(t, a, intra, i));
  }

  // ---------- events ----------

  /** Increments of the pieces whose remote end, or local end, names flag f of rank r. */
  function RemoteEvents(list: seq<Piece>, r: nat, f: nat): int {
    if list == [] then 0
    else RemoteEvents(list[..|list| - 1], r, f)
         + if list[|list| - 1].rmtMem.rank == r && list[|list| - 1].rmtFlag == f then list[|list| - 1].add else 0
  }

  function LocalEvents(list: seq<Piece>, r: nat, f: nat): int {
    if list == [] then 0
    else LocalEvents(list[..|list| - 1], r, f)
         + if list[|list| - 1].locMem.rank == r && list[|list| - 1].locFlag == f then list[|list| - 1].add else 0
  }

  function AllRemote(lists: seq<seq<Piece>>, r: nat, f: nat): int {
    if lists == [] then 0 else AllRemote(lists[..|lists| - 1], r, f) + RemoteEvents(lists[|lists| - 1], r, f)
  }

  function AllLocal(lists: seq<seq<Piece>>, r: nat, f: nat): int {
    if lists == [] then 0 else AllLocal(lists[..|lists| - 1], r, f) + LocalEvents(lists[|lists| - 1], r, f)
  }

  lemma {:induction false} EventsOnList(list: seq<Piece>, r: nat, f: nat)
    ensures RemoteEvents(list, r, f) == OnList(list, Sig(r, f), true)
    ensures LocalEvents(list, r, f) == OnList(list, Sig(r, f), false)
  {
    if list != [] { EventsOnList(list[..|list| - 1], r, f); }
  }

  lemma {:induction false} EventsOnLists(lists: seq<seq<Piece>>, r: nat, f: nat)
    ensures AllRemote(lists, r, f) == OnLists(lists, Sig(r, f), true)
    ensures AllLocal(lists, r, f) == OnLists(lists, Sig(r, f), false)
  {
    if lists != [] {
      var init := lists[..|lists| - 1];
      EventsOnLists(init, r, f);
      EventsOnList(lists[|lists| - 1], r, f);
      assert PerList(lists, Sig(r, f), true)[..|lists| - 1] == PerList(init, Sig(r, f), true);
      assert PerList(lists, Sig(r, f), false)[..|lists| - 1] == PerList(init, Sig(r, f), false);
    }
  }

  /** The messages among the first m whose remote, or local, end is for flag f of rank r. */
  ghost function RemoteFor(a: Args, m: nat, r: nat, f: nat): set<nat>
    requires ValidArgs(a) && m <= |a.loc|
  {
    set i: nat | i < m && a.rmt[i].rank == r
                 && ((PutAt(a, i) && RemoteFlagIs(a, i, true, f)) || (GetAt(a, i) && RemoteFlagIs(a, i, false, f)))
  }

  ghost function LocalFor(a: Args, m: nat, r: nat, f: nat): set<nat>
    requires ValidArgs(a) && m <= |a.loc|
  {
    set i: nat | i < m && a.loc[i].rank == r
                 && ((PutAt(a, i) && LocalFlagIs(a, i, true, f)) || (GetAt(a, i) && LocalFlagIs(a, i, false, f)))
  }

  lemma RemoteNext(a: Args, m: nat, r: nat, f: nat)
    requires ValidArgs(a) && m < |a.loc|
    ensures RemoteFor(a, m + 1, r, f)
         == RemoteFor(a, m, r, f) + if SizeOf(a, m) > 0 && SigFor(a, m, true) == Sig(r, f) then {m} else {}
    ensures m !in RemoteFor(a, m, r, f)
  {
  }

  lemma {:induction false} RemoteCount(a: Args, m: nat, r: nat, f: nat)
    requires ValidArgs(a) && m <= |a.loc|
    ensures Messages(a, m, Sig(r, f), true) == |RemoteFor(a, m, r, f)|
  {
    if m > 0 {
      RemoteCount(a, m - 1, r, f);
      RemoteNext(a, m - 1, r, f);
    }
  }

  lemma LocalNext(a: Args, m: nat, r: nat, f: nat)
    requires ValidArgs(a) && m < |a.loc|
    ensures LocalFor(a, m + 1, r, f)
         == LocalFor(a, m, r, f) + if SizeOf(a, m) > 0 && SigFor(a, m, false) == Sig(r, f) then {m} else {}
    ensures m !in LocalFor(a, m, r, f)
  {
  }

  lemma {:induction false} LocalCount(a: Args, m: nat, r: nat, f: nat)
    requires ValidArgs(a) && m <= |a.loc|
    ensures Messages(a, m, Sig(r, f), false) == |LocalFor(a, m, r, f)|
  {
    if m > 0 {
      LocalCount(a, m - 1, r, f);
      LocalNext(a, m - 1, r, f);
    }
  }

  /** A plan as built sends flag f of rank r exactly one event for each message of the caller that is
      for it, at either end. */
  lemma EventsMean(t: Topology, g: Registry, a: Args, lists: seq<seq<Piece>>, r: nat, f: nat)
    requires ValidTopology(t) && ValidArgs(a) && AllAdmissible(t, g, a) && Built(t, g, a, lists, |a.loc|)
    requires RanksRight(t, g)
    ensures AllRemote(lists, r, f) == 0 - |RemoteFor(a, |a.loc|, r, f)|
    ensures AllLocal(lists, r, f) == 0 - |LocalFor(a, |a.loc|, r, f)|
  {
    OneEventPerMessage(t, g, a, lists, Sig(r, f), true);
    OneEventPerMessage(t, g, a, lists, Sig(r, f), false);
    EventsOnLists(lists, r, f);
    RemoteCount(a, |a.loc|, r, f);
    LocalCount(a, |a.loc|, r, f);
  }

  /** Without signal arrays, a batch of PUTs takes one event off the receive flag of each remote block
      and one off the send flag of each local block. */
  lemma PutBatchEvents(t: Topology, g: Registry, a: Args, lists: seq<seq<Piece>>, r: nat, f: nat)
    requires ValidTopology(t) && ValidArgs(a) && AllAdmissible(t, g, a) && Built(t, g, a, lists, |a.loc|)
    requires RanksRight(t, g) && a.dma == AllPut && a.locSig.None? && a.rmtSig.None?
    ensures AllRemote(lists, r, f)
         == 0 - |set i: nat | i < |a.loc| && Length(a, i) > 0 && a.rmt[i].rank == r && a.rmt[i].recvFlag == f|
    ensures AllLocal(lists, r, f)
         == 0 - |set i: nat | i < |a.loc| && Length(a, i) > 0 && a.loc[i].rank == r && a.loc[i].sendFlag == f|
  {
    EventsMean(t, g, a, lists, r, f);
    assert RemoteFor(a, |a.loc|, r, f)
        == set i: nat | i < |a.loc| && Length(a, i) > 0 && a.rmt[i].rank == r && a.rmt[i].recvFlag == f;
    assert LocalFor(a, |a.loc|, r, f)
        == set i: nat | i < |a.loc| && Length(a, i) > 0 && a.loc[i].rank == r && a.loc[i].sendFlag == f;
  }

  /** A batch of GETs does the reverse. */
  lemma GetBatchEvents(t: Topology, g: Registry, a: Args, lists: seq<seq<Piece>>, r: nat, f: nat)
    requires ValidTopology(t) && ValidArgs(a) && AllAdmissible(t, g, a) && Built(t, g, a, lists, |a.loc|)
    requires RanksRight(t, g) && a.dma == AllGet && a.locSig.None? && a.rmtSig.None?
    ensures AllRemote(lists, r, f)
         == 0 - |set i: nat | i < |a.loc| && Length(a, i) > 0 && a.rmt[i].rank == r && a.rmt[i].sendFlag == f|
    ensures AllLocal(lists, r, f)
         == 0 - |set i: nat | i < |a.loc| && Length(a, i) > 0 && a.loc[i].rank == r && a.loc[i].recvFlag == f|
  {
    EventsMean(t, g, a, lists, r, f);
    assert RemoteFor(a, |a.loc|, r, f)
        == set i: nat | i < |a.loc| && Length(a, i) > 0 && a.rmt[i].rank == r && a.rmt[i].sendFlag == f;
    assert LocalFor(a, |a.loc|, r, f)
        == set i: nat | i < |a.loc| && Length(a, i) > 0 && a.loc[i].rank == r && a.loc[i].recvFlag == f;
  }

  // ---------- delivery ----------

  /** What arrives in the memory of rank r: at which address, for message i of the caller. */
  ghost predicate ArrivesAt(g: Registry, a: Args, r: nat, i: nat, at: nat)
    requires ValidArgs(a)
  {
    || (PutAt(a, i) && a.rmt[i].rank == r && r < |g.rmt| && a.rmt[i].memIdx < |g.rmt[r]| && at == RemoteAddr(g, a, i))
    || (GetAt(a, i) && a.loc[i].rank == r && a.loc[i].memIdx < |g.loc| && at == LocalAddr(g, a, i))
  }

  /** The caller's side of the bargain for flag f of rank r, whose memory has `size` bytes: what
      arrives there fits and does not overlap, and no more message ends are for the flag than
      expected. */
  ghost predicate CallerRoom(g: Registry, a: Args, r: nat, f: nat, size: nat, numEvent: nat)
    requires ValidArgs(a)
  {
    && 0 < numEvent < 0x8000_0000 && |RemoteFor(a, |a.loc|, r, f)| + |LocalFor(a, |a.loc|, r, f)| <= numEvent
    && (forall i: nat, at: nat :: ArrivesAt(g, a, r, i, at) ==> at + Length(a, i) <= size)
    && (forall i: nat, l: nat, at: nat, to: nat :: i != l && ArrivesAt(g, a, r, i, at) && ArrivesAt(g, a, r, l, to) ==>
          at + Length(a, i) <= to || to + Length(a, l) <= at)
  }

  /** Where a message lands, in both ways of saying it. */
  lemma LandsMeans(x: Ctx, i: nat)
    requires Sound(x) && IsMessage(x, i)
    ensures Whole(x, i).size == Length(x.a, i)
    ensures LandsHere(x, i) <==> ArrivesAt(x.g, x.a, x.v.sig.rank, i, DstAddr(Whole(x, i)))
    ensures forall at :: ArrivesAt(x.g, x.a, x.v.sig.rank, i, at) ==> at == DstAddr(Whole(x, i))
  {
    assert Admissible(x.t, x.g, x.a, i);
  }

  lemma FitMeans(x: Ctx, numEvent: nat, i: nat)
    requires Sound(x) && CallerRoom(x.g, x.a, x.v.sig.rank, x.v.sig.flag, x.v.size, numEvent)
    requires IsMessage(x, i) && LandsHere(x, i)
    ensures DstAddr(Whole(x, i)) + Whole(x, i).size <= x.v.size
  {
    LandsMeans(x, i);
  }

  lemma ApartMeans(x: Ctx, numEvent: nat, i: nat, l: nat)
    requires Sound(x) && CallerRoom(x.g, x.a, x.v.sig.rank, x.v.sig.flag, x.v.size, numEvent) && i != l
    requires IsMessage(x, i) && LandsHere(x, i) && IsMessage(x, l) && LandsHere(x, l)
    ensures ApartFrom(Whole(x, i), Whole(x, l))
  {
    LandsMeans(x, i);
    LandsMeans(x, l);
  }

  lemma CountMeans(x: Ctx)
    requires Sound(x)
    ensures |Ends(x)| == |RemoteFor(x.a, |x.a.loc|, x.v.sig.rank, x.v.sig.flag)|
                         + |LocalFor(x.a, |x.a.loc|, x.v.sig.rank, x.v.sig.flag)|
  {
    EndsCount(x);
    RemoteCount(x.a, |x.a.loc|, x.v.sig.rank, x.v.sig.flag);
    LocalCount(x.a, |x.a.loc|, x.v.sig.rank, x.v.sig.flag);
  }

  lemma RoomMeans(x: Ctx, numEvent: nat)
    requires Sound(x) && CallerRoom(x.g, x.a, x.v.sig.rank, x.v.sig.flag, x.v.size, numEvent)
    requires T.SumMore(BookOf(x, Ends(x)).fs) < 0x8000_0000
    ensures Room(x, numEvent)
  {
    CountMeans(x);
    forall i | IsMessage(x, i) && LandsHere(x, i) ensures DstAddr(Whole(x, i)) + Whole(x, i).size <= x.v.size {
      FitMeans(x, numEvent, i);
    }
    forall i, l | IsMessage(x, i) && LandsHere(x, i) && IsMessage(x, l) && LandsHere(x, l) && i != l
      ensures ApartFrom(Whole(x, i), Whole(x, l))
    {
      ApartMeans(x, numEvent, i, l);
    }
  }

  /** Every entry that names flag f of rank r at an end has been counted there. */
  ghost predicate EntriesCounted(lists: seq<seq<Piece>>, r: nat, f: nat, counted: set<Ev>) {
    forall id: nat, k: nat :: id < |lists| && k < |lists[id]| ==>
      && (lists[id][k].rmtMem.rank == r && lists[id][k].rmtFlag == f ==> Ev(id, k, true) in counted)
      && (lists[id][k].locMem.rank == r && lists[id][k].locFlag == f ==> Ev(id, k, false) in counted)
  }

  lemma CountedMeans(v: View, s: State)
    ensures AllCounted(v, s) <==> EntriesCounted(v.lists, v.sig.rank, v.sig.flag, s.counted)
  {
    if AllCounted(v, s) {
      forall id: nat, k: nat | id < |v.lists| && k < |v.lists[id]|
        ensures v.lists[id][k].rmtMem.rank == v.sig.rank && v.lists[id][k].rmtFlag == v.sig.flag ==> Ev(id, k, true) in s.counted
        ensures v.lists[id][k].locMem.rank == v.sig.rank && v.lists[id][k].locFlag == v.sig.flag ==> Ev(id, k, false) in s.counted
      {
        assert IsEntry(v, Ev(id, k, true)) && IsEntry(v, Ev(id, k, false));
      }
    }
    if EntriesCounted(v.lists, v.sig.rank, v.sig.flag, s.counted) {
      forall e | IsEntry(v, e) && Counts(v, e) ensures e in s.counted {
        assert e == Ev(e.id, e.k, e.remote);
      }
    }
  }

  /** A plan as built that is seen from flag f of rank r, with room for what arrives there. */
  ghost predicate CallerPlan(x: Ctx, r: nat, f: nat, numEvent: nat) {
    && Sound(x) && x.v.sig == Sig(r, f) && CallerRoom(x.g, x.a, r, f, x.v.size, numEvent)
    && T.SumMore(BookOf(x, Ends(x)).fs) < 0x8000_0000
  }

  /** A plan as built, its entries carried out and counted in any order: flag f of rank r is triggered
      exactly when as many message ends of the caller as expected are for it and every entry that names
      it has been counted. */
  lemma TriggeredForCaller(x: Ctx, r: nat, f: nat, numEvent: nat, run: seq<State>, k: nat)
    requires CallerPlan(x, r, f, numEvent) && IsRun(x.v, numEvent, run) && k < |run|
    ensures run[k].counter == 0 <==>
              && |RemoteFor(x.a, |x.a.loc|, r, f)| + |LocalFor(x.a, |x.a.loc|, r, f)| == numEvent
              && EntriesCounted(x.v.lists, r, f, run[k].counted)
  {
    RoomMeans(x, numEvent);
    TriggeredMeansPlanDelivered(x, numEvent, run, k);
    CountedMeans(x.v, run[k]);
    RemoteCount(x.a, |x.a.loc|, r, f);
    LocalCount(x.a, |x.a.loc|, r, f);
  }

  lemma MessageDelivered(x: Ctx, r: nat, f: nat, numEvent: nat, run: seq<State>, k: nat, i: nat)
    requires CallerPlan(x, r, f, numEvent) && IsRun(x.v, numEvent, run) && k < |run| && run[k].counter == 0
    requires IsMessage(x, i) && Reports(x, End(i, DmaOf(x.a, i).Put?))
    ensures Delivered(x, i, run[k].mem)
  {
    RoomMeans(x, numEvent);
    TriggeredMeansPlanDelivered(x, numEvent, run, k);
  }

  lemma DeliveredByte(x: Ctx, i: nat, mem: seq<T.byte>, b: nat)
    requires Sound(x) && IsMessage(x, i) && Delivered(x, i, mem) && b < Whole(x, i).size
    ensures var p := Whole(x, i);
            DstAddr(p) + b < |mem| && mem[DstAddr(p) + b] == x.v.src(SrcRank(p), SrcAddr(p) + b)
  {
    var p := Whole(x, i);
    assert mem[DstAddr(p)..DstAddr(p) + p.size][b] == BytesOf(x.v.src, p)[b];
  }

  lemma PutEnd(x: Ctx, i: nat)
    requires Sound(x) && PutAt(x.a, i)
    requires x.a.rmt[i].rank == x.v.sig.rank && RemoteFlagIs(x.a, i, true, x.v.sig.flag)
    ensures Accepted(x.t, x.g, x.a, i) && IsMessage(x, i) && Reports(x, End(i, DmaOf(x.a, i).Put?))
    ensures var p := Whole(x, i);
            && p.size == Length(x.a, i) && DstAddr(p) == RemoteAddr(x.g, x.a, i)
            && SrcRank(p) == x.a.loc[i].rank && SrcAddr(p) == LocalAddr(x.g, x.a, i)
  {
    MessageAccepted(x.t, x.g, x.a, i);
    assert Admissible(x.t, x.g, x.a, i);
  }

  lemma GetEnd(x: Ctx, i: nat)
    requires Sound(x) && GetAt(x.a, i)
    requires x.a.loc[i].rank == x.v.sig.rank && LocalFlagIs(x.a, i, false, x.v.sig.flag)
    ensures Accepted(x.t, x.g, x.a, i) && IsMessage(x, i) && Reports(x, End(i, DmaOf(x.a, i).Put?))
    ensures var p := Whole(x, i);
            && p.size == Length(x.a, i) && DstAddr(p) == LocalAddr(x.g, x.a, i)
            && SrcRank(p) == x.a.rmt[i].rank && SrcAddr(p) == RemoteAddr(x.g, x.a, i)
  {
    MessageAccepted(x.t, x.g, x.a, i);
    assert Admissible(x.t, x.g, x.a, i);
  }

  /** Once the flag is triggered, each byte of each PUT for it stands in the memory of rank r where the
      remote part of the message is, and is the byte of the local part. */
  lemma PutByteDelivered(x: Ctx, r: nat, f: nat, numEvent: nat, run: seq<State>, k: nat, i: nat, b: nat)
    requires CallerPlan(x, r, f, numEvent) && IsRun(x.v, numEvent, run) && k < |run| && run[k].counter == 0
    requires PutAt(x.a, i) && x.a.rmt[i].rank == r && RemoteFlagIs(x.a, i, true, f) && b < Length(x.a, i)
    ensures Accepted(x.t, x.g, x.a, i)
    ensures var H, L := x.g.rmt[r][x.a.rmt[i].memIdx], x.g.loc[x.a.loc[i].memIdx];
            var to := H.addr + x.a.rmt[i].offset + if x.a.rmtOff.Some? then x.a.rmtOff.value[i] else 0;
            var from := L.addr + x.a.loc[i].offset + if x.a.locOff.Some? then x.a.locOff.value[i] else 0;
            to + b < |run[k].mem| && run[k].mem[to + b] == x.v.src(x.a.loc[i].rank, from + b)
  {
    PutEnd(x, i);
    MessageDelivered(x, r, f, numEvent, run, k, i);
    DeliveredByte(x, i, run[k].mem, b);
  }

  /** And each byte of each GET for it stands where the local part is, and is the byte of the remote
      part. */
  lemma GetByteDelivered(x: Ctx, r: nat, f: nat, numEvent: nat, run: seq<State>, k: nat, i: nat, b: nat)
    requires CallerPlan(x, r, f, numEvent) && IsRun(x.v, numEvent, run) && k < |run| && run[k].counter == 0
    requires GetAt(x.a, i) && x.a.loc[i].rank == r && LocalFlagIs(x.a, i, false, f) && b < Length(x.a, i)
    ensures Accepted(x.t, x.g, x.a, i)
    ensures var H, L := x.g.rmt[x.a.rmt[i].rank][x.a.rmt[i].memIdx], x.g.loc[x.a.loc[i].memIdx];
            var to := L.addr + x.a.loc[i].offset + if x.a.locOff.Some? then x.a.locOff.value[i] else 0;
            var from := H.addr + x.a.rmt[i].offset + if x.a.rmtOff.Some? then x.a.rmtOff.value[i] else 0;
            to + b < |run[k].mem| && run[k].mem[to + b] == x.v.src(x.a.rmt[i].rank, from + b)
  {
    GetEnd(x, i);
    MessageDelivered(x, r, f, numEvent, run, k, i);
    DeliveredByte(x, i, run[k].mem, b);
  }
}
