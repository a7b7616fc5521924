/** Runs of a plan as built: whatever order the entries of its channel lists are carried out and
    counted in, a triggered signal means that the messages of the plan that report to it have been
    delivered (src/unr/base/unr_blk.c:395-469, src/uri/mpi/uri_mpi_channel.c:233-242). */
module PlanRun {
  import opened Split
  import opened Signal
  import opened Plan
  import opened Delivery
  import opened EntryRun
  import T = Transfer

  // ---------- entries of the lists and the messages they belong to ----------

  lemma {:induction false} ListGrows(t: Topology, g: Registry, a: Args, intra: bool, j: nat, i: nat, m: nat)
    requires ValidTopology(t) && ValidArgs(a) && i <= m <= |a.loc| && AdmissibleTo(t, g, a, m) && j < Channels(t, intra)
    ensures AdmissibleTo(t, g, a, i) && ChannelList(t, g, a, intra, j, i) <= ChannelList(t, g, a, intra, j, m)
    decreases m
  {
    if i < m { ListGrows(t, g, a, intra, j, i, m - 1); }
  }

  /** Every entry of a list is the piece of a message, and stands where the earlier messages end. */
  lemma {:induction false} OwnerOf(t: Topology, g: Registry, a: Args, intra: bool, j: nat, m: nat, k: nat)
    returns (i: nat)
    requires ValidTopology(t) && ValidArgs(a) && m <= |a.loc| && AdmissibleTo(t, g, a, m) && j < Channels(t, intra)
    requires k < |ChannelList(t, g, a, intra, j, m)|
    ensures i < m && HasPiece(t, a, intra, j, i) && AdmissibleTo(t, g, a, i) && Admissible(t, g, a, i)
    ensures |ChannelList(t, g, a, intra, j, i)| == k
    ensures ChannelList(t, g, a, intra, j, m)[k] == PieceOf(t, g, a, j, i)
    decreases m
  {
    if k < |ChannelList(t, g, a, intra, j, m - 1)| {
      i := OwnerOf(t, g, a, intra, j, m - 1, k);
    } else {
      i := m - 1;
      assert Admissible(t, g, a, i);
    }
  }

  /** Two messages never stand at the same place of a list. */
  lemma OneOwner(t: Topology, g: Registry, a: Args, intra: bool, j: nat, i: nat, l: nat)
    requires ValidTopology(t) && ValidArgs(a) && AllAdmissible(t, g, a) && j < Channels(t, intra)
    requires i < l < |a.loc| && HasPiece(t, a, intra, j, i)
    ensures AdmissibleTo(t, g, a, i) && AdmissibleTo(t, g, a, l)
    ensures |ChannelList(t, g, a, intra, j, i)| < |ChannelList(t, g, a, intra, j, l)|
  {
    assert Admissible(t, g, a, i);
    ListGrows(t, g, a, intra, j, i + 1, l);
    assert |ChannelList(t, g, a, intra, j, i + 1)| == |ChannelList(t, g, a, intra, j, i)| + 1;
  }

  // ---------- a plan, seen from one signal ----------

  datatype Ctx = Ctx(t: Topology, g: Registry, a: Args, v: View)

  /** One end of message i. */
  datatype End = End(i: nat, remote: bool)

  /** The lists are those of a plan as built. */
  ghost predicate Sound(x: Ctx) {
    && ValidTopology(x.t) && ValidArgs(x.a) && AllAdmissible(x.t, x.g, x.a) && RanksRight(x.t, x.g)
    && Built(x.t, x.g, x.a, x.v.lists, |x.a.loc|)
  }

  predicate IsMessage(x: Ctx, i: nat)
    requires ValidArgs(x.a)
  {
    i < |x.a.loc| && SizeOf(x.a, i) > 0
  }

  /** The message in one piece. */
  function Whole(x: Ctx, i: nat): (p: Piece)
    requires Sound(x) && IsMessage(x, i)
    ensures p.size == SizeOf(x.a, i) && p.dma == DmaOf(x.a, i)
  {
    assert Admissible(x.t, x.g, x.a, i);
    Piece(x.g.loc[x.a.loc[i].memIdx], x.g.rmt[x.a.rmt[i].rank][x.a.rmt[i].memIdx], 0,
          LocStart(x.a, i), RmtStart(x.a, i), SizeOf(x.a, i), DmaOf(x.a, i), LocFlag(x.a, i), RmtFlag(x.a, i), -1)
  }

  /** The place of message i on the list of channel j of its class, if it has a piece there. */
  function EvOf(x: Ctx, i: nat, j: nat, remote: bool): Ev
    requires Sound(x) && IsMessage(x, i) && j < Channels(x.t, IsIntra(x.t, x.a, i))
  {
    var intra := IsIntra(x.t, x.a, i);
    Ev(Slot(x.t, intra, j), |ChannelList(x.t, x.g, x.a, intra, j, i)|, remote)
  }

  lemma EvApart(x: Ctx, i: nat, j: nat, l: nat, m: nat, remote: bool)
    requires Sound(x) && IsMessage(x, i) && IsMessage(x, l)
    requires j < Channels(x.t, IsIntra(x.t, x.a, i)) && m < Channels(x.t, IsIntra(x.t, x.a, l))
    requires Cut(x.t, x.a, i)[j] > 0 && Cut(x.t, x.a, l)[m] > 0
    ensures EvOf(x, i, j, remote) == EvOf(x, l, m, remote) <==> i == l && j == m
  {
    if IsIntra(x.t, x.a, i) == IsIntra(x.t, x.a, l) && j == m {
      if i < l { OneOwner(x.t, x.g, x.a, IsIntra(x.t, x.a, i), j, i, l); }
      if l < i { OneOwner(x.t, x.g, x.a, IsIntra(x.t, x.a, i), j, l, i); }
    }
  }

  /** Every entry belongs to a message. */
  lemma EntryOwner(x: Ctx, e: Ev) returns (i: nat, j: nat)
    requires Sound(x) && IsEntry(x.v, e)
    ensures IsMessage(x, i) && j < |Cut(x.t, x.a, i)| && Cut(x.t, x.a, i)[j] > 0
    ensures EvOf(x, i, j, e.remote) == e
    ensures Admissible(x.t, x.g, x.a, i) && Entry(x.v, e) == PieceOf(x.t, x.g, x.a, j, i)
  {
    var intra := e.id >= x.t.inter;
    j := if intra then e.id - x.t.inter else e.id;
    assert x.v.lists[Slot(x.t, intra, j)] == ChannelList(x.t, x.g, x.a, intra, j, |x.a.loc|);
    i := OwnerOf(x.t, x.g, x.a, intra, j, |x.a.loc|, e.k);
  }

  /** And every non-empty piece of a message is an entry. */
  lemma OwnedEntry(x: Ctx, i: nat, j: nat, remote: bool)
    requires Sound(x) && IsMessage(x, i) && j < |Cut(x.t, x.a, i)| && Cut(x.t, x.a, i)[j] > 0
    ensures Admissible(x.t, x.g, x.a, i)
    ensures var e := EvOf(x, i, j, remote); IsEntry(x.v, e) && Entry(x.v, e) == PieceOf(x.t, x.g, x.a, j, i)
  {
    var intra := IsIntra(x.t, x.a, i);
    assert Admissible(x.t, x.g, x.a, i);
    assert x.v.lists[Slot(x.t, intra, j)] == ChannelList(x.t, x.g, x.a, intra, j, |x.a.loc|);
    ListGrows(x.t, x.g, x.a, intra, j, i + 1, |x.a.loc|);
  }

  /** A piece moves its share of the message to its place, with the increment of its share. */
  lemma PieceInMessage(x: Ctx, i: nat, j: nat, remote: bool)
    requires Sound(x) && IsMessage(x, i) && j < |Cut(x.t, x.a, i)| && Cut(x.t, x.a, i)[j] > 0
    ensures Admissible(x.t, x.g, x.a, i)
    ensures PartOf(x.v.src, PieceOf(x.t, x.g, x.a, j, i), Whole(x, i), Cut(x.t, x.a, i), j)
    ensures SigOf(PieceOf(x.t, x.g, x.a, j, i), remote) == SigOf(Whole(x, i), remote)
  {
    assert Admissible(x.t, x.g, x.a, i);
    PiecesMakeMessage(x.t, x.a, i);
    PrefixMonotone(Cut(x.t, x.a, i), j + 1, |Cut(x.t, x.a, i)|);
    BytesOfPart(x.v.src, PieceOf(x.t, x.g, x.a, j, i), Whole(x, i), Prefix(Cut(x.t, x.a, i), j));
  }

  ghost predicate PartOf(src: (nat, nat) -> T.byte, p: Piece, whole: Piece, s: seq<nat>, j: nat)
    requires j < |s|
  {
    var off := Prefix(s, j);
    && p.dma == whole.dma && p.size == s[j] && p.add == SigAdd(s, j)
    && DstAddr(p) == DstAddr(whole) + off && Carries(src, p, BytesOf(src, whole), off)
  }

  lemma BytesOfPart(src: (nat, nat) -> T.byte, p: Piece, whole: Piece, off: nat)
    requires p.dma == whole.dma && p.locMem == whole.locMem && p.rmtMem == whole.rmtMem
    requires p.locOff == whole.locOff + off && p.rmtOff == whole.rmtOff + off && off + p.size <= whole.size
    ensures Carries(src, p, BytesOf(src, whole), off)
  {
    BytesWithin(src, SrcRank(whole), SrcAddr(whole), whole.size, off, p.size);
  }

  // ---------- the ends that report to the signal ----------

  predicate Reports(x: Ctx, e: End)
    requires Sound(x)
  {
    IsMessage(x, e.i) && SigOf(Whole(x, e.i), e.remote) == x.v.sig
  }

  /** For each message, whether its local and its remote end report to the signal. */
  function Tags(x: Ctx): (tags: seq<(bool, bool)>)
    requires Sound(x)
    ensures |tags| == |x.a.loc|
  {
    seq(|x.a.loc|, i requires 0 <= i < |x.a.loc| => (Reports(x, End(i, false)), Reports(x, End(i, true))))
  }

  predicate Tagged(tags: seq<(bool, bool)>, e: End) {
    e.i < |tags| && if e.remote then tags[e.i].1 else tags[e.i].0
  }

  function EndsOf(tags: seq<(bool, bool)>, m: nat): seq<End>
    requires m <= |tags|
  {
    if m == 0 then []
    else EndsOf(tags, m - 1)
         + (if tags[m - 1].0 then [End(m - 1, false)] else [])
         + (if tags[m - 1].1 then [End(m - 1, true)] else [])
  }

  lemma {:induction false} EndsFacts(tags: seq<(bool, bool)>, m: nat)
    requires m <= |tags|
    ensures forall e :: e in EndsOf(tags, m) <==> e.i < m && Tagged(tags, e)
    ensures forall q, r :: 0 <= q < r < |EndsOf(tags, m)| ==> EndsOf(tags, m)[q] != EndsOf(tags, m)[r]
  {
    if m > 0 {
      EndsFacts(tags, m - 1);
      var init := EndsOf(tags, m - 1);
      forall q | 0 <= q < |init| ensures init[q].i < m - 1 { assert init[q] in init; }
    }
  }

  function CountTags(tags: seq<(bool, bool)>, m: nat, remote: bool): nat
    requires m <= |tags|
  {
    if m == 0 then 0 else CountTags(tags, m - 1, remote) + if Tagged(tags, End(m - 1, remote)) then 1 else 0
  }

  lemma {:induction false} EndsLength(tags: seq<(bool, bool)>, m: nat)
    requires m <= |tags|
    ensures |EndsOf(tags, m)| == CountTags(tags, m, false) + CountTags(tags, m, true)
  {
    if m > 0 { EndsLength(tags, m - 1); }
  }

  lemma {:induction false} TagsAreMessages(x: Ctx, tags: seq<(bool, bool)>, m: nat, remote: bool)
    requires ValidArgs(x.a) && m <= |tags| == |x.a.loc|
    requires forall i: nat {:trigger SizeOf(x.a, i)} :: i < |tags| ==>
               (Tagged(tags, End(i, remote)) <==> SizeOf(x.a, i) > 0 && SigFor(x.a, i, remote) == x.v.sig)
    ensures CountTags(tags, m, remote) == Messages(x.a, m, x.v.sig, remote)
  {
    if m > 0 {
      TagsAreMessages(x, tags, m - 1, remote);
      assert SizeOf(x.a, m - 1) >= 0;
    }
  }

  /** There are as many as messages that report, end by end. */
  lemma EndsCount(x: Ctx)
    requires Sound(x)
    ensures |Ends(x)| == Messages(x.a, |x.a.loc|, x.v.sig, false) + Messages(x.a, |x.a.loc|, x.v.sig, true)
  {
    forall i: nat, remote: bool | i < |x.a.loc|
      ensures Tagged(Tags(x), End(i, remote)) <==> SizeOf(x.a, i) > 0 && SigFor(x.a, i, remote) == x.v.sig
    {
      TagIsMessage(x, i, remote);
    }
    EndsLength(Tags(x), |x.a.loc|);
    TagsAreMessages(x, Tags(x), |x.a.loc|, false);
    TagsAreMessages(x, Tags(x), |x.a.loc|, true);
  }

  lemma TagIsMessage(x: Ctx, i: nat, remote: bool)
    requires Sound(x) && i < |x.a.loc|
    ensures Tagged(Tags(x), End(i, remote)) == Reports(x, End(i, remote))
    ensures Reports(x, End(i, remote)) <==> SizeOf(x.a, i) > 0 && SigFor(x.a, i, remote) == x.v.sig
  {
    assert Admissible(x.t, x.g, x.a, i);
  }

  ghost predicate AllReport(x: Ctx, es: seq<End>)
    requires Sound(x)
  {
    forall q :: 0 <= q < |es| ==> Reports(x, es[q])
  }

  lemma EndsReport(x: Ctx)
    requires Sound(x)
    ensures AllReport(x, EndsOf(Tags(x), |x.a.loc|))
    ensures forall e :: Reports(x, e) ==> e in EndsOf(Tags(x), |x.a.loc|)
  {
    EndsFacts(Tags(x), |x.a.loc|);
    var es := EndsOf(Tags(x), |x.a.loc|);
    forall q | 0 <= q < |es| ensures Reports(x, es[q]) {
      assert es[q] in es;
      TagIsMessage(x, es[q].i, es[q].remote);
    }
    forall e | Reports(x, e) ensures e in es { TagIsMessage(x, e.i, e.remote); }
  }

  function Ends(x: Ctx): (es: seq<End>)
    requires Sound(x)
    ensures AllReport(x, es)
  {
    EndsReport(x);
    EndsOf(Tags(x), |x.a.loc|)
  }

  // ---------- the book of a plan ----------

  function ClassOf(x: Ctx, i: nat): T.Class
    requires Sound(x) && IsMessage(x, i)
  {
    T.Class(Channels(x.t, IsIntra(x.t, x.a, i)), BlockSize(x.t, IsIntra(x.t, x.a, i)))
  }

  function CursorOf(x: Ctx, i: nat): nat
    requires Sound(x) && IsMessage(x, i)
  {
    Cursor(x.t, x.a, IsIntra(x.t, x.a, i), i)
  }

  function FlightOf(x: Ctx, e: End): (f: T.Flight)
    requires Sound(x) && IsMessage(x, e.i)
    ensures f.shares == Cut(x.t, x.a, e.i)
  {
    var p := Whole(x, e.i);
    T.NewFlight(ClassOf(x, e.i), Arrives(p, e.remote), DstAddr(p), BytesOf(x.v.src, p), CursorOf(x, e.i))
  }

  function EntriesOf(x: Ctx, e: End): seq<Ev>
    requires Sound(x) && IsMessage(x, e.i)
  {
    seq(Channels(x.t, IsIntra(x.t, x.a, e.i)),
        j requires 0 <= j < Channels(x.t, IsIntra(x.t, x.a, e.i)) => EvOf(x, e.i, j, e.remote))
  }

  function BookOf(x: Ctx, es: seq<End>): (b: Book)
    requires Sound(x) && AllReport(x, es)
    ensures Shaped(b) && |b.fs| == |es|
  {
    Book(seq(|es|, q requires 0 <= q < |es| => FlightOf(x, es[q])),
         seq(|es|, q requires 0 <= q < |es| => EntriesOf(x, es[q])),
         seq(|es|, q requires 0 <= q < |es| => ClassOf(x, es[q].i)),
         seq(|es|, q requires 0 <= q < |es| => CursorOf(x, es[q].i)))
  }

  /** The bytes of message i arrive in the memory of the signal's rank. */
  predicate LandsHere(x: Ctx, i: nat)
    requires Sound(x) && IsMessage(x, i)
  {
    SigOf(Whole(x, i), DmaOf(x.a, i).Put?).rank == x.v.sig.rank
  }

  ghost predicate ApartFrom(p: Piece, q: Piece) {
    DstAddr(p) + p.size <= DstAddr(q) || DstAddr(q) + q.size <= DstAddr(p)
  }

  /** The rules for the caller: what arrives in the memory of the signal's rank fits in and does not
      overlap; the signal expects no fewer messages than report to it; and fewer than 2^31 pieces
      beyond the first of each message. */
  ghost predicate Room(x: Ctx, numEvent: nat)
    requires Sound(x)
  {
    && 0 < numEvent < TWO31 && |Ends(x)| <= numEvent && T.SumMore(BookOf(x, Ends(x)).fs) < TWO31
    && (forall i :: IsMessage(x, i) && LandsHere(x, i) ==> DstAddr(Whole(x, i)) + Whole(x, i).size <= x.v.size)
    && (forall i, l :: IsMessage(x, i) && LandsHere(x, i) && IsMessage(x, l) && LandsHere(x, l) && i != l ==>
          ApartFrom(Whole(x, i), Whole(x, l)))
  }

  /** Where an end that reports stands in the book. */
  lemma EndAt(x: Ctx, e: End) returns (q: nat)
    requires Sound(x) && Reports(x, e)
    ensures q < |Ends(x)| && Ends(x)[q] == e
  {
    EndsReport(x);
    q :| 0 <= q < |Ends(x)| && Ends(x)[q] == e;
  }

  lemma EndsDiffer(x: Ctx, q: nat, r: nat)
    requires Sound(x) && q < |Ends(x)| && r < |Ends(x)|
    ensures Ends(x)[q] == Ends(x)[r] <==> q == r
  {
    EndsFacts(Tags(x), |x.a.loc|);
  }

  lemma PartMatches(v: View, p: Piece, whole: Piece, remote: bool, f: T.Flight, j: nat)
    requires j < |f.shares| && PartOf(v.src, p, whole, f.shares, j)
    requires f.here == Arrives(whole, remote) && f.dst == DstAddr(whole) && f.data == BytesOf(v.src, whole)
    requires f.here ==> DstAddr(whole) + whole.size <= v.size
    ensures Matches(v, p, remote, f, j)
  {
  }

  lemma HereApart(x: Ctx, numEvent: nat, i: nat, l: nat)
    requires Sound(x) && Room(x, numEvent) && IsMessage(x, i) && IsMessage(x, l) && i != l
    requires LandsHere(x, i) && LandsHere(x, l)
    ensures ApartFrom(Whole(x, i), Whole(x, l))
  {
  }

  /** An end that reports and where bytes arrive is where its message lands. */
  lemma EndLands(x: Ctx, e: End)
    requires Sound(x) && Reports(x, e) && Arrives(Whole(x, e.i), e.remote)
    ensures LandsHere(x, e.i) && e.remote == DmaOf(x.a, e.i).Put?
  {
  }

  lemma FlightsOfPieces(l: T.Class, m: T.Class, src: (nat, nat) -> T.byte, p: Piece, q: Piece, here: bool, there: bool,
                        cur: nat, cus: nat)
    requires l.block > 0 && cur < l.channels && m.block > 0 && cus < m.channels && ApartFrom(p, q)
    ensures T.Disjoint(T.NewFlight(l, here, DstAddr(p), BytesOf(src, p), cur),
                       T.NewFlight(m, there, DstAddr(q), BytesOf(src, q), cus))
  {
  }

  lemma FitsHere(x: Ctx, numEvent: nat, e: End)
    requires Sound(x) && Room(x, numEvent) && Reports(x, e) && Arrives(Whole(x, e.i), e.remote)
    ensures DstAddr(Whole(x, e.i)) + Whole(x, e.i).size <= x.v.size
  {
    EndLands(x, e);
  }

  lemma EndMatches(x: Ctx, numEvent: nat, e: End, j: nat)
    requires Sound(x) && Room(x, numEvent) && Reports(x, e) && j < |Cut(x.t, x.a, e.i)| && Cut(x.t, x.a, e.i)[j] > 0
    ensures var v := EvOf(x, e.i, j, e.remote);
            && IsEntry(x.v, v) && Counts(x.v, v)
            && Matches(x.v, Entry(x.v, v), e.remote, FlightOf(x, e), j)
  {
    OwnedEntry(x, e.i, j, e.remote);
    PieceInMessage(x, e.i, j, e.remote);
    var whole := Whole(x, e.i);
    if Arrives(whole, e.remote) { FitsHere(x, numEvent, e); }
    PartMatches(x.v, PieceOf(x.t, x.g, x.a, j, e.i), whole, e.remote, FlightOf(x, e), j);
  }

  lemma KeepsPiece(x: Ctx, numEvent: nat, q: nat, j: nat)
    requires Sound(x) && Room(x, numEvent) && IsPiece(BookOf(x, Ends(x)), q, j)
    ensures PieceKept(x.v, BookOf(x, Ends(x)), q, j)
  {
    var e := Ends(x)[q];
    assert Reports(x, e);
    EndMatches(x, numEvent, e, j);
    assert BookOf(x, Ends(x)).at[q][j] == EvOf(x, e.i, j, e.remote);
  }

  lemma KeepsApart(x: Ctx, numEvent: nat, q: nat, j: nat, r: nat, m: nat)
    requires Sound(x) && Room(x, numEvent)
    requires var b := BookOf(x, Ends(x)); IsPiece(b, q, j) && IsPiece(b, r, m) && b.at[q][j] == b.at[r][m]
    ensures q == r && j == m
  {
    var es := Ends(x);
    assert Reports(x, es[q]) && Reports(x, es[r]);
    assert EvOf(x, es[q].i, j, es[q].remote) == EvOf(x, es[r].i, m, es[r].remote);
    EvApart(x, es[q].i, j, es[r].i, m, es[q].remote);
    EndsDiffer(x, q, r);
  }

  /** An entry that reports to the signal belongs to an end that does. */
  lemma EntryReports(x: Ctx, e: Ev) returns (i: nat, j: nat)
    requires Sound(x) && IsEntry(x.v, e) && Counts(x.v, e)
    ensures Reports(x, End(i, e.remote)) && j < |Cut(x.t, x.a, i)| && Cut(x.t, x.a, i)[j] > 0
    ensures EvOf(x, i, j, e.remote) == e
  {
    i, j := EntryOwner(x, e);
    PieceInMessage(x, i, j, e.remote);
  }

  lemma KeepsEntry(x: Ctx, numEvent: nat, e: Ev)
    requires Sound(x) && IsEntry(x.v, e) && Counts(x.v, e)
    ensures Placed(BookOf(x, Ends(x)), e)
  {
    var i, j := EntryReports(x, e);
    var q := EndAt(x, End(i, e.remote));
    var b := BookOf(x, Ends(x));
    assert b.fs[q] == FlightOf(x, Ends(x)[q]) && b.at[q] == EntriesOf(x, Ends(x)[q]);
    assert IsPiece(b, q, j) && b.at[q][j] == e;
  }

  /** Part of a message does not touch what the whole message does not touch. */
  lemma PartClear(v: View, e: Ev, whole: Piece, s: seq<nat>, j: nat, f: T.Flight, q: Piece)
    requires IsEntry(v, e) && j < |s| && PartOf(v.src, Entry(v, e), whole, s, j) && ApartFrom(whole, q)
    requires f.dst == DstAddr(q) && |f.data| == q.size
    ensures Clear(v, e, f)
  {
  }

  /** An entry that lands without reporting belongs to another message than any end that reports
      where bytes arrive. */
  lemma OtherMessage(x: Ctx, e: Ev, o: End) returns (i: nat, j: nat)
    requires Sound(x) && IsEntry(x.v, e) && Lands(x.v, e) && !Counts(x.v, e)
    requires Reports(x, o) && Arrives(Whole(x, o.i), o.remote)
    ensures IsMessage(x, i) && LandsHere(x, i) && i != o.i && j < |Cut(x.t, x.a, i)|
    ensures PartOf(x.v.src, Entry(x.v, e), Whole(x, i), Cut(x.t, x.a, i), j)
  {
    i, j := EntryOwner(x, e);
    PieceInMessage(x, i, j, e.remote);
    EndLands(x, o);
  }

  lemma KeepsClear(x: Ctx, numEvent: nat, e: Ev, o: End)
    requires Sound(x) && Room(x, numEvent) && IsEntry(x.v, e) && Lands(x.v, e) && !Counts(x.v, e) && Reports(x, o)
    ensures Clear(x.v, e, FlightOf(x, o))
  {
    if Arrives(Whole(x, o.i), o.remote) {
      var i, j := OtherMessage(x, e, o);
      EndLands(x, o);
      HereApart(x, numEvent, i, o.i);
      PartClear(x.v, e, Whole(x, i), Cut(x.t, x.a, i), j, FlightOf(x, o), Whole(x, o.i));
    }
  }

  lemma BookIsKept(x: Ctx, numEvent: nat)
    requires Sound(x) && Room(x, numEvent)
    ensures Kept(x.v, BookOf(x, Ends(x)))
  {
    var b := BookOf(x, Ends(x));
    forall q, j | IsPiece(b, q, j) ensures PieceKept(x.v, b, q, j) { KeepsPiece(x, numEvent, q, j); }
    forall q, j, r, m | IsPiece(b, q, j) && IsPiece(b, r, m) && b.at[q][j] == b.at[r][m] ensures q == r && j == m {
      KeepsApart(x, numEvent, q, j, r, m);
    }
    forall e | IsEntry(x.v, e) && Counts(x.v, e) ensures Placed(b, e) { KeepsEntry(x, numEvent, e); }
    forall e, q: int | IsEntry(x.v, e) && Lands(x.v, e) && !Counts(x.v, e) && 0 <= q < |b.fs|
      ensures Clear(x.v, e, b.fs[q])
    {
      assert Reports(x, Ends(x)[q]);
      KeepsClear(x, numEvent, e, Ends(x)[q]);
    }
  }

  lemma StartsPiece(x: Ctx, numEvent: nat, q: nat)
    requires Sound(x) && Room(x, numEvent) && q < |Ends(x)|
    ensures var b := BookOf(x, Ends(x));
            Startable(b, q) && (b.fs[q].here ==> b.fs[q].dst + |b.fs[q].data| <= x.v.size)
  {
    var e := Ends(x)[q];
    assert Reports(x, e);
    if Arrives(Whole(x, e.i), e.remote) { FitsHere(x, numEvent, e); }
  }

  lemma FlightsApart(x: Ctx, numEvent: nat, e: End, f: End)
    requires Sound(x) && Room(x, numEvent) && Reports(x, e) && Reports(x, f) && e != f
    ensures T.Disjoint(FlightOf(x, e), FlightOf(x, f))
  {
    var p, q := Whole(x, e.i), Whole(x, f.i);
    if Arrives(p, e.remote) && Arrives(q, f.remote) {
      EndLands(x, e);
      EndLands(x, f);
      HereApart(x, numEvent, e.i, f.i);
      FlightsOfPieces(ClassOf(x, e.i), ClassOf(x, f.i), x.v.src, p, q, true, true, CursorOf(x, e.i), CursorOf(x, f.i));
    }
  }

  lemma StartsApart(x: Ctx, numEvent: nat, q: nat, r: nat)
    requires Sound(x) && Room(x, numEvent) && q < r < |Ends(x)|
    ensures T.Disjoint(BookOf(x, Ends(x)).fs[q], BookOf(x, Ends(x)).fs[r])
  {
    assert Reports(x, Ends(x)[q]) && Reports(x, Ends(x)[r]);
    EndsDiffer(x, q, r);
    FlightsApart(x, numEvent, Ends(x)[q], Ends(x)[r]);
  }

  lemma BookIsAdmitted(x: Ctx, numEvent: nat)
    requires Sound(x) && Room(x, numEvent)
    ensures Admitted(x.v, BookOf(x, Ends(x)), numEvent)
  {
    var b := BookOf(x, Ends(x));
    forall q: int | 0 <= q < |b.fs|
      ensures Startable(b, q) && (b.fs[q].here ==> b.fs[q].dst + |b.fs[q].data| <= x.v.size)
    {
      StartsPiece(x, numEvent, q);
    }
    forall q: int, r: int | 0 <= q < r < |b.fs| ensures T.Disjoint(b.fs[q], b.fs[r]) { StartsApart(x, numEvent, q, r); }
  }

  // ---------- the theorem ----------

  /** The message is in the memory of the signal's rank, byte for byte. */
  ghost predicate Delivered(x: Ctx, i: nat, mem: seq<T.byte>)
    requires Sound(x) && IsMessage(x, i)
  {
    var p := Whole(x, i);
    DstAddr(p) + p.size <= |mem| && mem[DstAddr(p)..DstAddr(p) + p.size] == BytesOf(x.v.src, p)
  }

  lemma FlightAt(x: Ctx, q: nat)
    requires Sound(x) && q < |Ends(x)|
    ensures Reports(x, Ends(x)[q]) && BookOf(x, Ends(x)).fs[q] == FlightOf(x, Ends(x)[q])
  {
  }

  lemma FlightIsWhole(x: Ctx, e: End, mem: seq<T.byte>)
    requires Sound(x) && IsMessage(x, e.i) && e.remote == DmaOf(x.a, e.i).Put? && There(FlightOf(x, e), mem)
    ensures Delivered(x, e.i, mem)
  {
  }

  lemma DeliveredInBook(x: Ctx, i: nat, mem: seq<T.byte>)
    requires Sound(x) && IsMessage(x, i) && Reports(x, End(i, DmaOf(x.a, i).Put?))
    requires AllThere(BookOf(x, Ends(x)), mem)
    ensures Delivered(x, i, mem)
  {
    var e := End(i, DmaOf(x.a, i).Put?);
    var q := EndAt(x, e);
    FlightAt(x, q);
    assert There(BookOf(x, Ends(x)).fs[q], mem);
    FlightIsWhole(x, e, mem);
  }

  /** A plan as built, its entries carried out and counted in any order, PUTs and GETs over both
      classes of channels: the signal is triggered exactly when num_event message ends report to it
      and every entry that does has been counted; and then every message that arrives under it has
      been delivered. */
  lemma TriggeredMeansPlanDelivered(x: Ctx, numEvent: nat, run: seq<State>, k: nat)
    requires Sound(x) && Room(x, numEvent) && IsRun(x.v, numEvent, run) && k < |run|
    ensures run[k].counter == 0 <==>
              && Messages(x.a, |x.a.loc|, x.v.sig, false) + Messages(x.a, |x.a.loc|, x.v.sig, true) == numEvent
              && AllCounted(x.v, run[k])
    ensures run[k].counter == 0 ==>
              forall i :: IsMessage(x, i) && Reports(x, End(i, DmaOf(x.a, i).Put?)) ==> Delivered(x, i, run[k].mem)
  {
    var b := BookOf(x, Ends(x));
    BookIsKept(x, numEvent);
    BookIsAdmitted(x, numEvent);
    EndsCount(x);
    TriggeredInRun(x.v, b, numEvent, run, k);
    if run[k].counter == 0 {
      forall i | IsMessage(x, i) && Reports(x, End(i, DmaOf(x.a, i).Put?)) ensures Delivered(x, i, run[k].mem) {
        DeliveredInBook(x, i, run[k].mem);
      }
    }
  }

  /** Nothing stops an entry of such a plan from being carried out. */
  lemma EntryCanBeCarried(x: Ctx, numEvent: nat, s: State, e: Ev)
    requires Sound(x) && Room(x, numEvent) && IsEntry(x.v, e) && e !in s.done && |s.mem| == x.v.size
    ensures exists t :: DoStep(x.v, s, t, Carry(e))
  {
    var i, j := EntryOwner(x, e);
    PieceInMessage(x, i, j, e.remote);
    if Lands(x.v, e) { assert LandsHere(x, i); }
    var p := Entry(x.v, e);
    var t := s.(done := s.done + {e}, mem := T.Arrive(s.mem, Lands(x.v, e), DstAddr(p), BytesOf(x.v.src, p)));
    assert DoStep(x.v, s, t, Carry(e));
  }
}
