/** Carrying out and counting the entries of channel lists one by one, in any order, seen from one
    signal and the memory of its rank; and why every such run is a run of module Transfer, given a
    book that says which messages the entries belong to (src/uri/mpi/uri_mpi_channel.c:233-242).

    A piece has two ends, each with its own completion and its own flag: bytes arrive at the remote
    end of a PUT and at the local end of a GET, and leave at the other. */
module EntryRun {
  import opened Split
  import opened Signal
  import opened Plan
  import opened Delivery
  import T = Transfer

  /** `src` is what stands at an address in the memory of a rank where bytes are read; it does not
      change meanwhile. `size` is the size of the memory of the signal's rank. */
  datatype View = View(lists: seq<seq<Piece>>, src: (nat, nat) -> T.byte, sig: Sig, size: nat)

  /** One end of entry k of list id. */
  datatype Ev = Ev(id: nat, k: nat, remote: bool)

  predicate IsEntry(v: View, e: Ev) { e.id < |v.lists| && e.k < |v.lists[e.id]| }

  function Entry(v: View, e: Ev): Piece
    requires IsEntry(v, e)
  {
    v.lists[e.id][e.k]
  }

  /** Bytes arrive at this end. */
  predicate Arrives(p: Piece, remote: bool) { p.dma.Put? <==> remote }

  function DstAddr(p: Piece): nat { if p.dma.Put? then p.rmtMem.addr + p.rmtOff else p.locMem.addr + p.locOff }

  function SrcRank(p: Piece): nat { if p.dma.Put? then p.locMem.rank else p.rmtMem.rank }

  function SrcAddr(p: Piece): nat { if p.dma.Put? then p.locMem.addr + p.locOff else p.rmtMem.addr + p.rmtOff }

  function BytesAt(src: (nat, nat) -> T.byte, rank: nat, addr: nat, n: nat): (d: seq<T.byte>)
    ensures |d| == n && forall b :: 0 <= b < n ==> d[b] == src(rank, addr + b)
  {
    seq(n, (b: nat) => src(rank, addr + b))
  }

  lemma BytesWithin(src: (nat, nat) -> T.byte, rank: nat, addr: nat, n: nat, off: nat, m: nat)
    requires off + m <= n
    ensures BytesAt(src, rank, addr + off, m) == BytesAt(src, rank, addr, n)[off..off + m]
  {
    var part, slice := BytesAt(src, rank, addr + off, m), BytesAt(src, rank, addr, n)[off..off + m];
    forall b | 0 <= b < m ensures part[b] == slice[b] { assert addr + off + b == addr + (off + b); }
  }

  /** What a piece transports. */
  function BytesOf(src: (nat, nat) -> T.byte, p: Piece): (d: seq<T.byte>)
    ensures |d| == p.size
  {
    BytesAt(src, SrcRank(p), SrcAddr(p), p.size)
  }

  /** The piece transports the bytes of a message from off on. */
  ghost predicate Carries(src: (nat, nat) -> T.byte, p: Piece, data: seq<T.byte>, off: nat) {
    off + p.size <= |data| && BytesOf(src, p) == data[off..off + p.size]
  }

  /** The end reports to the signal; its bytes arrive in the memory of the signal's rank. */
  predicate Counts(v: View, e: Ev)
    requires IsEntry(v, e)
  {
    SigOf(Entry(v, e), e.remote) == v.sig
  }

  predicate Lands(v: View, e: Ev)
    requires IsEntry(v, e)
  {
    SigOf(Entry(v, e), e.remote).rank == v.sig.rank && Arrives(Entry(v, e), e.remote)
  }

  // ---------- steps ----------

  datatype State = State(mem: seq<T.byte>, counter: int, done: set<Ev>, counted: set<Ev>)

  datatype Step = Carry(e: Ev) | Count(e: Ev)

  ghost predicate DoStep(v: View, s: State, t: State, step: Step) {
    match step
    case Carry(e) =>
      && IsEntry(v, e) && e !in s.done
      && (Lands(v, e) ==> DstAddr(Entry(v, e)) + Entry(v, e).size <= |s.mem|)
      && t == s.(done := s.done + {e},
                 mem := T.Arrive(s.mem, Lands(v, e), DstAddr(Entry(v, e)), BytesOf(v.src, Entry(v, e))))
    case Count(e) =>
      && IsEntry(v, e) && e in s.done && e !in s.counted
      && t == s.(counted := s.counted + {e},
                 counter := if Counts(v, e) then Wrap64(s.counter + Entry(v, e).add) else s.counter)
  }

  ghost predicate Next(v: View, s: State, t: State) { exists step :: DoStep(v, s, t, step) }

  ghost predicate IsRun(v: View, numEvent: nat, run: seq<State>) {
    && |run| > 0 && |run[0].mem| == v.size && run[0] == State(run[0].mem, numEvent, {}, {})
    && forall k :: 0 < k < |run| ==> Next(v, run[k - 1], run[k])
  }

  // ---------- the book ----------

  /** The messages that report to the signal, as module Transfer starts them, and for each piece of
      them the entry that carries it. */
  datatype Book = Book(fs: seq<T.Flight>, at: seq<seq<Ev>>, classes: seq<T.Class>, cursors: seq<nat>)

  ghost predicate Shaped(b: Book) {
    && |b.at| == |b.fs| == |b.classes| == |b.cursors|
    && forall q :: 0 <= q < |b.fs| ==>
         && |b.at[q]| == |b.fs[q].shares| == |b.fs[q].landed| == |b.fs[q].counted|
  }

  predicate IsPiece(b: Book, q: int, j: int) {
    0 <= q < |b.fs| && q < |b.at| && 0 <= j < |b.fs[q].shares| && j < |b.at[q]| && b.fs[q].shares[j] > 0
  }

  /** The entry is piece j of the flight. */
  ghost predicate Matches(v: View, p: Piece, remote: bool, f: T.Flight, j: nat)
    requires j < |f.shares|
  {
    var off := Prefix(f.shares, j);
    && p.size == f.shares[j] && p.add == SigAdd(f.shares, j) && f.here == Arrives(p, remote)
    && Carries(v.src, p, f.data, off)
    && (f.here ==> DstAddr(p) == f.dst + off && f.dst + |f.data| <= v.size)
  }

  ghost predicate PieceKept(v: View, b: Book, q: nat, j: nat)
    requires IsPiece(b, q, j)
  {
    var e := b.at[q][j];
    IsEntry(v, e) && Counts(v, e) && Matches(v, Entry(v, e), e.remote, b.fs[q], j)
  }

  ghost predicate Placed(b: Book, e: Ev) { exists q, j :: IsPiece(b, q, j) && b.at[q][j] == e }

  /** The bytes of the entry do not touch the flight. */
  ghost predicate Clear(v: View, e: Ev, f: T.Flight)
    requires IsEntry(v, e)
  {
    f.here ==> DstAddr(Entry(v, e)) + Entry(v, e).size <= f.dst || f.dst + |f.data| <= DstAddr(Entry(v, e))
  }

  ghost predicate Startable(b: Book, q: nat)
    requires Shaped(b) && q < |b.fs|
  {
    var f := b.fs[q];
    && b.cursors[q] < b.classes[q].channels && b.classes[q].block > 0 && f.data != []
    && f == T.NewFlight(b.classes[q], f.here, f.dst, f.data, b.cursors[q])
  }

  ghost predicate Kept(v: View, b: Book) {
    && Shaped(b)
    && (forall q, j :: IsPiece(b, q, j) ==> PieceKept(v, b, q, j))
    && (forall q, j, r, m :: IsPiece(b, q, j) && IsPiece(b, r, m) && b.at[q][j] == b.at[r][m] ==> q == r && j == m)
    && (forall e :: IsEntry(v, e) && Counts(v, e) ==> Placed(b, e))
    && (forall e, q :: IsEntry(v, e) && Lands(v, e) && !Counts(v, e) && 0 <= q < |b.fs| ==> Clear(v, e, b.fs[q]))
  }

  /** The rules of module Transfer for the messages of the book. */
  ghost predicate Admitted(v: View, b: Book, numEvent: nat)
    requires Shaped(b)
  {
    && |b.fs| <= numEvent < TWO31 && numEvent > 0 && T.SumMore(b.fs) < TWO31
    && (forall q :: 0 <= q < |b.fs| ==> Startable(b, q))
    && (forall q, r :: 0 <= q < r < |b.fs| ==> T.Disjoint(b.fs[q], b.fs[r]))
    && (forall q :: 0 <= q < |b.fs| ==> b.fs[q].here ==> b.fs[q].dst + |b.fs[q].data| <= v.size)
  }

  function Marks(b: Book, q: nat, done: set<Ev>): (m: seq<bool>)
    requires Shaped(b) && q < |b.fs|
    ensures |m| == |b.fs[q].shares|
  {
    seq(|b.at[q]|, j requires 0 <= j < |b.at[q]| => b.fs[q].shares[j] > 0 && b.at[q][j] in done)
  }

  function FlightsOf(b: Book, done: set<Ev>, counted: set<Ev>): (fs: seq<T.Flight>)
    requires Shaped(b)
    ensures |fs| == |b.fs|
  {
    seq(|b.fs|, q requires 0 <= q < |b.fs| =>
      b.fs[q].(landed := Marks(b, q, done), counted := Marks(b, q, counted)))
  }

  lemma MarksAdd(b: Book, r: nat, done: set<Ev>, q: nat, j: nat)
    requires Shaped(b) && r < |b.fs| && IsPiece(b, q, j)
    requires forall m :: IsPiece(b, r, m) && b.at[q][j] == b.at[r][m] ==> q == r && j == m
    ensures Marks(b, r, done + {b.at[q][j]}) == if r == q then Marks(b, r, done)[j := true] else Marks(b, r, done)
  {
    forall m | 0 <= m < |b.at[r]|
      ensures Marks(b, r, done + {b.at[q][j]})[m] == (Marks(b, r, done)[m] || (r == q && m == j))
    {
      assert b.fs[r].shares[m] > 0 ==> IsPiece(b, r, m);
    }
  }

  lemma MarksSame(b: Book, r: nat, done: set<Ev>, e: Ev)
    requires Shaped(b) && r < |b.fs| && !Placed(b, e)
    ensures Marks(b, r, done + {e}) == Marks(b, r, done)
  {
    forall m | 0 <= m < |b.at[r]| ensures Marks(b, r, done + {e})[m] == Marks(b, r, done)[m] {
      assert b.fs[r].shares[m] > 0 ==> IsPiece(b, r, m);
    }
  }

  /** Carrying out an entry marks one piece of one flight; counting it likewise. */
  lemma FlightsAdd(v: View, b: Book, done: set<Ev>, counted: set<Ev>, q: nat, j: nat)
    requires Kept(v, b) && IsPiece(b, q, j)
    ensures var fs, e := FlightsOf(b, done, counted), b.at[q][j];
            && FlightsOf(b, done + {e}, counted) == fs[q := fs[q].(landed := fs[q].landed[j := true])]
            && FlightsOf(b, done, counted + {e}) == fs[q := fs[q].(counted := fs[q].counted[j := true])]
  {
    var e := b.at[q][j];
    forall r: nat | r < |b.fs|
      ensures Marks(b, r, done + {e}) == if r == q then Marks(b, r, done)[j := true] else Marks(b, r, done)
      ensures Marks(b, r, counted + {e}) == if r == q then Marks(b, r, counted)[j := true] else Marks(b, r, counted)
    {
      MarksAdd(b, r, done, q, j);
      MarksAdd(b, r, counted, q, j);
    }
  }

  lemma FlightsSame(b: Book, done: set<Ev>, counted: set<Ev>, e: Ev)
    requires Shaped(b) && !Placed(b, e)
    ensures FlightsOf(b, done + {e}, counted) == FlightsOf(b, done, counted) == FlightsOf(b, done, counted + {e})
  {
    forall r: nat | r < |b.fs|
      ensures Marks(b, r, done + {e}) == Marks(b, r, done) && Marks(b, r, counted + {e}) == Marks(b, r, counted)
    {
      MarksSame(b, r, done, e);
      MarksSame(b, r, counted, e);
    }
  }

  // ---------- every run is a run of module Transfer ----------

  function Conf(b: Book, numEvent: nat): T.Config { T.Config(numEvent, set l | l in b.classes) }

  ghost predicate Abs(b: Book, s: State, a: T.State)
    requires Shaped(b)
  {
    a.mem == s.mem && a.counter == s.counter && a.base == 0 && a.flights == FlightsOf(b, s.done, s.counted)
  }

  lemma {:induction false} MoreUpTo(fs: seq<T.Flight>, n: nat)
    requires n <= |fs|
    ensures T.SumMore(fs[..n]) <= T.SumMore(fs)
    decreases |fs|
  {
    if n < |fs| {
      var init := fs[..|fs| - 1];
      MoreUpTo(init, n);
      assert init[..n] == fs[..n];
    } else {
      assert fs[..n] == fs;
    }
  }

  lemma StartNext(v: View, b: Book, numEvent: nat, s: T.State, n: nat) returns (t: T.State)
    requires Shaped(b) && Admitted(v, b, numEvent) && n < |b.fs|
    requires |s.mem| == |s.copied| == v.size && s.base == 0 && s.asked == n && s.flights == b.fs[..n]
    ensures T.Next(Conf(b, numEvent), s, t)
    ensures t == s.(copied := t.copied, flights := b.fs[..n + 1], asked := n + 1) && |t.copied| == v.size
  {
    var f := b.fs[n];
    assert Startable(b, n);
    t := s.(asked := n + 1, flights := s.flights + [f], copied := T.Arrive(s.copied, f.here, f.dst, f.data));
    assert T.Round(s) == b.fs[..n];
    assert b.fs[..n + 1] == b.fs[..n] + [f];
    MoreUpTo(b.fs, n + 1);
    assert b.fs[..n + 1][..n] == b.fs[..n];
    forall g | g in T.Round(s) ensures T.Disjoint(f, g) {
      var q :| 0 <= q < n && b.fs[..n][q] == g;
      assert T.Disjoint(b.fs[q], b.fs[n]);
    }
    assert T.DoStep(Conf(b, numEvent), s, t, T.Start(f.here, f.dst, f.data, b.classes[n], b.cursors[n]));
  }

  lemma {:induction false} StartAll(v: View, b: Book, numEvent: nat, mem: seq<T.byte>, n: nat) returns (run: seq<T.State>)
    requires Shaped(b) && Admitted(v, b, numEvent) && n <= |b.fs| && |mem| == v.size
    ensures T.IsRun(Conf(b, numEvent), run)
    ensures var s := run[|run| - 1];
            && s == T.State(mem, s.copied, b.fs[..n], 0, n, 0, numEvent) && |s.copied| == |mem|
  {
    if n == 0 {
      run := [T.State(mem, mem, [], 0, 0, 0, numEvent)];
      assert forall q :: 0 <= q < |b.fs| ==> Startable(b, q);
      forall l | l in Conf(b, numEvent).classes ensures l.channels > 0 && l.block > 0 {
        var q :| 0 <= q < |b.classes| && b.classes[q] == l;
        assert Startable(b, q);
      }
    } else {
      var init := StartAll(v, b, numEvent, mem, n - 1);
      var t := StartNext(v, b, numEvent, init[|init| - 1], n - 1);
      run := init + [t];
    }
  }

  lemma FreshFlights(v: View, b: Book, numEvent: nat)
    requires Shaped(b) && Admitted(v, b, numEvent)
    ensures FlightsOf(b, {}, {}) == b.fs
  {
    forall q: nat | q < |b.fs| ensures FlightsOf(b, {}, {})[q] == b.fs[q] {
      assert Startable(b, q);
      assert Marks(b, q, {}) == b.fs[q].landed && Marks(b, q, {}) == b.fs[q].counted;
    }
  }

  /** Which piece an entry of the signal carries, and what it does to the flights. */
  lemma PieceOfEntry(v: View, b: Book, done: set<Ev>, counted: set<Ev>, e: Ev) returns (q: nat, j: nat)
    requires Kept(v, b) && IsEntry(v, e) && Counts(v, e)
    ensures IsPiece(b, q, j) && b.at[q][j] == e && Matches(v, Entry(v, e), e.remote, b.fs[q], j)
    ensures var fs := FlightsOf(b, done, counted);
            && FlightsOf(b, done + {e}, counted) == fs[q := fs[q].(landed := fs[q].landed[j := true])]
            && FlightsOf(b, done, counted + {e}) == fs[q := fs[q].(counted := fs[q].counted[j := true])]
  {
    assert Placed(b, e);
    q, j :| IsPiece(b, q, j) && b.at[q][j] == e;
    assert PieceKept(v, b, q, j);
    FlightsAdd(v, b, done, counted, q, j);
  }

  /** Where an entry writes and what, in terms of its flight. */
  lemma PlaceOf(v: View, e: Ev, f: T.Flight, j: nat)
    requires IsEntry(v, e) && Counts(v, e) && j < |f.shares| && Matches(v, Entry(v, e), e.remote, f, j)
    ensures var p, off := Entry(v, e), Prefix(f.shares, j);
            && (Lands(v, e) <==> f.here) && p.size == f.shares[j] && off + p.size <= |f.data|
            && (f.here ==> DstAddr(p) == f.dst + off && f.dst + |f.data| <= v.size)
            && BytesOf(v.src, p) == f.data[off..off + p.size]
  {
  }

  lemma MarkOf(b: Book, done: set<Ev>, counted: set<Ev>, q: nat, j: nat)
    requires Shaped(b) && IsPiece(b, q, j)
    ensures var f := FlightsOf(b, done, counted)[q];
            && f == b.fs[q].(landed := f.landed, counted := f.counted)
            && |f.landed| == |f.counted| == |f.shares|
            && (f.landed[j] <==> b.at[q][j] in done) && (f.counted[j] <==> b.at[q][j] in counted)
  {
  }

  lemma IsLand(a: T.State, d: T.State, q: nat, j: nat, at: nat, bytes: seq<T.byte>)
    requires q < |a.flights| && j < |a.flights[q].shares| == |a.flights[q].landed|
    requires a.flights[q].shares[j] > 0 && !a.flights[q].landed[j]
    requires var f := a.flights[q]; var off := Prefix(f.shares, j);
             && off + f.shares[j] <= |f.data| && bytes == f.data[off..off + f.shares[j]]
             && (f.here ==> at == f.dst + off && at + |bytes| <= |a.mem|)
             && d == a.(mem := T.Arrive(a.mem, f.here, at, bytes),
                        flights := a.flights[q := f.(landed := f.landed[j := true])])
    ensures T.DoLand(a, d, q, j)
  {
  }

  lemma IsCount(a: T.State, d: T.State, q: nat, j: nat, add: int)
    requires q < |a.flights| && j < |a.flights[q].shares| == |a.flights[q].landed| == |a.flights[q].counted|
    requires a.flights[q].landed[j] && !a.flights[q].counted[j] && add == SigAdd(a.flights[q].shares, j)
    requires var f := a.flights[q];
             d == a.(counter := Wrap64(a.counter + add), flights := a.flights[q := f.(counted := f.counted[j := true])])
    ensures T.DoCount(a, d, q, j)
  {
  }

  /** Carrying out an entry of the signal lands its piece. */
  lemma CarryIsLand(v: View, b: Book, s: State, t: State, e: Ev, a: T.State) returns (d: T.State, q: nat, j: nat)
    requires Kept(v, b) && Abs(b, s, a) && DoStep(v, s, t, Carry(e)) && Counts(v, e) && |s.mem| == v.size
    ensures T.DoLand(a, d, q, j) && Abs(b, t, d)
  {
    q, j := PieceOfEntry(v, b, s.done, s.counted, e);
    d := a.(mem := t.mem, flights := FlightsOf(b, t.done, t.counted));
    MarkOf(b, s.done, s.counted, q, j);
    PlaceOf(v, e, b.fs[q], j);
    IsLand(a, d, q, j, DstAddr(Entry(v, e)), BytesOf(v.src, Entry(v, e)));
  }

  /** Bytes written outside the destinations of the messages under way are a local write. */
  lemma WriteIsLocal(a: T.State, here: bool, at: nat, data: seq<T.byte>, d: T.State)
    requires a.base <= |a.flights| && |a.copied| == |a.mem| && (here ==> at + |data| <= |a.mem|)
    requires forall x :: 0 <= x < |a.mem| && !T.InDest(T.Round(a), x) ==> a.mem[x] == a.copied[x]
    requires forall x :: here && at <= x < at + |data| ==> !T.InDest(T.Round(a), x)
    requires d == a.(mem := T.Arrive(a.mem, here, at, data), copied := T.Arrive(a.copied, here, at, data))
    ensures T.DoLocal(a, d)
  {
  }

  lemma ClearOfAll(v: View, b: Book, s: State, e: Ev, a: T.State, x: nat)
    requires Kept(v, b) && Abs(b, s, a) && IsEntry(v, e) && !Counts(v, e) && Lands(v, e)
    requires DstAddr(Entry(v, e)) <= x < DstAddr(Entry(v, e)) + Entry(v, e).size
    ensures !T.InDest(T.Round(a), x)
  {
    forall q | 0 <= q < |T.Round(a)| ensures !T.Inside(T.Round(a)[q], x) { assert Clear(v, e, b.fs[q]); }
  }

  /** Any other entry writes outside the destinations of the signal, or elsewhere. */
  lemma CarryIsLocal(v: View, b: Book, s: State, t: State, e: Ev, a: T.State) returns (d: T.State)
    requires Kept(v, b) && Abs(b, s, a) && DoStep(v, s, t, Carry(e)) && !Counts(v, e)
    requires |a.copied| == |a.mem|
    requires forall x :: 0 <= x < |a.mem| && !T.InDest(T.Round(a), x) ==> a.mem[x] == a.copied[x]
    ensures T.DoLocal(a, d) && Abs(b, t, d)
  {
    FlightsSame(b, s.done, s.counted, e);
    var p, here := Entry(v, e), Lands(v, e);
    d := a.(mem := t.mem, copied := T.Arrive(a.copied, here, DstAddr(p), BytesOf(v.src, p)));
    forall x: nat | here && DstAddr(p) <= x < DstAddr(p) + p.size ensures !T.InDest(T.Round(a), x) {
      ClearOfAll(v, b, s, e, a, x);
    }
    WriteIsLocal(a, here, DstAddr(p), BytesOf(v.src, p), d);
  }

  lemma CountIsCount(v: View, b: Book, s: State, t: State, e: Ev, a: T.State) returns (d: T.State, q: nat, j: nat)
    requires Kept(v, b) && Abs(b, s, a) && DoStep(v, s, t, Count(e)) && Counts(v, e)
    ensures T.DoCount(a, d, q, j) && Abs(b, t, d)
  {
    q, j := PieceOfEntry(v, b, s.done, s.counted, e);
    d := a.(counter := t.counter, flights := FlightsOf(b, t.done, t.counted));
    MarkOf(b, s.done, s.counted, q, j);
    IsCount(a, d, q, j, Entry(v, e).add);
  }

  /** An entry of another signal may be counted at any time. */
  lemma CountIsNothing(v: View, b: Book, s: State, t: State, e: Ev, a: T.State)
    requires Kept(v, b) && Abs(b, s, a) && DoStep(v, s, t, Count(e)) && !Counts(v, e)
    ensures Abs(b, t, a)
  {
    FlightsSame(b, s.done, s.counted, e);
  }

  lemma Longer(c: T.Config, run: seq<T.State>, d: T.State) returns (longer: seq<T.State>)
    requires T.IsRun(c, run) && T.Next(c, run[|run| - 1], d)
    ensures T.IsRun(c, longer) && longer[|longer| - 1] == d
  {
    longer := run + [d];
  }

  lemma SimulateCarry(v: View, b: Book, c: T.Config, s: State, t: State, e: Ev, a: T.State) returns (d: T.State)
    requires Kept(v, b) && Abs(b, s, a) && DoStep(v, s, t, Carry(e)) && |s.mem| == v.size && T.Inv(c, a)
    ensures T.Next(c, a, d) && Abs(b, t, d)
  {
    if Counts(v, e) {
      var q, j;
      d, q, j := CarryIsLand(v, b, s, t, e, a);
      assert T.DoStep(c, a, d, T.Land(q, j));
    } else {
      d := CarryIsLocal(v, b, s, t, e, a);
      assert T.DoStep(c, a, d, T.Local);
    }
  }

  lemma SimulateCount(v: View, b: Book, c: T.Config, s: State, t: State, e: Ev, a: T.State) returns (d: T.State)
    requires Kept(v, b) && Abs(b, s, a) && DoStep(v, s, t, Count(e))
    ensures (T.Next(c, a, d) || d == a) && Abs(b, t, d)
  {
    if Counts(v, e) {
      var q, j;
      d, q, j := CountIsCount(v, b, s, t, e, a);
      assert T.DoStep(c, a, d, T.Count(q, j));
    } else {
      CountIsNothing(v, b, s, t, e, a);
      d := a;
    }
  }

  /** One step of the entries is one step of Transfer, or none. */
  lemma SimulateStep(v: View, b: Book, c: T.Config, s: State, t: State, a: T.State) returns (d: T.State)
    requires Kept(v, b) && Abs(b, s, a) && Next(v, s, t) && |s.mem| == v.size && T.Inv(c, a)
    ensures (T.Next(c, a, d) || d == a) && Abs(b, t, d) && |t.mem| == v.size
  {
    var step :| DoStep(v, s, t, step);
    match step
    case Carry(e) => d := SimulateCarry(v, b, c, s, t, e, a);
    case Count(e) => d := SimulateCount(v, b, c, s, t, e, a);
  }

  /** Every run of the entries, whatever their order, is a run of module Transfer for the messages
      of the book. */
  lemma {:induction false} Simulated(v: View, b: Book, numEvent: nat, run: seq<State>, k: nat) returns (abs: seq<T.State>)
    requires Kept(v, b) && Admitted(v, b, numEvent) && IsRun(v, numEvent, run) && k < |run|
    ensures T.IsRun(Conf(b, numEvent), abs) && Abs(b, run[k], abs[|abs| - 1]) && |run[k].mem| == v.size
  {
    if k == 0 {
      abs := StartAll(v, b, numEvent, run[0].mem, |b.fs|);
      FreshFlights(v, b, numEvent);
      assert b.fs[..|b.fs|] == b.fs;
    } else {
      var init := Simulated(v, b, numEvent, run, k - 1);
      var c, a := Conf(b, numEvent), init[|init| - 1];
      T.RunKeepsInv(c, init, |init| - 1);
      var d := SimulateStep(v, b, c, run[k - 1], run[k], a);
      if d == a { abs := init; } else { abs := Longer(c, init, d); }
    }
  }

  // ---------- what holds in every run ----------

  /** A message that arrives is in memory, byte for byte. */
  ghost predicate There(f: T.Flight, mem: seq<T.byte>) {
    f.here ==> f.dst + |f.data| <= |mem| && mem[f.dst..f.dst + |f.data|] == f.data
  }

  ghost predicate AllThere(b: Book, mem: seq<T.byte>) { forall q :: 0 <= q < |b.fs| ==> There(b.fs[q], mem) }

  /** Every entry that reports to the signal has been counted. */
  ghost predicate AllCounted(v: View, s: State) {
    forall e :: IsEntry(v, e) && Counts(v, e) ==> e in s.counted
  }

  lemma CountedMeansMarked(v: View, b: Book, s: State)
    requires Kept(v, b) && T.AllWf(FlightsOf(b, s.done, s.counted))
    ensures AllCounted(v, s) <==> forall f :: f in FlightsOf(b, s.done, s.counted) ==> T.AllCounted(f)
  {
    var fs := FlightsOf(b, s.done, s.counted);
    if AllCounted(v, s) {
      forall q: nat | q < |fs| ensures T.AllCounted(fs[q]) { AllMarked(v, b, s, q); }
    }
    if forall f :: f in fs ==> T.AllCounted(f) {
      forall e | IsEntry(v, e) && Counts(v, e) ensures e in s.counted {
        var q, j := PieceOfEntry(v, b, s.done, s.counted, e);
        assert fs[q] in fs;
        assert fs[q].counted[j];
      }
    }
  }

  lemma AllMarked(v: View, b: Book, s: State, q: nat)
    requires Kept(v, b) && AllCounted(v, s) && q < |b.fs| && T.Wf(FlightsOf(b, s.done, s.counted)[q])
    ensures T.AllCounted(FlightsOf(b, s.done, s.counted)[q])
  {
    var f := FlightsOf(b, s.done, s.counted)[q];
    forall j: nat | j < |f.shares| && f.shares[j] != 0 ensures f.counted[j] {
      assert IsPiece(b, q, j);
      assert PieceKept(v, b, q, j);
    }
  }

  /** In every run the counter is zero exactly when the book has num_event messages and every entry
      that reports to the signal has been counted; and then every message of the book that arrives
      in this memory is in place. */
  lemma TriggeredInRun(v: View, b: Book, numEvent: nat, run: seq<State>, k: nat)
    requires Kept(v, b) && Admitted(v, b, numEvent) && IsRun(v, numEvent, run) && k < |run|
    ensures run[k].counter == 0 <==> |b.fs| == numEvent && AllCounted(v, run[k])
    ensures run[k].counter == 0 ==> AllThere(b, run[k].mem)
  {
    var abs := Simulated(v, b, numEvent, run, k);
    var c, a, s := Conf(b, numEvent), abs[|abs| - 1], run[k];
    T.TriggeredIffAllCounted(c, abs, |abs| - 1);
    assert T.Round(a) == FlightsOf(b, s.done, s.counted);
    CountedMeansMarked(v, b, s);
    if s.counter == 0 {
      T.TriggeredMeansDelivered(c, abs, |abs| - 1);
      forall q | 0 <= q < |b.fs| ensures There(b.fs[q], s.mem) { assert T.Round(a)[q] in T.Round(a); }
    }
  }
}
