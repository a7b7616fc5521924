/** Runs of one signal: messages are split into pieces, the pieces land in memory and are counted
    by the daemon in any order, the application resets the signal and starts the next round.

    Messages of one signal may belong to different classes of channels, inter-node and intra-node,
    and the signal may count messages that arrive here as well as messages that leave from here.

    The environment rules are the ones the library states: at most num_event messages are started
    between two resets, the destinations of those that arrive do not overlap, the bytes of a message
    stay the same from its start on, and fewer than 2^31 pieces beyond the first of each message
    are under way. Everything else (which message, class and channel, how landing, counting,
    application writes and rounds interleave) is left open. */
module Transfer {
  import opened Arith
  import opened Split
  import opened Signal

  type byte = b: int | 0 <= b < 256

  /** The channels of a class, and their block size. */
  datatype Class = Class(channels: nat, block: nat)

  /** One started message: whether it arrives in this memory, where, its bytes, how it was split,
      and which pieces are done (in place, or sent) and counted. */
  datatype Flight = Flight(here: bool, dst: nat, data: seq<byte>, shares: seq<nat>, landed: seq<bool>, counted: seq<bool>)

  /** `copied` is the memory of the specification, in which a message is one contiguous copy made
      when it is started. `base` is the first message of the current round. `asked` counts the
      messages of the round, `empty` those of size zero among them. */
  datatype State = State(mem: seq<byte>, copied: seq<byte>, flights: seq<Flight>, base: nat,
                         asked: nat, empty: nat, counter: int)

  /** The signal's number of events and the classes its messages may use. */
  datatype Config = Config(numEvent: nat, classes: set<Class>)

  ghost predicate ValidConfig(c: Config) {
    0 < c.numEvent < TWO31 && forall l :: l in c.classes ==> l.channels > 0 && l.block > 0
  }

  function Round(s: State): seq<Flight>
    requires s.base <= |s.flights|
  {
    s.flights[s.base..]
  }

  ghost predicate Inside(f: Flight, a: nat) { f.here && f.dst <= a < f.dst + |f.data| }

  ghost predicate InDest(fs: seq<Flight>, a: nat) { exists i :: 0 <= i < |fs| && Inside(fs[i], a) }

  ghost predicate Disjoint(f: Flight, g: Flight) {
    !f.here || !g.here || f.dst + |f.data| <= g.dst || g.dst + |g.data| <= f.dst
  }

  /** The memory after `data` is written at `at`. */
  function Write(mem: seq<byte>, at: nat, data: seq<byte>): (m: seq<byte>)
    requires at + |data| <= |mem|
    ensures |m| == |mem|
    ensures forall a :: 0 <= a < |m| ==> m[a] == if at <= a < at + |data| then data[a - at] else mem[a]
  {
    mem[..at] + data + mem[at + |data|..]
  }

  function More(f: Flight): nat {
    if NonZeros(f.shares) > 0 then NonZeros(f.shares) - 1 else 0
  }

  function SumMore(fs: seq<Flight>): nat {
    if fs == [] then 0 else SumMore(fs[..|fs| - 1]) + More(fs[|fs| - 1])
  }

  ghost predicate Wf(f: Flight) {
    && |f.landed| == |f.counted| == |f.shares|
    && Prefix(f.shares, |f.shares|) == |f.data|
    && NonZeros(f.shares) > 0
    && forall j :: 0 <= j < |f.shares| ==> (f.counted[j] ==> f.landed[j]) && (f.landed[j] ==> f.shares[j] != 0)
  }

  ghost predicate AllCounted(f: Flight)
    requires Wf(f)
  {
    Complete(f.shares, f.counted)
  }

  // ---------- steps ----------

  ghost predicate Init(c: Config, s: State) {
    s.copied == s.mem && s.flights == [] && s.base == 0 && s.asked == 0 && s.empty == 0 && s.counter == c.numEvent
  }

  function NewFlight(l: Class, here: bool, dst: nat, data: seq<byte>, cur: nat): (f: Flight)
    requires l.block > 0 && cur < l.channels
  {
    Flight(here, dst, data, Shares(|data|, l.channels, l.block, cur),
           seq(l.channels, _ => false), seq(l.channels, _ => false))
  }

  /** A memory after bytes that arrive here are written to it; bytes that leave change nothing. */
  function Arrive(mem: seq<byte>, here: bool, at: nat, data: seq<byte>): (m: seq<byte>)
    requires here ==> at + |data| <= |mem|
  {
    if here then Write(mem, at, data) else mem
  }

  datatype Step =
    | Start(here: bool, dst: nat, data: seq<byte>, l: Class, cur: nat)
    | Land(i: nat, j: nat)
    | Count(i: nat, j: nat)
    | Reset
    | Local

  ghost predicate DoStart(c: Config, s: State, t: State, here: bool, dst: nat, data: seq<byte>, l: Class, cur: nat)
    requires s.base <= |s.flights|
  {
    && l in c.classes && l.block > 0 && cur < l.channels && s.asked < c.numEvent
    && |s.mem| == |s.copied| && (here ==> dst + |data| <= |s.mem|)
    && if data == [] then
         // an empty message is skipped: no piece, no event (src/unr/base/unr_blk.c:309-311)
         t == s.(asked := s.asked + 1, empty := s.empty + 1)
       else
         var f := NewFlight(l, here, dst, data, cur);
         && (forall g :: g in Round(s) ==> Disjoint(f, g))
         && SumMore(Round(s)) + More(f) < TWO31
         && t == s.(asked := s.asked + 1, flights := s.flights + [f], copied := Arrive(s.copied, here, dst, data))
  }

  ghost predicate DoLand(s: State, t: State, i: nat, j: nat) {
    && i < |s.flights|
    && var f := s.flights[i];
    && j < |f.shares| == |f.landed| && f.shares[j] != 0 && !f.landed[j]
    && var off := Prefix(f.shares, j);
    && off + f.shares[j] <= |f.data| && (f.here ==> f.dst + off + f.shares[j] <= |s.mem|)
    && t == s.(mem := Arrive(s.mem, f.here, f.dst + off, f.data[off..off + f.shares[j]]),
               flights := s.flights[i := f.(landed := f.landed[j := true])])
  }

  ghost predicate DoCount(s: State, t: State, i: nat, j: nat) {
    && i < |s.flights|
    && var f := s.flights[i];
    && j < |f.shares| == |f.landed| == |f.counted| && f.landed[j] && !f.counted[j]
    && t == s.(counter := Wrap64(s.counter + SigAdd(f.shares, j)),
               flights := s.flights[i := f.(counted := f.counted[j := true])])
  }

  ghost predicate DoReset(c: Config, s: State, t: State) {
    && s.counter == 0
    && t == s.(counter := c.numEvent, base := |s.flights|, asked := 0, empty := 0)
  }

  /** The application, or messages of other signals, write outside the destinations in use. */
  ghost predicate DoLocal(s: State, t: State)
    requires s.base <= |s.flights|
  {
    && t == s.(mem := t.mem, copied := t.copied)
    && |t.mem| == |s.mem| == |s.copied| == |t.copied|
    && forall a :: 0 <= a < |s.mem| ==>
         if InDest(Round(s), a) then t.mem[a] == s.mem[a] && t.copied[a] == s.copied[a]
         else t.mem[a] == t.copied[a]
  }

  ghost predicate DoStep(c: Config, s: State, t: State, step: Step) {
    && s.base <= |s.flights|
    && match step
       case Start(here, dst, data, l, cur) => DoStart(c, s, t, here, dst, data, l, cur)
       case Land(i, j) => DoLand(s, t, i, j)
       case Count(i, j) => DoCount(s, t, i, j)
       case Reset => DoReset(c, s, t)
       case Local => DoLocal(s, t)
  }

  ghost predicate Next(c: Config, s: State, t: State) { exists step :: DoStep(c, s, t, step) }

  ghost predicate IsRun(c: Config, run: seq<State>) {
    && ValidConfig(c) && |run| > 0 && Init(c, run[0])
    && forall k :: 0 < k < |run| ==> Next(c, run[k - 1], run[k])
  }

  // ---------- what the counter says about a round ----------

  function SumApplied(fs: seq<Flight>): int
    requires forall i :: 0 <= i < |fs| ==> |fs[i].shares| == |fs[i].counted|
  {
    if fs == [] then 0
    else SumApplied(fs[..|fs| - 1]) + Applied(fs[|fs| - 1].shares, fs[|fs| - 1].counted)
  }

  /** Messages counted so far. */
  function SumCount(fs: seq<Flight>): nat
    requires forall i :: 0 <= i < |fs| ==> |fs[i].shares| == |fs[i].counted|
  {
    if fs == [] then 0
    else SumCount(fs[..|fs| - 1]) + MessageCount(fs[|fs| - 1].shares, fs[|fs| - 1].counted)
  }

  /** Pieces announced and not counted, less pieces counted ahead of their message. */
  function SumBalance(fs: seq<Flight>): int
    requires forall i :: 0 <= i < |fs| ==> |fs[i].shares| == |fs[i].counted|
  {
    if fs == [] then 0
    else SumBalance(fs[..|fs| - 1]) + PieceBalance(fs[|fs| - 1].shares, fs[|fs| - 1].counted)
  }

  ghost predicate AllWf(fs: seq<Flight>) { forall i :: 0 <= i < |fs| ==> Wf(fs[i]) }

  lemma {:induction false} RoundMeaning(fs: seq<Flight>)
    requires AllWf(fs)
    ensures SumApplied(fs) == TWO32 * SumBalance(fs) - SumCount(fs)
    ensures SumCount(fs) <= |fs|
    ensures 0 - SumMore(fs) <= SumBalance(fs) <= SumMore(fs)
    ensures SumCount(fs) == |fs| ==> SumBalance(fs) >= 0
    ensures SumCount(fs) == |fs| && SumBalance(fs) == 0 <==> forall i :: 0 <= i < |fs| ==> AllCounted(fs[i])
  {
    if fs != [] {
      var init, f := fs[..|fs| - 1], fs[|fs| - 1];
      assert Wf(f);
      RoundMeaning(init);
      MessageContribution(f.shares, f.counted);
      assert (forall i :: 0 <= i < |fs| ==> AllCounted(fs[i]))
        <==> (forall i :: 0 <= i < |init| ==> AllCounted(init[i])) && AllCounted(f) by {
        assert forall i :: 0 <= i < |init| ==> init[i] == fs[i];
      }
    }
  }

  lemma {:induction false} SumUpdate(fs: seq<Flight>, i: nat, g: Flight)
    requires i < |fs| && AllWf(fs) && Wf(g) && g.shares == fs[i].shares
    ensures AllWf(fs[i := g])
    ensures SumMore(fs[i := g]) == SumMore(fs)
    ensures SumApplied(fs[i := g]) ==
            SumApplied(fs) - Applied(fs[i].shares, fs[i].counted) + Applied(g.shares, g.counted)
  {
    var m := |fs| - 1;
    var fs' := fs[i := g];
    if i < m {
      assert fs'[..m] == fs[..m][i := g];
      SumUpdate(fs[..m], i, g);
    } else {
      assert fs'[..m] == fs[..m];
    }
  }

  lemma {:induction false} AppliedUpdate(s: seq<nat>, done: seq<bool>, j: nat, to: nat)
    requires to <= |s| == |done| && j < |s| && !done[j]
    ensures AppliedTo(s, done[j := true], to) == AppliedTo(s, done, to) + if j < to then SigAdd(s, j) else 0
  {
    if to > 0 { AppliedUpdate(s, done, j, to - 1); }
  }

  // ---------- invariant ----------

  /** Bytes lo to lo + len of a message for `dst` are in memory. */
  ghost predicate Bytes(mem: seq<byte>, dst: nat, data: seq<byte>, lo: nat, len: nat)
    requires dst + |data| <= |mem|
  {
    forall b {:trigger data[b]} :: lo <= b < lo + len && b < |data| ==> mem[dst + b] == data[b]
  }

  ghost predicate PieceInPlace(f: Flight, mem: seq<byte>, j: nat)
    requires j < |f.shares| && f.dst + |f.data| <= |mem|
  {
    Bytes(mem, f.dst, f.data, Prefix(f.shares, j), f.shares[j])
  }

  ghost predicate InPlace(f: Flight, mem: seq<byte>)
    requires Wf(f)
  {
    f.here ==>
      && f.dst + |f.data| <= |mem|
      && forall j :: 0 <= j < |f.shares| && f.landed[j] ==> PieceInPlace(f, mem, j)
  }

  ghost predicate Copied(f: Flight, copied: seq<byte>) {
    f.here ==>
      && f.dst + |f.data| <= |copied|
      && forall b :: 0 <= b < |f.data| ==> copied[f.dst + b] == f.data[b]
  }

  ghost predicate CounterInv(c: Config, s: State) {
    && s.base <= |s.flights| && AllWf(s.flights)
    && (forall i :: 0 <= i < s.base ==> AllCounted(s.flights[i]))
    && s.counter == c.numEvent + SumApplied(Round(s))
    && |Round(s)| + s.empty == s.asked <= c.numEvent
    && SumMore(Round(s)) < TWO31
  }

  /** The two memories agree outside the destinations, landed pieces are in place, and the
      specification memory holds every message of the round. */
  ghost predicate Consistent(mem: seq<byte>, copied: seq<byte>, fs: seq<Flight>)
    requires AllWf(fs)
  {
    && |mem| == |copied|
    && (forall i, j :: 0 <= i < j < |fs| ==> Disjoint(fs[i], fs[j]))
    && (forall i :: 0 <= i < |fs| ==> InPlace(fs[i], mem) && Copied(fs[i], copied))
    && (forall a :: 0 <= a < |mem| && !InDest(fs, a) ==> mem[a] == copied[a])
  }

  ghost predicate MemoryInv(s: State)
    requires s.base <= |s.flights| && AllWf(s.flights)
  {
    Consistent(s.mem, s.copied, Round(s))
  }

  ghost predicate Inv(c: Config, s: State) { CounterInv(c, s) && MemoryInv(s) }

  lemma CounterBounds(c: Config, s: State)
    requires ValidConfig(c) && CounterInv(c, s)
    ensures s.counter == (c.numEvent - SumCount(Round(s))) + SumBalance(Round(s)) * TWO32
    ensures 0 <= c.numEvent - SumCount(Round(s)) < TWO31
    ensures -TWO31 < SumBalance(Round(s)) < TWO31
    ensures s.counter == 0 <==>
              |Round(s)| == c.numEvent && forall i :: 0 <= i < |Round(s)| ==> AllCounted(Round(s)[i])
  {
    RoundMeaning(Round(s));
    Halves(c.numEvent - SumCount(Round(s)), SumBalance(Round(s)));
  }

  lemma NewFlightWf(l: Class, here: bool, dst: nat, data: seq<byte>, cur: nat)
    requires l.block > 0 && cur < l.channels && data != []
    ensures var f := NewFlight(l, here, dst, data, cur);
            Wf(f) && Applied(f.shares, f.counted) == 0 && forall j :: 0 <= j < |f.shares| ==> !f.landed[j]
  {
    var f := NewFlight(l, here, dst, data, cur);
    SharesSum(|data|, l.channels, l.block, cur);
    PieceCount(|data|, l.channels, l.block, cur);
    NothingApplied(f.shares, f.counted, |f.shares|);
  }

  lemma {:induction false} NothingApplied(s: seq<nat>, done: seq<bool>, j: nat)
    requires j <= |s| == |done| && forall i :: 0 <= i < |done| ==> !done[i]
    ensures AppliedTo(s, done, j) == 0
  {
    if j > 0 { NothingApplied(s, done, j - 1); }
  }

  lemma StartKeepsInv(c: Config, s: State, t: State, here: bool, dst: nat, data: seq<byte>, l: Class, cur: nat)
    requires ValidConfig(c) && Inv(c, s) && DoStart(c, s, t, here, dst, data, l, cur)
    ensures Inv(c, t)
  {
    if data != [] {
      var f := NewFlight(l, here, dst, data, cur);
      NewFlightWf(l, here, dst, data, cur);
      assert Round(t) == Round(s) + [f];
      assert Round(t)[..|Round(t)| - 1] == Round(s);
      StartKeepsMemory(s.mem, s.copied, Round(s), f);
    }
  }

  lemma StartKeepsMemory(mem: seq<byte>, copied: seq<byte>, fs: seq<Flight>, f: Flight)
    requires AllWf(fs) && Consistent(mem, copied, fs)
    requires Wf(f) && (forall j :: 0 <= j < |f.shares| ==> !f.landed[j]) && (f.here ==> f.dst + |f.data| <= |mem|)
    requires forall g :: g in fs ==> Disjoint(f, g)
    ensures AllWf(fs + [f]) && Consistent(mem, Arrive(copied, f.here, f.dst, f.data), fs + [f])
  {
    var fs', copied' := fs + [f], Arrive(copied, f.here, f.dst, f.data);
    forall i | 0 <= i < |fs|
      ensures Disjoint(fs'[i], f) && Copied(fs'[i], copied')
    {
      assert fs[i] in fs;
    }
    forall a | 0 <= a < |mem| && !InDest(fs', a)
      ensures mem[a] == copied'[a]
    {
      assert !Inside(fs'[|fs|], a);
      forall i | 0 <= i < |fs| ensures !Inside(fs[i], a) { assert !Inside(fs'[i], a); }
    }
  }

  /** Marking a piece of message i as landed leaves the counter part alone. */
  lemma MarkKeepsCounter(c: Config, s: State, t: State, i: nat, g: Flight)
    requires CounterInv(c, s) && s.base <= i < |s.flights|
    requires Wf(g) && g == s.flights[i].(landed := g.landed)
    requires t == s.(mem := t.mem, flights := s.flights[i := g])
    ensures CounterInv(c, t) && Round(t) == Round(s)[i - s.base := g]
  {
    assert Round(t) == Round(s)[i - s.base := g];
    SumUpdate(Round(s), i - s.base, g);
  }

  lemma MarkKeepsInv(c: Config, s: State, t: State, i: nat, g: Flight)
    requires Inv(c, s) && s.base <= i < |s.flights| && |t.mem| == |s.mem|
    requires Wf(g) && g == s.flights[i].(landed := g.landed) && InPlace(g, t.mem)
    requires t == s.(mem := t.mem, flights := s.flights[i := g])
    requires forall a :: 0 <= a < |s.mem| && !Inside(g, a) ==> t.mem[a] == s.mem[a]
    ensures Inv(c, t)
  {
    MarkKeepsCounter(c, s, t, i, g);
    assert Round(s)[i - s.base] == s.flights[i];
    MarkKeepsMemory(s.mem, s.copied, Round(s), i - s.base, g, t.mem);
  }

  lemma LandKeepsInv(c: Config, s: State, t: State, i: nat, j: nat)
    requires ValidConfig(c) && Inv(c, s) && DoLand(s, t, i, j)
    ensures Inv(c, t)
  {
    var f := s.flights[i];
    assert Wf(f) && !AllCounted(f);
    assert Round(s)[i - s.base] == f;
    var g := t.flights[i];
    assert Wf(g);
    LandInPlace(f, s.mem, j, Prefix(f.shares, j), f.shares[j], g, t.mem);
    MarkKeepsInv(c, s, t, i, g);
  }

  /** Marking a piece changes no destination. */
  lemma SameDest(fs: seq<Flight>, i: nat, g: Flight, a: nat)
    requires i < |fs| && g.here == fs[i].here && g.dst == fs[i].dst && g.data == fs[i].data
    ensures InDest(fs[i := g], a) <==> InDest(fs, a)
  {
    var fs' := fs[i := g];
    forall k | 0 <= k < |fs| ensures Inside(fs'[k], a) <==> Inside(fs[k], a) {}
    if InDest(fs, a) {
      var k :| 0 <= k < |fs| && Inside(fs[k], a);
      assert Inside(fs'[k], a);
    }
    if InDest(fs', a) {
      var k :| 0 <= k < |fs| && Inside(fs'[k], a);
      assert Inside(fs[k], a);
    }
  }

  lemma MarkKeepsMemory(mem: seq<byte>, copied: seq<byte>, fs: seq<Flight>, i: nat, g: Flight, mem': seq<byte>)
    requires AllWf(fs) && Consistent(mem, copied, fs) && i < |fs| && |mem'| == |mem|
    requires Wf(g) && g.here == fs[i].here && g.dst == fs[i].dst && g.data == fs[i].data && InPlace(g, mem')
    requires forall a :: 0 <= a < |mem| && !Inside(g, a) ==> mem'[a] == mem[a]
    ensures AllWf(fs[i := g]) && Consistent(mem', copied, fs[i := g])
  {
    var fs' := fs[i := g];
    forall k | 0 <= k < |fs'|
      ensures InPlace(fs'[k], mem') && Copied(fs'[k], copied)
    {
      MarkKeepsFlight(mem, copied, fs, i, g, mem', k);
    }
    forall a | 0 <= a < |mem| && !InDest(fs', a)
      ensures mem'[a] == copied[a]
    {
      SameDest(fs, i, g, a);
      assert !Inside(fs'[i], a);
    }
    forall k, l | 0 <= k < l < |fs'|
      ensures Disjoint(fs'[k], fs'[l])
    {
      assert Disjoint(fs[k], fs[l]);
    }
  }

  lemma MarkKeepsFlight(mem: seq<byte>, copied: seq<byte>, fs: seq<Flight>, i: nat, g: Flight, mem': seq<byte>, k: nat)
    requires AllWf(fs) && i < |fs| && |mem'| == |mem| && k < |fs|
    requires forall k, l :: 0 <= k < l < |fs| ==> Disjoint(fs[k], fs[l])
    requires InPlace(fs[k], mem) && Copied(fs[k], copied)
    requires Wf(g) && g.here == fs[i].here && g.dst == fs[i].dst && g.data == fs[i].data && InPlace(g, mem')
    requires forall a :: 0 <= a < |mem| && !Inside(g, a) ==> mem'[a] == mem[a]
    ensures Wf(fs[i := g][k]) && InPlace(fs[i := g][k], mem') && Copied(fs[i := g][k], copied)
  {
    if k != i {
      if k < i { assert Disjoint(fs[k], fs[i]); } else { assert Disjoint(fs[i], fs[k]); }
      OthersInPlace(fs[k], g, mem, mem');
    } else {
      assert Copied(fs[i], copied);
    }
  }

  lemma WriteKeepsBytes(mem: seq<byte>, dst: nat, data: seq<byte>, off: nat, len: nat, lo: nat, n: nat)
    requires off + len <= |data| && dst + |data| <= |mem|
    requires Bytes(mem, dst, data, lo, n) || (lo == off && n == len)
    ensures Bytes(Write(mem, dst + off, data[off..off + len]), dst, data, lo, n)
  {
    var mem' := Write(mem, dst + off, data[off..off + len]);
    forall b | lo <= b < lo + n && b < |data|
      ensures mem'[dst + b] == data[b]
    {
      if off <= b < off + len {
        assert mem'[dst + b] == data[off..off + len][b - off];
      } else {
        assert mem'[dst + b] == mem[dst + b];
      }
    }
  }

  lemma LandInPlace(f: Flight, mem: seq<byte>, j: nat, off: nat, len: nat, g: Flight, mem': seq<byte>)
    requires Wf(f) && InPlace(f, mem) && j < |f.shares| && g == f.(landed := f.landed[j := true]) && Wf(g)
    requires off == Prefix(f.shares, j) && len == f.shares[j] && off + len <= |f.data|
    requires f.here ==> f.dst + |f.data| <= |mem|
    requires mem' == Arrive(mem, f.here, f.dst + off, f.data[off..off + len])
    ensures InPlace(g, mem')
  {
    forall k | f.here && 0 <= k < |g.shares| && g.landed[k]
      ensures PieceInPlace(g, mem', k)
    {
      if k != j { assert PieceInPlace(f, mem, k); }
      LandPiece(f, mem, j, k, off, len);
    }
  }

  lemma LandPiece(f: Flight, mem: seq<byte>, j: nat, k: nat, off: nat, len: nat)
    requires f.dst + |f.data| <= |mem| && j < |f.shares| && k < |f.shares|
    requires off == Prefix(f.shares, j) && len == f.shares[j] && off + len <= |f.data|
    requires k == j || PieceInPlace(f, mem, k)
    ensures PieceInPlace(f, Write(mem, f.dst + off, f.data[off..off + len]), k)
  {
    WriteKeepsBytes(mem, f.dst, f.data, off, len, Prefix(f.shares, k), f.shares[k]);
  }

  lemma OthersInPlace(h: Flight, f: Flight, mem: seq<byte>, mem': seq<byte>)
    requires Wf(h) && InPlace(h, mem) && |mem'| == |mem| && Disjoint(h, f)
    requires forall a :: 0 <= a < |mem| && !Inside(f, a) ==> mem'[a] == mem[a]
    ensures InPlace(h, mem')
  {
    forall k | h.here && 0 <= k < |h.shares| && h.landed[k]
      ensures PieceInPlace(h, mem', k)
    {
      assert PieceInPlace(h, mem, k);
      SameBytes(mem, mem', h.dst, h.data, Prefix(h.shares, k), h.shares[k]);
    }
  }

  lemma SameBytes(mem: seq<byte>, mem': seq<byte>, dst: nat, data: seq<byte>, lo: nat, n: nat)
    requires dst + |data| <= |mem| == |mem'| && Bytes(mem, dst, data, lo, n)
    requires forall a :: dst <= a < dst + |data| ==> mem'[a] == mem[a]
    ensures Bytes(mem', dst, data, lo, n)
  {
  }

  lemma CountKeepsInv(c: Config, s: State, t: State, i: nat, j: nat)
    requires ValidConfig(c) && Inv(c, s) && DoCount(s, t, i, j)
    ensures Inv(c, t)
    ensures t.counter == s.counter + SigAdd(s.flights[i].shares, j)
  {
    var f, g := s.flights[i], t.flights[i];
    assert Wf(f) && !AllCounted(f);
    CountKeepsCounter(c, s, t, i, j);
    assert Round(s)[i - s.base] == f;
    CountKeepsInPlace(f, g, s.mem);
    MarkKeepsMemory(s.mem, s.copied, Round(s), i - s.base, g, s.mem);
  }

  lemma CountKeepsCounter(c: Config, s: State, t: State, i: nat, j: nat)
    requires ValidConfig(c) && CounterInv(c, s) && s.base <= i && DoCount(s, t, i, j)
    ensures CounterInv(c, t) && Round(t) == Round(s)[i - s.base := t.flights[i]] && Wf(t.flights[i])
    ensures t.counter == s.counter + SigAdd(s.flights[i].shares, j)
  {
    assert Round(s)[i - s.base] == s.flights[i];
    assert Round(t) == Round(s)[i - s.base := t.flights[i]];
    CountMovesCounter(c, Round(s), i - s.base, j);
  }

  /** Counting a piece moves the sum by its increment, and the 64-bit addition is exact. */
  lemma CountMovesCounter(c: Config, fs: seq<Flight>, i: nat, j: nat)
    requires ValidConfig(c) && AllWf(fs) && SumMore(fs) < TWO31 && |fs| <= c.numEvent
    requires i < |fs| && j < |fs[i].shares| && fs[i].landed[j] && !fs[i].counted[j]
    ensures var g := fs[i].(counted := fs[i].counted[j := true]);
            && Wf(g) && AllWf(fs[i := g])
            && SumMore(fs[i := g]) == SumMore(fs)
            && var sum := c.numEvent + SumApplied(fs) + SigAdd(fs[i].shares, j);
               sum == c.numEvent + SumApplied(fs[i := g]) == Wrap64(sum)
  {
    var f := fs[i];
    var g := f.(counted := f.counted[j := true]);
    assert Wf(f) && Wf(g);
    SumUpdate(fs, i, g);
    AppliedUpdate(f.shares, f.counted, j, |f.shares|);
    RoundMeaning(fs[i := g]);
  }

  lemma CountKeepsInPlace(f: Flight, g: Flight, mem: seq<byte>)
    requires Wf(f) && InPlace(f, mem) && Wf(g) && g == f.(counted := g.counted)
    ensures InPlace(g, mem)
  {
    forall j | g.here && 0 <= j < |g.shares| && g.landed[j] ensures PieceInPlace(g, mem, j) {
      assert PieceInPlace(f, mem, j);
    }
  }

  /** When every piece of a message is in place, so is the message. */
  lemma AllPiecesInPlace(f: Flight, mem: seq<byte>)
    requires Wf(f) && AllCounted(f) && InPlace(f, mem)
    ensures Copied(f, mem)
  {
    forall b | f.here && 0 <= b < |f.data|
      ensures mem[f.dst + b] == f.data[b]
    {
      var j := PieceOfByte(f.shares, b);
      assert PieceInPlace(f, mem, j);
    }
  }

  lemma CopiedEverywhere(mem: seq<byte>, copied: seq<byte>, fs: seq<Flight>)
    requires AllWf(fs) && Consistent(mem, copied, fs)
    requires forall i :: 0 <= i < |fs| ==> Copied(fs[i], mem)
    ensures mem == copied
  {
    forall a | 0 <= a < |mem|
      ensures mem[a] == copied[a]
    {
      if InDest(fs, a) {
        var k :| 0 <= k < |fs| && Inside(fs[k], a);
        SameCopy(fs[k], mem, copied, a);
      }
    }
  }

  lemma SameCopy(f: Flight, mem: seq<byte>, copied: seq<byte>, a: nat)
    requires Copied(f, mem) && Copied(f, copied) && Inside(f, a)
    ensures mem[a] == copied[a]
  {
    var b := a - f.dst;
    assert copied[f.dst + b] == f.data[b] == mem[f.dst + b];
  }

  lemma TriggeredCopies(c: Config, s: State)
    requires ValidConfig(c) && Inv(c, s) && s.counter == 0
    ensures s.mem == s.copied
    ensures forall i :: 0 <= i < |s.flights| ==> AllCounted(s.flights[i])
    ensures forall i :: 0 <= i < |Round(s)| ==> Copied(Round(s)[i], s.mem)
  {
    CounterBounds(c, s);
    forall i | 0 <= i < |Round(s)| ensures Copied(Round(s)[i], s.mem) { AllPiecesInPlace(Round(s)[i], s.mem); }
    CopiedEverywhere(s.mem, s.copied, Round(s));
    forall i | s.base <= i < |s.flights| ensures AllCounted(s.flights[i]) {
      assert Round(s)[i - s.base] == s.flights[i];
    }
  }

  lemma LocalKeepsMemory(mem: seq<byte>, copied: seq<byte>, fs: seq<Flight>, mem': seq<byte>, copied': seq<byte>)
    requires AllWf(fs) && Consistent(mem, copied, fs) && |mem'| == |copied'| == |mem|
    requires forall a :: 0 <= a < |mem| && InDest(fs, a) ==> mem'[a] == mem[a] && copied'[a] == copied[a]
    requires forall a :: 0 <= a < |mem| && !InDest(fs, a) ==> mem'[a] == copied'[a]
    ensures Consistent(mem', copied', fs)
  {
    forall k | 0 <= k < |fs|
      ensures InPlace(fs[k], mem') && Copied(fs[k], copied')
    {
      LocalKeepsFlight(mem, copied, fs, mem', copied', k);
    }
  }

  lemma LocalKeepsFlight(mem: seq<byte>, copied: seq<byte>, fs: seq<Flight>, mem': seq<byte>, copied': seq<byte>, k: nat)
    requires AllWf(fs) && Consistent(mem, copied, fs) && |mem'| == |copied'| == |mem| && k < |fs|
    requires forall a :: 0 <= a < |mem| && InDest(fs, a) ==> mem'[a] == mem[a] && copied'[a] == copied[a]
    ensures InPlace(fs[k], mem') && Copied(fs[k], copied')
  {
    var f := fs[k];
    forall a | f.here && f.dst <= a < f.dst + |f.data|
      ensures mem'[a] == mem[a] && copied'[a] == copied[a]
    {
      assert Inside(fs[k], a);
    }
    forall j | f.here && 0 <= j < |f.shares| && f.landed[j]
      ensures PieceInPlace(f, mem', j)
    {
      assert PieceInPlace(f, mem, j);
      SameBytes(mem, mem', f.dst, f.data, Prefix(f.shares, j), f.shares[j]);
    }
  }

  lemma NextKeepsInv(c: Config, s: State, t: State)
    requires ValidConfig(c) && Inv(c, s) && Next(c, s, t)
    ensures Inv(c, t)
  {
    var step :| DoStep(c, s, t, step);
    match step
    case Start(here, dst, data, l, cur) => StartKeepsInv(c, s, t, here, dst, data, l, cur);
    case Land(i, j) => LandKeepsInv(c, s, t, i, j);
    case Count(i, j) => CountKeepsInv(c, s, t, i, j);
    case Reset => TriggeredCopies(c, s);
    case Local =>
      assert Round(t) == Round(s);
      LocalKeepsMemory(s.mem, s.copied, Round(s), t.mem, t.copied);
  }

  lemma {:induction false} RunKeepsInv(c: Config, run: seq<State>, k: nat)
    requires IsRun(c, run) && k < |run|
    ensures Inv(c, run[k])
  {
    if k > 0 {
      RunKeepsInv(c, run, k - 1);
      NextKeepsInv(c, run[k - 1], run[k]);
    }
  }

  // ---------- what holds in every run ----------

  /** Whatever the interleaving, the counter is zero exactly when the expected number of messages
      was started and every piece of each has been counted. */
  lemma TriggeredIffAllCounted(c: Config, run: seq<State>, k: nat)
    requires IsRun(c, run) && k < |run|
    ensures var s := run[k];
            && s.base <= |s.flights| && AllWf(s.flights)
            && (s.counter == 0 <==>
                |Round(s)| == c.numEvent && forall i :: 0 <= i < |Round(s)| ==> AllCounted(Round(s)[i]))
  {
    RunKeepsInv(c, run, k);
    CounterBounds(c, run[k]);
  }

  /** A triggered signal means that all data is in place: every message that arrives is in memory,
      and the whole memory is what one contiguous copy per message would have made of it. */
  lemma TriggeredMeansDelivered(c: Config, run: seq<State>, k: nat)
    requires IsRun(c, run) && k < |run| && run[k].counter == 0
    ensures var s := run[k];
            && s.mem == s.copied && s.base <= |s.flights|
            && forall f :: f in Round(s) && f.here ==>
                 f.dst + |f.data| <= |s.mem| && s.mem[f.dst..f.dst + |f.data|] == f.data
  {
    RunKeepsInv(c, run, k);
    TriggeredCopies(c, run[k]);
    var s := run[k];
    forall f | f in Round(s) && f.here
      ensures f.dst + |f.data| <= |s.mem| && s.mem[f.dst..f.dst + |f.data|] == f.data
    {
      assert Copied(f, s.mem);
    }
  }

  /** No addition to the counter overflows 64 bits, and it never touches an earlier round: all
      pieces of the rounds before the last reset have been counted. */
  lemma CountIsExactAndCurrent(c: Config, run: seq<State>, k: nat, i: nat, j: nat)
    requires IsRun(c, run) && k + 1 < |run| && DoCount(run[k], run[k + 1], i, j)
    ensures run[k + 1].counter == run[k].counter + SigAdd(run[k].flights[i].shares, j)
    ensures run[k].base <= i
  {
    RunKeepsInv(c, run, k);
    CountKeepsInv(c, run[k], run[k + 1], i, j);
    assert Wf(run[k].flights[i]);
    assert !AllCounted(run[k].flights[i]);
  }

  /** A reset finds no piece outstanding, of this round or of any earlier one. */
  lemma ResetLeavesNothing(c: Config, run: seq<State>, k: nat, i: nat, j: nat)
    requires IsRun(c, run) && k + 1 < |run| && DoReset(c, run[k], run[k + 1])
    requires i < |run[k].flights| && j < |run[k].flights[i].shares| && run[k].flights[i].shares[j] != 0
    ensures var f := run[k].flights[i];
            |f.counted| == |f.landed| == |f.shares| && f.counted[j] && f.landed[j]
  {
    RunKeepsInv(c, run, k);
    TriggeredCopies(c, run[k]);
    assert Wf(run[k].flights[i]) && AllCounted(run[k].flights[i]);
  }

  /** In every run the overflow bit stays clear; the check as written nevertheless reports an
      overflow exactly while the piece balance of the round is not zero, and the counter is
      negative exactly while later pieces are ahead of the pieces announced. */
  lemma ReadingsInRun(c: Config, run: seq<State>, k: nat)
    requires IsRun(c, run) && k < |run|
    ensures var s := run[k];
            && s.base <= |s.flights| && AllWf(s.flights)
            && !Bit31(s.counter)
            && (CheckAsCoded(s.counter) == Overflow <==> SumBalance(Round(s)) != 0)
            && (s.counter < 0 <==> SumBalance(Round(s)) < 0)
  {
    RunKeepsInv(c, run, k);
    CounterBounds(c, run[k]);
    Halves(c.numEvent - SumCount(Round(run[k])), SumBalance(Round(run[k])));
  }

  /** Messages of size zero produce no event: once all expected messages are asked for and all
      their pieces counted, the signal is triggered if and only if none of them was empty. */
  lemma EmptyMessageBlocksTrigger(c: Config, run: seq<State>, k: nat)
    requires IsRun(c, run) && k < |run| && run[k].asked == c.numEvent
    requires run[k].base <= |run[k].flights|
    requires forall f :: f in Round(run[k]) ==> Wf(f) && AllCounted(f)
    ensures run[k].counter == 0 <==> run[k].empty == 0
  {
    RunKeepsInv(c, run, k);
    CounterBounds(c, run[k]);
  }

  /** As soon as an empty message has been started for a signal, the signal cannot be triggered. */
  lemma EmptyNeverTriggers(c: Config, run: seq<State>, k: nat)
    requires IsRun(c, run) && k < |run| && run[k].empty > 0
    ensures run[k].counter != 0
  {
    RunKeepsInv(c, run, k);
    CounterBounds(c, run[k]);
  }

  /** The program accepts such a message whatever the signal. */
  lemma EmptyRun(c: Config, l: Class) returns (run: seq<State>)
    requires ValidConfig(c) && l in c.classes
    ensures IsRun(c, run) && run[|run| - 1].empty == 1
  {
    var s := State([], [], [], 0, 0, 0, c.numEvent);
    var t := s.(asked := 1, empty := 1);
    assert DoStep(c, s, t, Start(true, 0, [], l, 0));
    run := [s, t];
  }

  // ---------- the operations on the flag, inside a run ----------

  /** The daemon adds the increment of a completed piece to the flag: the flag follows the run. */
  method Progress(flag: Flag, add: int, ghost c: Config, ghost run: seq<State>, ghost k: nat, ghost i: nat, ghost j: nat)
    requires IsRun(c, run) && k + 1 < |run| && DoCount(run[k], run[k + 1], i, j)
    requires flag.counter == run[k].counter && add == SigAdd(run[k].flights[i].shares, j)
    modifies flag`counter
    ensures flag.counter == run[k + 1].counter
  {
    flag.Add(add);
  }

  /** What the application learns from unr_sig_check at any moment of a run: triggered exactly when
      all expected messages are there; waiting only if not; the program stops exactly while the
      pieces are out of balance. */
  method Poll(flag: Flag, ghost c: Config, ghost run: seq<State>, ghost k: nat) returns (r: Reading)
    requires IsRun(c, run) && k < |run| && flag.counter == run[k].counter
    ensures run[k].base <= |run[k].flights| && AllWf(run[k].flights)
    ensures var fs := Round(run[k]);
            && (r.Triggered? <==> |fs| == c.numEvent && forall i :: 0 <= i < |fs| ==> AllCounted(fs[i]))
            && (r.Overflow? <==> SumBalance(fs) != 0)
    ensures r.Triggered? ==> run[k].mem == run[k].copied
  {
    ReadingsInRun(c, run, k);
    TriggeredIffAllCounted(c, run, k);
    if run[k].counter == 0 { TriggeredMeansDelivered(c, run, k); }
    r := flag.Check();
  }

  /** unr_sig_reset succeeds exactly where the next round of the run can start, and leaves the flag
      where that round starts. */
  method Rearm(flag: Flag, ghost c: Config, ghost s: State) returns (ok: bool)
    requires flag.counter == s.counter && flag.numEvent == c.numEvent
    modifies flag`counter
    ensures ok <==> exists t :: DoReset(c, s, t)
    ensures ok ==> forall t :: DoReset(c, s, t) ==> flag.counter == t.counter && Round(t) == []
    ensures !ok ==> flag.counter == s.counter
  {
    ok := flag.Reset();
    if ok {
      assert DoReset(c, s, s.(counter := c.numEvent, base := |s.flights|, asked := 0, empty := 0));
    }
  }

  // ---------- when the written check and assertion can be trusted ----------

  ghost predicate SmallMessages(run: seq<State>, limit: nat) {
    forall k, i :: 0 <= k < |run| && 0 <= i < |run[k].flights| ==> |run[k].flights[i].data| <= limit
  }

  /** No run with messages of at most `limit` bytes makes the written check report an overflow that
      did not happen (src/unr/base/unr_sig.c:35) or fails the assertion counter >= 0
      (src/uri/mpi/uri_mpi_channel.c:238). */
  ghost predicate NoFalseAlarm(c: Config, limit: nat) {
    forall run: seq<State>, k: nat :: IsRun(c, run) && SmallMessages(run, limit) && 0 <= k < |run| ==>
      CheckAsCoded(run[k].counter) == CheckByLayout(run[k].counter) && run[k].counter >= 0
  }

  /** No class in use splits such messages. */
  ghost predicate NeverSplit(c: Config, limit: nat) {
    forall l :: l in c.classes ==> l.channels == 1 || limit < 2 * l.block
  }

  ghost predicate Whole(fs: seq<Flight>) { forall i :: 0 <= i < |fs| ==> NonZeros(fs[i].shares) == 1 }

  lemma {:induction false} StaysWhole(c: Config, run: seq<State>, limit: nat, k: nat)
    requires IsRun(c, run) && SmallMessages(run, limit) && NeverSplit(c, limit) && k < |run|
    ensures Whole(run[k].flights)
  {
    if k > 0 {
      StaysWhole(c, run, limit, k - 1);
      var step :| DoStep(c, run[k - 1], run[k], step);
      if step.Start? && step.data != [] {
        assert run[k].flights[|run[k].flights| - 1].data == step.data;
        SinglePiece(|step.data|, step.l.channels, step.l.block, step.cur);
      }
    }
  }

  lemma {:induction false} NoBalance(fs: seq<Flight>)
    requires AllWf(fs) && Whole(fs)
    ensures SumBalance(fs) == 0
  {
    if fs != [] {
      var f := fs[|fs| - 1];
      assert Wf(f);
      NoBalance(fs[..|fs| - 1]);
      MessageContribution(f.shares, f.counted);
    }
  }

  lemma TwoBlocks(n: nat, B: nat)
    requires n > 1 && B > 0
    ensures NonZeros(Shares(2 * B, n, B, 0)) == 2
  {
    PieceCount(2 * B, n, B, 0);
    DivUnique(2 * B, B, 2);
  }

  /** A message of two blocks is cut in two, and one of its pieces is a later one. */
  lemma TwoPieces(l: Class, data: seq<byte>) returns (f: Flight, j: nat)
    requires l.channels > 1 && l.block > 0 && |data| == 2 * l.block
    ensures f == NewFlight(l, true, 0, data, 0) && Wf(f) && More(f) == 1
    ensures j < |f.shares| && f.shares[j] != 0 && SigAdd(f.shares, j) == -TWO32
    ensures !f.landed[j] && !f.counted[j] && Prefix(f.shares, j) + f.shares[j] <= |data|
  {
    f := NewFlight(l, true, 0, data, 0);
    NewFlightWf(l, true, 0, data, 0);
    TwoBlocks(l.channels, l.block);
    j := LaterPiece(f.shares);
    PrefixMonotone(f.shares, j + 1, |f.shares|);
  }

  /** The only message of a run is started, and its piece j lands and is counted. */
  lemma StartAlone(c: Config, s: State, l: Class, data: seq<byte>, f: Flight) returns (t: State)
    requires ValidConfig(c) && l in c.classes && Init(c, s) && s.mem == data != []
    requires f == NewFlight(l, true, 0, data, 0) && More(f) < TWO31
    ensures DoStep(c, s, t, Start(true, 0, data, l, 0))
    ensures t.flights == [f] && t.base == 0 && t.counter == c.numEvent && t.mem == data
  {
    t := s.(asked := 1, flights := [f], copied := Write(data, 0, data));
    assert Round(s) == [];
  }

  lemma LandAndCount(c: Config, s: State, f: Flight, j: nat) returns (t: State, u: State)
    requires s.flights == [f] && s.base == 0 && s.counter == c.numEvent && ValidConfig(c)
    requires |f.landed| == |f.counted| == |f.shares| && j < |f.shares| && f.shares[j] != 0
    requires !f.landed[j] && !f.counted[j] && SigAdd(f.shares, j) == -TWO32
    requires Prefix(f.shares, j) + f.shares[j] <= |f.data| && f.dst + |f.data| <= |s.mem|
    ensures DoStep(c, s, t, Land(0, j)) && DoStep(c, t, u, Count(0, j))
    ensures u.counter == c.numEvent - TWO32
    ensures |t.flights| == |u.flights| == 1 && t.flights[0].data == u.flights[0].data == f.data
  {
    var off, g := Prefix(f.shares, j), f.(landed := f.landed[j := true]);
    t := s.(mem := Arrive(s.mem, f.here, f.dst + off, f.data[off..off + f.shares[j]]), flights := s.flights[0 := g]);
    u := t.(counter := Wrap64(c.numEvent - TWO32), flights := t.flights[0 := g.(counted := g.counted[j := true])]);
  }

  /** In a class of two channels or more, a message of two blocks whose later piece is counted
      first raises both alarms. */
  lemma FalseAlarmRun(c: Config, l: Class) returns (run: seq<State>)
    requires ValidConfig(c) && l in c.classes && l.channels > 1
    ensures IsRun(c, run) && SmallMessages(run, 2 * l.block) && run[|run| - 1].counter < 0
    ensures CheckAsCoded(run[|run| - 1].counter) == Overflow
    ensures CheckByLayout(run[|run| - 1].counter) == Waiting
  {
    var data: seq<byte> := seq(2 * l.block, _ => 0);
    var f, j := TwoPieces(l, data);
    var s := State(data, data, [], 0, 0, 0, c.numEvent);
    var t := StartAlone(c, s, l, data, f);
    var u, v := LandAndCount(c, t, f, j);
    run := [s, t, u, v];
    Halves(c.numEvent, -1);
  }

  lemma LaterPiece(s: seq<nat>) returns (j: nat)
    requires NonZeros(s) == 2
    ensures j < |s| && s[j] != 0 && SigAdd(s, j) == -TWO32
  {
    j := |s| - 1;
    while s[j] == 0
      invariant j < |s| && NonZerosTo(s, j + 1) == 2
      decreases j
    {
      j := j - 1;
    }
    NonZerosFirst(s, j);
  }

  /** The written check and assertion are right in every run with messages of at most `limit` bytes
      if and only if every class in use has one channel or blocks longer than half of that. */
  lemma NoFalseAlarmIff(c: Config, limit: nat)
    requires ValidConfig(c)
    ensures NoFalseAlarm(c, limit) <==> NeverSplit(c, limit)
  {
    if NeverSplit(c, limit) {
      forall run: seq<State>, k: nat | IsRun(c, run) && SmallMessages(run, limit) && 0 <= k < |run|
        ensures CheckAsCoded(run[k].counter) == CheckByLayout(run[k].counter) && run[k].counter >= 0
      {
        RunKeepsInv(c, run, k);
        StaysWhole(c, run, limit, k);
        NoBalance(Round(run[k]));
        CounterBounds(c, run[k]);
      }
    } else {
      var l :| l in c.classes && l.channels != 1 && limit >= 2 * l.block;
      var run := FalseAlarmRun(c, l);
      assert run[|run| - 1].counter < 0;
    }
  }

  /** Without a bound on the messages that means one channel in every class in use. */
  lemma NoFalseAlarmIffOneChannel(c: Config)
    requires ValidConfig(c)
    ensures (forall limit :: NoFalseAlarm(c, limit)) <==> forall l :: l in c.classes ==> l.channels == 1
  {
    if forall l :: l in c.classes ==> l.channels == 1 {
      forall limit ensures NoFalseAlarm(c, limit) { NoFalseAlarmIff(c, limit); }
    } else {
      var l :| l in c.classes && l.channels != 1;
      NoFalseAlarmIff(c, 2 * l.block);
    }
  }
}
