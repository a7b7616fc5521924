/** Building a plan: every message is cut into pieces and each piece is put on the list of its
    channel (src/unr/base/unr_blk.c:147-462). Inter-node channels come first, intra-node channels
    after them; each class has its own round-robin cursor for the whole batch. */
module Plan {
  import opened Split
  import opened Signal

  datatype Option<T> = None | Some(value: T)

  datatype Dma = Put | Get

  datatype Handle = Handle(addr: nat, size: nat, rank: nat)

  /** A registered block; flag 0 stands for no flag. */
  datatype Block = Block(rank: nat, memIdx: nat, offset: nat, size: nat, sendFlag: nat, recvFlag: nat)

  datatype SigRef = NoSignal | SigRef(rank: nat, flag: nat)

  datatype DmaArg = AllPut | AllGet | Each(types: seq<Dma>)

  /** The parameters of one call; None stands for a null array. */
  datatype Args = Args(loc: seq<Block>, rmt: seq<Block>, locSig: Option<seq<SigRef>>, rmtSig: Option<seq<SigRef>>,
                       locOff: Option<seq<nat>>, rmtOff: Option<seq<nat>>, size: Option<seq<nat>>, dma: DmaArg)

  /** What does not change after initialisation. interSub and intraSub say where in a memory's
      handle the part of each channel starts (module MemLayout). */
  datatype Topology = Topology(rank: nat, sameNode: seq<bool>, inter: nat, intra: nat, interBlk: nat, intraBlk: nat,
                               interSub: seq<nat>, intraSub: seq<nat>)

  /** Registered memory: this rank's own, and what the last synchronisation brought from each
      rank. */
  datatype Registry = Registry(loc: seq<Handle>, rmt: seq<seq<Handle>>)

  /** One piece as handed to a channel; sub says which part of the two handles it is given. */
  datatype Piece = Piece(locMem: Handle, rmtMem: Handle, sub: nat, locOff: nat, rmtOff: nat, size: nat, dma: Dma,
                         locFlag: nat, rmtFlag: nat, add: int)

  ghost predicate SameLength<T>(o: Option<seq<T>>, n: nat) { o.Some? ==> |o.value| == n }

  ghost predicate ValidTopology(t: Topology) {
    && t.inter > 0 && t.intra > 0 && t.interBlk > 0 && t.intraBlk > 0
    && |t.interSub| == t.inter && |t.intraSub| == t.intra
  }

  /** The arrays have num_sends elements; without a size array the blocks have equal sizes. */
  ghost predicate ValidArgs(a: Args) {
    && |a.loc| == |a.rmt|
    && SameLength(a.locSig, |a.loc|) && SameLength(a.rmtSig, |a.loc|)
    && SameLength(a.locOff, |a.loc|) && SameLength(a.rmtOff, |a.loc|) && SameLength(a.size, |a.loc|)
    && (a.dma.Each? ==> |a.dma.types| == |a.loc|)
  }

  // ---------- one message ----------

  function SizeOf(a: Args, i: nat): nat
    requires ValidArgs(a) && i < |a.loc|
  {
    if a.size.Some? then a.size.value[i] else a.loc[i].size
  }

  function DmaOf(a: Args, i: nat): Dma
    requires ValidArgs(a) && i < |a.loc|
  {
    match a.dma
    case AllPut => Put
    case AllGet => Get
    case Each(types) => types[i]
  }

  function IsIntra(t: Topology, a: Args, i: nat): bool
    requires ValidArgs(a) && i < |a.loc|
  {
    a.rmt[i].rank < |t.sameNode| && t.sameNode[a.rmt[i].rank]
  }

  function Channels(t: Topology, intra: bool): nat { if intra then t.intra else t.inter }

  function BlockSize(t: Topology, intra: bool): nat { if intra then t.intraBlk else t.interBlk }

  function SubHandle(t: Topology, intra: bool, j: nat): nat
    requires ValidTopology(t) && j < Channels(t, intra)
  {
    if intra then t.intraSub[j] else t.interSub[j]
  }

  function LocFlag(a: Args, i: nat): nat
    requires ValidArgs(a) && i < |a.loc|
  {
    if a.locSig.Some? && a.locSig.value[i].SigRef? then a.locSig.value[i].flag
    else if DmaOf(a, i).Put? then a.loc[i].sendFlag else a.loc[i].recvFlag
  }

  function RmtFlag(a: Args, i: nat): nat
    requires ValidArgs(a) && i < |a.loc|
  {
    if a.rmtSig.Some? && a.rmtSig.value[i].SigRef? then a.rmtSig.value[i].flag
    else if DmaOf(a, i).Put? then a.rmt[i].recvFlag else a.rmt[i].sendFlag
  }

  function LocStart(a: Args, i: nat): nat
    requires ValidArgs(a) && i < |a.loc|
  {
    a.loc[i].offset + if a.locOff.Some? then a.locOff.value[i] else 0
  }

  function RmtStart(a: Args, i: nat): nat
    requires ValidArgs(a) && i < |a.loc|
  {
    a.rmt[i].offset + if a.rmtOff.Some? then a.rmtOff.value[i] else 0
  }

  /** The program's assertions on message i; an empty message is skipped before most of them. */
  predicate Admissible(t: Topology, g: Registry, a: Args, i: nat)
    requires ValidArgs(a) && i < |a.loc|
  {
    && (a.size.None? ==> a.loc[i].size == a.rmt[i].size)
    && (SizeOf(a, i) > 0 ==>
          && a.loc[i].rank == t.rank && a.rmt[i].rank < |t.sameNode|
          && a.loc[i].memIdx < |g.loc|
          && a.rmt[i].rank < |g.rmt| && a.rmt[i].memIdx < |g.rmt[a.rmt[i].rank]|
          && (a.locSig.Some? && a.locSig.value[i].SigRef? ==> a.locSig.value[i].rank == t.rank)
          && (a.rmtSig.Some? && a.rmtSig.value[i].SigRef? ==> a.rmtSig.value[i].rank == a.rmt[i].rank))
  }

  ghost predicate AdmissibleTo(t: Topology, g: Registry, a: Args, m: nat)
    requires ValidArgs(a) && m <= |a.loc|
  {
    forall i :: 0 <= i < m ==> Admissible(t, g, a, i)
  }

  /** No assertion of the builder fails. */
  ghost predicate AllAdmissible(t: Topology, g: Registry, a: Args)
    requires ValidArgs(a)
  {
    |a.loc| > 0 && AdmissibleTo(t, g, a, |a.loc|)
  }

  // ---------- the lists, channel by channel ----------

  /** Where the cursor of a class stands after the first m messages. */
  function Cursor(t: Topology, a: Args, intra: bool, m: nat): (c: nat)
    requires ValidTopology(t) && ValidArgs(a) && m <= |a.loc|
    ensures c < Channels(t, intra)
  {
    if m == 0 then 0
    else if SizeOf(a, m - 1) == 0 || IsIntra(t, a, m - 1) != intra then Cursor(t, a, intra, m - 1)
    else Divided(SizeOf(a, m - 1), Channels(t, intra), BlockSize(t, intra), Cursor(t, a, intra, m - 1)).cursor
  }

  /** How message i is cut. */
  function Cut(t: Topology, a: Args, i: nat): (s: seq<nat>)
    requires ValidTopology(t) && ValidArgs(a) && i < |a.loc|
    ensures |s| == Channels(t, IsIntra(t, a, i))
  {
    var intra := IsIntra(t, a, i);
    Shares(SizeOf(a, i), Channels(t, intra), BlockSize(t, intra), Cursor(t, a, intra, i))
  }

  /** Message i puts a piece on channel j of the class. */
  predicate HasPiece(t: Topology, a: Args, intra: bool, j: nat, i: nat)
    requires ValidTopology(t) && ValidArgs(a) && i < |a.loc| && j < Channels(t, intra)
  {
    IsIntra(t, a, i) == intra && SizeOf(a, i) > 0 && Cut(t, a, i)[j] > 0
  }

  function PieceOf(t: Topology, g: Registry, a: Args, j: nat, i: nat): Piece
    requires ValidTopology(t) && ValidArgs(a) && i < |a.loc| && j < Channels(t, IsIntra(t, a, i))
    requires SizeOf(a, i) > 0 && Admissible(t, g, a, i)
  {
    var s := Cut(t, a, i);
    Piece(g.loc[a.loc[i].memIdx], g.rmt[a.rmt[i].rank][a.rmt[i].memIdx], SubHandle(t, IsIntra(t, a, i), j),
          LocStart(a, i) + Prefix(s, j), RmtStart(a, i) + Prefix(s, j), s[j], DmaOf(a, i),
          LocFlag(a, i), RmtFlag(a, i), SigAdd(s, j))
  }

  /** The list of channel j of the class after the first m messages. */
  function ChannelList(t: Topology, g: Registry, a: Args, intra: bool, j: nat, m: nat): seq<Piece>
    requires ValidTopology(t) && ValidArgs(a)
    requires m <= |a.loc| && j < Channels(t, intra) && AdmissibleTo(t, g, a, m)
  {
    if m == 0 then []
    else ChannelList(t, g, a, intra, j, m - 1)
         + if HasPiece(t, a, intra, j, m - 1) then [PieceOf(t, g, a, j, m - 1)] else []
  }

  /** A list never outgrows the arrays of num_sends elements it is kept in. */
  lemma {:induction false} ListFits(t: Topology, g: Registry, a: Args, intra: bool, j: nat, m: nat)
    requires ValidTopology(t) && ValidArgs(a) && AllAdmissible(t, g, a)
    requires m <= |a.loc| && j < Channels(t, intra)
    ensures |ChannelList(t, g, a, intra, j, m)| <= m
  {
    if m > 0 { ListFits(t, g, a, intra, j, m - 1); }
  }

  /** Lists are in message order: what earlier messages put there comes first, then the piece of
      message i if it has one. */
  lemma {:induction false} PieceInOrder(t: Topology, g: Registry, a: Args, intra: bool, j: nat, i: nat, m: nat)
    requires ValidTopology(t) && ValidArgs(a) && AllAdmissible(t, g, a)
    requires i < m <= |a.loc| && j < Channels(t, intra)
    ensures ChannelList(t, g, a, intra, j, i)
              + (if HasPiece(t, a, intra, j, i) then [PieceOf(t, g, a, j, i)] else [])
            <= ChannelList(t, g, a, intra, j, m)
    decreases m
  {
    if i < m - 1 { PieceInOrder(t, g, a, intra, j, i, m - 1); }
  }

  /** The pieces of a message lie end to end, cover exactly its bytes, and their increments sum to
      one event. */
  lemma PiecesMakeMessage(t: Topology, a: Args, i: nat)
    requires ValidTopology(t) && ValidArgs(a) && i < |a.loc| && SizeOf(a, i) > 0
    ensures var s := Cut(t, a, i);
            && Prefix(s, |s|) == SizeOf(a, i)
            && Applied(s, seq(|s|, _ => true)) == -1
  {
    var intra := IsIntra(t, a, i);
    var n, B, cur := Channels(t, intra), BlockSize(t, intra), Cursor(t, a, intra, i);
    SharesSum(SizeOf(a, i), n, B, cur);
    PieceCount(SizeOf(a, i), n, B, cur);
    var s := Cut(t, a, i);
    MessageContribution(s, seq(|s|, _ => true));
  }

  /** Every byte of a message that is not empty is carried by one piece: it is on the list of its
      channel, and it moves the byte between the same places of the two parts. */
  lemma ByteCarried(t: Topology, g: Registry, a: Args, i: nat, b: nat) returns (j: nat, p: Piece)
    requires ValidTopology(t) && ValidArgs(a) && AllAdmissible(t, g, a) && i < |a.loc| && b < SizeOf(a, i)
    ensures j < Channels(t, IsIntra(t, a, i)) && HasPiece(t, a, IsIntra(t, a, i), j, i)
    ensures Admissible(t, g, a, i) && p == PieceOf(t, g, a, j, i)
    ensures p in ChannelList(t, g, a, IsIntra(t, a, i), j, |a.loc|)
    ensures p.locOff <= LocStart(a, i) + b < p.locOff + p.size
    ensures LocStart(a, i) + b - p.locOff == RmtStart(a, i) + b - p.rmtOff
  {
    var intra := IsIntra(t, a, i);
    PiecesMakeMessage(t, a, i);
    assert Admissible(t, g, a, i);
    j := PieceOfByte(Cut(t, a, i), b);
    p := PieceOf(t, g, a, j, i);
    PieceInOrder(t, g, a, intra, j, i, |a.loc|);
    var before := ChannelList(t, g, a, intra, j, i);
    assert (before + [p])[|before|] == p;
  }

  /** No other piece of the message carries it. */
  lemma ByteCarriedOnce(t: Topology, g: Registry, a: Args, i: nat, b: nat, j: nat, k: nat)
    requires ValidTopology(t) && ValidArgs(a) && i < |a.loc| && SizeOf(a, i) > 0 && Admissible(t, g, a, i)
    requires j < Channels(t, IsIntra(t, a, i)) && k < Channels(t, IsIntra(t, a, i))
    requires var p := PieceOf(t, g, a, j, i); p.rmtOff <= RmtStart(a, i) + b < p.rmtOff + p.size
    requires var q := PieceOf(t, g, a, k, i); q.rmtOff <= RmtStart(a, i) + b < q.rmtOff + q.size
    ensures j == k
  {
    OnlyPieceOfByte(Cut(t, a, i), b, j, k);
  }

  /** A piece stays inside both registered memories whenever the part stays inside its block and
      the block inside its memory. */
  lemma PieceInBounds(t: Topology, g: Registry, a: Args, j: nat, i: nat)
    requires ValidTopology(t) && ValidArgs(a) && i < |a.loc| && j < Channels(t, IsIntra(t, a, i))
    requires SizeOf(a, i) > 0 && Admissible(t, g, a, i)
    requires LocStart(a, i) + SizeOf(a, i) <= a.loc[i].offset + a.loc[i].size <= g.loc[a.loc[i].memIdx].size
    requires RmtStart(a, i) + SizeOf(a, i) <= a.rmt[i].offset + a.rmt[i].size
             <= g.rmt[a.rmt[i].rank][a.rmt[i].memIdx].size
    ensures var p := PieceOf(t, g, a, j, i);
            p.locOff + p.size <= p.locMem.size && p.rmtOff + p.size <= p.rmtMem.size
  {
    PiecesMakeMessage(t, a, i);
    PrefixMonotone(Cut(t, a, i), j + 1, |Cut(t, a, i)|);
  }

  // ---------- cursors of the two classes ----------

  /** The channels of a class that the remainder loops of the first m messages visit, in order. */
  function VisitLog(t: Topology, a: Args, intra: bool, m: nat): seq<nat>
    requires ValidTopology(t) && ValidArgs(a) && m <= |a.loc|
  {
    if m == 0 then []
    else if SizeOf(a, m - 1) == 0 || IsIntra(t, a, m - 1) != intra then VisitLog(t, a, intra, m - 1)
    else VisitLog(t, a, intra, m - 1)
         + Divided(SizeOf(a, m - 1), Channels(t, intra), BlockSize(t, intra), Cursor(t, a, intra, m - 1)).visited
  }

  /** The cursor of each class walks its own channels cyclically, whatever messages of the other
      class come in between. */
  lemma {:induction false} ClassWalks(t: Topology, a: Args, intra: bool, m: nat)
    requires ValidTopology(t) && ValidArgs(a) && m <= |a.loc|
    ensures var n := Channels(t, intra);
            && Walk(VisitLog(t, a, intra, m), 0, n)
            && Cursor(t, a, intra, m) == Advance(0, |VisitLog(t, a, intra, m)|, n)
  {
    if m > 0 {
      ClassWalks(t, a, intra, m - 1);
      if SizeOf(a, m - 1) > 0 && IsIntra(t, a, m - 1) == intra {
        var n, log, cur := Channels(t, intra), VisitLog(t, a, intra, m - 1), Cursor(t, a, intra, m - 1);
        var d := Divided(SizeOf(a, m - 1), n, BlockSize(t, intra), cur);
        DividedWalks(SizeOf(a, m - 1), n, BlockSize(t, intra), cur);
        WalkJoin(log, d.visited, 0, n);
        AdvanceTwice(0, |log|, |d.visited|, n);
      }
    }
  }

  /** Over a whole batch of messages of any sizes and any mix of the two classes, the remainder
      loops visit any two channels of a class equally often, up to one. */
  lemma ClassFair(t: Topology, a: Args, intra: bool, c: nat, d: nat)
    requires ValidTopology(t) && ValidArgs(a) && c < Channels(t, intra) && d < Channels(t, intra)
    ensures var log := VisitLog(t, a, intra, |a.loc|);
            multiset(log)[c] <= multiset(log)[d] + 1
  {
    ClassWalks(t, a, intra, |a.loc|);
    WalkFair(VisitLog(t, a, intra, |a.loc|), Channels(t, intra), c, d);
  }

  // ---------- the builder ----------

  /** Position of a channel in the arrays of the plan: inter-node channels come first. */
  function Slot(t: Topology, intra: bool, j: nat): nat { if intra then t.inter + j else j }

  /** After m messages every channel has its list. */
  ghost predicate Built(t: Topology, g: Registry, a: Args, lists: seq<seq<Piece>>, m: nat)
    requires ValidTopology(t) && ValidArgs(a) && m <= |a.loc| && AdmissibleTo(t, g, a, m)
  {
    && |lists| == t.inter + t.intra
    && forall intra: bool, j: nat | j < Channels(t, intra) ::
         lists[Slot(t, intra, j)] == ChannelList(t, g, a, intra, j, m)
  }

  /** Puts the pieces of message i on the lists of its channels (src/unr/base/unr_blk.c:398-449). */
  method PutPieces(t: Topology, g: Registry, a: Args, i: nat, div: array<nat>, offset: array<nat>,
                   sigAdd: array<int>, lists: array<seq<Piece>>)
    requires ValidTopology(t) && ValidArgs(a) && i < |a.loc| && SizeOf(a, i) > 0 && Admissible(t, g, a, i)
    requires var n := |Cut(t, a, i)|; n <= div.Length && n <= offset.Length && n <= sigAdd.Length
    requires div[..|Cut(t, a, i)|] == Cut(t, a, i)
    requires forall j | 0 <= j < |Cut(t, a, i)| :: offset[j] == Prefix(Cut(t, a, i), j) && sigAdd[j] == SigAdd(Cut(t, a, i), j)
    requires lists.Length == t.inter + t.intra
    modifies lists
    ensures forall intra: bool, j: nat | j < Channels(t, intra) ::
              lists[Slot(t, intra, j)] == old(lists[Slot(t, intra, j)])
                + if HasPiece(t, a, intra, j, i) then [PieceOf(t, g, a, j, i)] else []
  {
    var isIntra := IsIntra(t, a, i);
    var n := Channels(t, isIntra);
    ghost var s := Cut(t, a, i);
    for j := 0 to n
      invariant forall intra: bool, k: nat | k < Channels(t, intra) ::
                  lists[Slot(t, intra, k)] == old(lists[Slot(t, intra, k)])
                    + if k < j && HasPiece(t, a, intra, k, i) then [PieceOf(t, g, a, k, i)] else []
    {
      if div[j] != 0 {
        assert div[j] == s[j];
        var p := Piece(g.loc[a.loc[i].memIdx], g.rmt[a.rmt[i].rank][a.rmt[i].memIdx], SubHandle(t, isIntra, j),
                       LocStart(a, i) + offset[j], RmtStart(a, i) + offset[j], div[j], DmaOf(a, i),
                       LocFlag(a, i), RmtFlag(a, i), sigAdd[j]);
        lists[Slot(t, isIntra, j)] := lists[Slot(t, isIntra, j)] + [p];
      }
    }
  }

  /** One message: divide, lay out, give increments, put on the lists, move the cursor of its
      class (src/unr/base/unr_blk.c:305-450). */
  method AddMessage(t: Topology, g: Registry, a: Args, i: nat, blk: array<nat>, div: array<nat>, offset: array<nat>,
                    sigAdd: array<int>, lists: array<seq<Piece>>, cur: nat) returns (next: nat)
    requires ValidTopology(t) && ValidArgs(a) && i < |a.loc| && SizeOf(a, i) > 0
    requires AdmissibleTo(t, g, a, i) && Admissible(t, g, a, i)
    requires Working(t, blk, IsIntra(t, a, i), div, offset, sigAdd, lists) && offset[0] == 0
    requires Built(t, g, a, lists[..], i) && cur == Cursor(t, a, IsIntra(t, a, i), i)
    modifies div, offset, sigAdd, lists
    ensures AdmissibleTo(t, g, a, i + 1) && Built(t, g, a, lists[..], i + 1) && offset[0] == 0
    ensures next == Cursor(t, a, IsIntra(t, a, i), i + 1)
  {
    var intra := IsIntra(t, a, i);
    var n := Channels(t, intra);
    ghost var B := BlockSize(t, intra);
    var sum := BlockSum(blk, n, B);
    next := Divide(SizeOf(a, i), n, blk, sum, B, div, offset, cur);
    FillSigAdd(div, n, sigAdd);
    ghost var was := lists[..];
    PutPieces(t, g, a, i, div, offset, sigAdd, lists);
    BuiltStep(t, g, a, was, lists[..], i);
  }

  lemma BuiltStep(t: Topology, g: Registry, a: Args, was: seq<seq<Piece>>, lists: seq<seq<Piece>>, i: nat)
    requires ValidTopology(t) && ValidArgs(a) && i < |a.loc|
    requires AdmissibleTo(t, g, a, i) && Admissible(t, g, a, i) && Built(t, g, a, was, i)
    requires |lists| == |was|
    requires forall intra: bool, j: nat | j < Channels(t, intra) ::
               lists[Slot(t, intra, j)] == was[Slot(t, intra, j)]
                 + if HasPiece(t, a, intra, j, i) then [PieceOf(t, g, a, j, i)] else []
    ensures AdmissibleTo(t, g, a, i + 1) && Built(t, g, a, lists, i + 1)
  {
    forall intra: bool, j: nat | j < Channels(t, intra)
      ensures lists[Slot(t, intra, j)] == ChannelList(t, g, a, intra, j, i + 1)
    {
      assert was[Slot(t, intra, j)] == ChannelList(t, g, a, intra, j, i);
    }
  }

  /** The working arrays of the builder, and the block sizes of the class it works for. */
  ghost predicate Working(t: Topology, blk: array<nat>, intra: bool, div: array<nat>, offset: array<nat>,
                          sigAdd: array<int>, lists: array<seq<Piece>>)
    reads blk
  {
    && blk.Length == Channels(t, intra) && (forall j | 0 <= j < blk.Length :: blk[j] == BlockSize(t, intra))
    && blk != div && blk != offset && div != offset
    && div.Length == offset.Length == sigAdd.Length == lists.Length == t.inter + t.intra
  }

  /** The sum of the block sizes of a class, accumulated as in src/unr/base/unr_channel.c:186-189. */
  method BlockSum(blk: array<nat>, n: nat, ghost B: nat) returns (sum: nat)
    requires n == blk.Length && forall j | 0 <= j < n :: blk[j] == B
    ensures sum == n * B
  {
    sum := 0;
    for j := 0 to n
      invariant sum == j * B
    {
      assert (j + 1) * B == j * B + B;
      sum := sum + blk[j];
    }
  }

  /** All messages (src/unr/base/unr_blk.c:239-450). Where the program stops on a failed assertion
      the result is false. */
  method BuildLists(t: Topology, g: Registry, a: Args, blkInter: array<nat>, blkIntra: array<nat>)
    returns (ok: bool, lists: array<seq<Piece>>)
    requires ValidTopology(t) && ValidArgs(a) && ValidBlocks(t, blkInter, blkIntra)
    ensures fresh(lists)
    ensures ok <==> AllAdmissible(t, g, a)
    ensures ok ==> Built(t, g, a, lists[..], |a.loc|)
  {
    var total := t.inter + t.intra;
    lists := new seq<Piece>[total](_ => []);
    if |a.loc| == 0 {
      return false, lists;
    }
    var div, offset, sigAdd := new nat[total](_ => 0), new nat[total](_ => 0), new int[total];
    var nextInter, nextIntra := 0, 0;
    for i := 0 to |a.loc|
      invariant AdmissibleTo(t, g, a, i) && Built(t, g, a, lists[..], i) && offset[0] == 0
      invariant nextInter == Cursor(t, a, false, i) && nextIntra == Cursor(t, a, true, i)
    {
      if !Admissible(t, g, a, i) {
        return false, lists;
      }
      nextInter, nextIntra := AddIfAny(t, g, a, i, blkInter, blkIntra, div, offset, sigAdd, lists, nextInter, nextIntra);
    }
    return true, lists;
  }

  /** An empty message is skipped; any other moves the cursor of its own class. */
  method AddIfAny(t: Topology, g: Registry, a: Args, i: nat, blkInter: array<nat>, blkIntra: array<nat>,
                  div: array<nat>, offset: array<nat>, sigAdd: array<int>, lists: array<seq<Piece>>,
                  curInter: nat, curIntra: nat) returns (nextInter: nat, nextIntra: nat)
    requires ValidTopology(t) && ValidArgs(a) && i < |a.loc| && AdmissibleTo(t, g, a, i) && Admissible(t, g, a, i)
    requires ValidBlocks(t, blkInter, blkIntra)
    requires Working(t, blkInter, false, div, offset, sigAdd, lists) && Working(t, blkIntra, true, div, offset, sigAdd, lists)
    requires offset[0] == 0 && Built(t, g, a, lists[..], i)
    requires curInter == Cursor(t, a, false, i) && curIntra == Cursor(t, a, true, i)
    modifies div, offset, sigAdd, lists
    ensures AdmissibleTo(t, g, a, i + 1) && Built(t, g, a, lists[..], i + 1) && offset[0] == 0
    ensures nextInter == Cursor(t, a, false, i + 1) && nextIntra == Cursor(t, a, true, i + 1)
  {
    nextInter, nextIntra := curInter, curIntra;
    if SizeOf(a, i) == 0 {
      BuiltStep(t, g, a, lists[..], lists[..], i);
    } else if IsIntra(t, a, i) {
      nextIntra := AddMessage(t, g, a, i, blkIntra, div, offset, sigAdd, lists, nextIntra);
    } else {
      nextInter := AddMessage(t, g, a, i, blkInter, div, offset, sigAdd, lists, nextInter);
    }
  }

  ghost predicate ValidBlocks(t: Topology, blkInter: array<nat>, blkIntra: array<nat>)
    reads blkInter, blkIntra
  {
    && blkInter.Length == t.inter && (forall j | 0 <= j < t.inter :: blkInter[j] == t.interBlk)
    && blkIntra.Length == t.intra && (forall j | 0 <= j < t.intra :: blkIntra[j] == t.intraBlk)
  }

  // ---------- building now or later ----------

  /** The caller's arrays; null where the program allows it. */
  datatype DmaPtr = PutPtr | GetPtr | TypesPtr(types: array<Dma>)

  datatype Caller = Caller(loc: array<Block>, rmt: array<Block>, locSig: array?<SigRef>, rmtSig: array?<SigRef>,
                           locOff: array?<nat>, rmtOff: array?<nat>, size: array?<nat>, dma: DmaPtr)

  function Copied<T>(p: array?<T>): Option<seq<T>>
    reads p
  {
    if p == null then None else Some(p[..])
  }

  /** The deep copy of the caller's arrays (src/unr/base/unr_blk.c:191-232). */
  function Snapshot(c: Caller): Args
    reads c.loc, c.rmt, c.locSig, c.rmtSig, c.locOff, c.rmtOff, c.size, if c.dma.TypesPtr? then {c.dma.types} else {}
  {
    Args(c.loc[..], c.rmt[..], Copied(c.locSig), Copied(c.rmtSig), Copied(c.locOff), Copied(c.rmtOff), Copied(c.size),
         match c.dma case PutPtr => AllPut case GetPtr => AllGet case TypesPtr(types) => Each(types[..]))
  }

  /** The check that decides between building now and later (src/unr/base/unr_blk.c:175-182). A
      rank outside the job, where the program reads past its table, counts as not synchronised. */
  predicate Synced(g: Registry, rmt: seq<Block>) {
    forall i :: 0 <= i < |rmt| ==> rmt[i].rank < |g.rmt| && rmt[i].memIdx < |g.rmt[rmt[i].rank]|
  }

  /** A plan: parameters saved (status 1) or lists built (status 2). */
  class Planned {
    var status: nat
    var para: Option<Args>
    var lists: seq<seq<Piece>>

    constructor Saved(a: Args)
      ensures status == 1 && para == Some(a)
    {
      status, para, lists := 1, Some(a), [];
    }

    constructor Ready(built: seq<seq<Piece>>)
      ensures status == 2 && lists == built
    {
      status, para, lists := 2, None, built;
    }

    ghost predicate Valid() reads this {
      (status == 1 && para.Some? && ValidArgs(para.value)) || status == 2
    }

    /** Start (src/unr/base/unr_blk.c:528-535): the first start of a plan that was created too
        early builds it, from the saved parameters and what is registered by then. */
    method Start(t: Topology, h: Registry, blkInter: array<nat>, blkIntra: array<nat>) returns (ok: bool)
      requires ValidTopology(t) && ValidBlocks(t, blkInter, blkIntra) && Valid()
      modifies this
      ensures Valid() && para == old(para)
      ensures old(status) == 2 ==> ok && status == 2 && lists == old(lists)
      ensures old(status) == 1 ==> (ok <==> AllAdmissible(t, h, para.value))
      ensures old(status) == 1 && ok ==> status == 2 && Built(t, h, para.value, lists, |para.value.loc|)
    {
      ok := true;
      if status != 2 {
        var built;
        ok, built := BuildLists(t, h, para.value, blkInter, blkIntra);
        if ok { status, lists := 2, built[..]; }
      }
    }
  }

  method MemSynced(g: Registry, rmt: seq<Block>) returns (synced: bool)
    ensures synced <==> Synced(g, rmt)
    ensures synced <==> forall i :: 0 <= i < |rmt| ==> rmt[i].rank < |g.rmt| && rmt[i].memIdx < |g.rmt[rmt[i].rank]|
  {
    for i := 0 to |rmt|
      invariant forall k :: 0 <= k < i ==> rmt[k].rank < |g.rmt| && rmt[k].memIdx < |g.rmt[rmt[k].rank]|
    {
      if rmt[i].rank >= |g.rmt| || rmt[i].memIdx >= |g.rmt[rmt[i].rank]| { return false; }
    }
    return true;
  }

  /** The saved parameters are the caller's arrays, field by field. */
  ghost predicate IsCopy(a: Args, c: Caller)
    reads c.loc, c.rmt, c.locSig, c.rmtSig, c.locOff, c.rmtOff, c.size, if c.dma.TypesPtr? then {c.dma.types} else {}
  {
    && a.loc == c.loc[..] && a.rmt == c.rmt[..]
    && (if c.locSig == null then a.locSig.None? else a.locSig.Some? && a.locSig.value == c.locSig[..])
    && (if c.rmtSig == null then a.rmtSig.None? else a.rmtSig.Some? && a.rmtSig.value == c.rmtSig[..])
    && (if c.locOff == null then a.locOff.None? else a.locOff.Some? && a.locOff.value == c.locOff[..])
    && (if c.rmtOff == null then a.rmtOff.None? else a.rmtOff.Some? && a.rmtOff.value == c.rmtOff[..])
    && (if c.size == null then a.size.None? else a.size.Some? && a.size.value == c.size[..])
    && (c.dma.PutPtr? ==> a.dma.AllPut?) && (c.dma.GetPtr? ==> a.dma.AllGet?)
    && (c.dma.TypesPtr? ==> a.dma.Each? && a.dma.types == c.dma.types[..])
  }

  lemma SnapshotIsCopy(c: Caller)
    ensures IsCopy(Snapshot(c), c)
  {
  }

  /** The last synchronisation brought every remote block of the caller. */
  ghost predicate AllKnown(g: Registry, rmt: seq<Block>) {
    forall i :: 0 <= i < |rmt| ==> rmt[i].rank < |g.rmt| && rmt[i].memIdx < |g.rmt[rmt[i].rank]|
  }

  /** Creation from the caller's values; null where the program stops. A remote block that is not
      known yet puts the plan off, and stops the program if the plan is to start at once. */
  method CreateFrom(t: Topology, g: Registry, a: Args, onceNow: bool, blkInter: array<nat>, blkIntra: array<nat>)
    returns (p: Planned?)
    requires ValidTopology(t) && ValidBlocks(t, blkInter, blkIntra) && ValidArgs(a)
    ensures p != null ==> fresh(p) && p.Valid()
    ensures Synced(g, a.rmt) ==> (p != null <==> AllAdmissible(t, g, a))
    ensures Synced(g, a.rmt) && p != null ==> p.status == 2 && Built(t, g, a, p.lists, |a.loc|)
    ensures !Synced(g, a.rmt) ==> (p != null <==> !onceNow)
    ensures !Synced(g, a.rmt) && p != null ==> p.status == 1 && p.para == Some(a)
    ensures Synced(g, a.rmt) <==> AllKnown(g, a.rmt)
  {
    var synced := MemSynced(g, a.rmt);
    p := null;
    if !synced {
      if !onceNow { p := new Planned.Saved(a); }
    } else {
      var ok, lists := BuildLists(t, g, a, blkInter, blkIntra);
      if ok { p := new Planned.Ready(lists[..]); }
    }
  }

  /** Creation (src/unr/base/unr_blk.c:147-241). */
  method Create(t: Topology, g: Registry, c: Caller, onceNow: bool, blkInter: array<nat>, blkIntra: array<nat>)
    returns (p: Planned?)
    requires ValidTopology(t) && ValidBlocks(t, blkInter, blkIntra) && ValidArgs(Snapshot(c))
    ensures p != null ==> fresh(p) && p.Valid()
    ensures IsCopy(Snapshot(c), c)
    ensures AllKnown(g, c.rmt[..]) ==>
              && (p != null <==> AllAdmissible(t, g, Snapshot(c)))
              && (p != null ==> p.status == 2 && Built(t, g, Snapshot(c), p.lists, c.loc.Length))
    ensures !AllKnown(g, c.rmt[..]) ==>
              && (p != null <==> !onceNow)
              && (p != null ==> p.status == 1 && p.para == Some(Snapshot(c)))
  {
    SnapshotIsCopy(c);
    p := CreateFrom(t, g, Snapshot(c), onceNow, blkInter, blkIntra);
  }

  /** Later registrations and synchronisations only add memory (module MemSync). */
  ghost predicate Extends(g: Registry, h: Registry) {
    && g.loc <= h.loc && |g.rmt| == |h.rmt|
    && forall r :: 0 <= r < |g.rmt| ==> g.rmt[r] <= h.rmt[r]
  }

  /** A history of the registry in which every step only adds memory. */
  ghost predicate Growing(gs: seq<Registry>) {
    forall k :: 0 <= k < |gs| - 1 ==> Extends(gs[k], gs[k + 1])
  }

  lemma {:induction false} GrowsOver(gs: seq<Registry>, i: nat, k: nat)
    requires Growing(gs) && i <= k < |gs|
    ensures Extends(gs[i], gs[k])
    decreases k
  {
    if i < k {
      GrowsOver(gs, i, k - 1);
      assert Extends(gs[k - 1], gs[k]);
    }
  }

  lemma {:induction false} SameLists(t: Topology, g: Registry, h: Registry, a: Args, intra: bool, j: nat, m: nat)
    requires ValidTopology(t) && ValidArgs(a) && m <= |a.loc| && j < Channels(t, intra)
    requires AdmissibleTo(t, g, a, m) && AdmissibleTo(t, h, a, m) && Extends(g, h)
    ensures ChannelList(t, g, a, intra, j, m) == ChannelList(t, h, a, intra, j, m)
  {
    if m > 0 {
      SameLists(t, g, h, a, intra, j, m - 1);
      assert Admissible(t, g, a, m - 1) && Admissible(t, h, a, m - 1);
    }
  }

  /** Had the plan been built at moment i of the history, it would have exactly the lists that its
      first start builds at a later moment k; and whenever it could have been built at i, that
      start succeeds. */
  lemma DeferredIsImmediate(t: Topology, gs: seq<Registry>, a: Args, i: nat, k: nat,
                            now: seq<seq<Piece>>, later: seq<seq<Piece>>)
    requires ValidTopology(t) && ValidArgs(a) && Growing(gs) && i <= k < |gs|
    requires AllAdmissible(t, gs[i], a) && Built(t, gs[i], a, now, |a.loc|)
    ensures AllAdmissible(t, gs[k], a)
    ensures Built(t, gs[k], a, later, |a.loc|) ==> later == now
  {
    GrowsOver(gs, i, k);
    forall m | 0 <= m < |a.loc| ensures Admissible(t, gs[k], a, m) { assert Admissible(t, gs[i], a, m); }
    if Built(t, gs[k], a, later, |a.loc|) {
      forall s | 0 <= s < |now| ensures later[s] == now[s] {
        var intra := s >= t.inter;
        var j := if intra then s - t.inter else s;
        SameLists(t, gs[i], gs[k], a, intra, j, |a.loc|);
        assert now[Slot(t, intra, j)] == later[Slot(t, intra, j)];
      }
    }
  }
}
