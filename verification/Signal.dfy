/** The 64-bit completion counter of a signal.

    Layout of the counter (src/unr/base/unr_blk.c:360-363): the low 31 bits count messages, bit 31
    detects overflow, the high 32 bits count sub-messages (pieces). A signal is created with the
    number of expected messages, every piece that completes adds its signed increment, and the
    signal is triggered when the counter is zero. */
module Signal {
  import opened Split

  const TWO31: int := 0x8000_0000
  const TWO32: int := 0x1_0000_0000
  const TWO63: int := 0x8000_0000_0000_0000
  const TWO64: int := 0x1_0000_0000_0000_0000

  /** The int64_t that a sum is stored into. */
  function Wrap64(x: int): (w: int)
    ensures -TWO63 <= w < TWO63
    ensures -TWO63 <= x < TWO63 ==> w == x
  {
    (x + TWO63) % TWO64 - TWO63
  }

  // ---------- increments of the pieces of one message ----------

  /** The first channel at or after j that carries a piece. */
  function FirstFrom(s: seq<nat>, j: nat): (f: nat)
    requires j <= |s|
    ensures j <= f <= |s| && (f < |s| ==> s[f] != 0)
    ensures forall i :: j <= i < f ==> s[i] == 0
    decreases |s| - j
  {
    if j == |s| || s[j] != 0 then j else FirstFrom(s, j + 1)
  }

  function FirstPiece(s: seq<nat>): nat { FirstFrom(s, 0) }

  /** Increment carried by the piece on channel j (src/unr/base/unr_blk.c:364-394). */
  function SigAdd(s: seq<nat>, j: nat): int
    requires j < |s|
  {
    if s[j] == 0 then 0
    else if NonZeros(s) == 1 then -1
    else if j == FirstPiece(s) then -1 + (NonZeros(s) - 1) * TWO32
    else -TWO32
  }

  lemma {:induction false} NonZerosFirst(s: seq<nat>, j: nat)
    requires j <= |s|
    ensures NonZerosTo(s, j) == 0 <==> j <= FirstPiece(s)
    ensures NonZerosTo(s, j) == 1 ==> forall i :: 0 <= i < j && s[i] != 0 ==> i == FirstPiece(s)
  {
    if j > 0 { NonZerosFirst(s, j - 1); }
  }

  /** The layout spelled out: the only piece of a message takes one event off. Of several, the first
      in channel order takes one event off and announces the others in the high half, and each of the
      others takes one off the high half; channels without a piece have no increment. */
  lemma IncrementsSpelledOut(s: seq<nat>, j: nat)
    requires j < |s|
    ensures s[j] == 0 ==> SigAdd(s, j) == 0
    ensures s[j] != 0 && (forall i :: 0 <= i < j ==> s[i] == 0) ==> SigAdd(s, j) == -1 + (NonZeros(s) - 1) * 0x1_0000_0000
    ensures s[j] != 0 && (exists i :: 0 <= i < j && s[i] != 0) ==> SigAdd(s, j) == -0x1_0000_0000
  {
    NonZerosFirst(s, |s|);
    if s[j] != 0 {
      if forall i :: 0 <= i < j ==> s[i] == 0 {
        assert FirstPiece(s) == j;
      } else {
        var i :| 0 <= i < j && s[i] != 0;
        assert FirstPiece(s) <= i;
      }
    }
  }

  /** The increments array, filled with the loops and early exits of the program. */
  method FillSigAdd(div: array<nat>, n: nat, sigAdd: array<int>)
    requires n <= div.Length && n <= sigAdd.Length
    modifies sigAdd
    ensures forall j | 0 <= j < n :: sigAdd[j] == SigAdd(div[..n], j)
  {
    ghost var s := div[..n];
    for j := 0 to sigAdd.Length
      invariant forall i | 0 <= i < j :: sigAdd[i] == 0
    {
      sigAdd[j] := 0;
    }
    var nonZeros := 0;
    for j := 0 to n
      invariant nonZeros == NonZerosTo(s, j)
      invariant forall i | 0 <= i < n :: sigAdd[i] == 0
    {
      if div[j] != 0 { nonZeros := nonZeros + 1; }
    }
    NonZerosFirst(s, n);
    var j := 0;
    while j < n && div[j] == 0
      invariant 0 <= j <= n && j <= FirstPiece(s)
    {
      j := j + 1;
    }
    assert j == FirstPiece(s);
    if nonZeros == 1 {
      sigAdd[j] := -1;
    } else if j < n {
      sigAdd[j] := -1 + (nonZeros - 1) * TWO32;
      j := j + 1;
      while j < n
        invariant FirstPiece(s) < j <= n
        invariant forall i | 0 <= i < j :: sigAdd[i] == SigAdd(s, i)
        invariant forall i | j <= i < n :: sigAdd[i] == 0
      {
        if div[j] != 0 { sigAdd[j] := -TWO32; }
        j := j + 1;
      }
    }
  }

  // ---------- what the completed pieces of one message add up to ----------

  /** Sum of the increments of those of the first j pieces that have completed. */
  function AppliedTo(s: seq<nat>, done: seq<bool>, j: nat): int
    requires j <= |s| == |done|
  {
    if j == 0 then 0 else AppliedTo(s, done, j - 1) + if done[j - 1] then SigAdd(s, j - 1) else 0
  }

  function Applied(s: seq<nat>, done: seq<bool>): int
    requires |s| == |done|
  {
    AppliedTo(s, done, |s|)
  }

  /** Completed pieces other than the first one. */
  function LaterTo(s: seq<nat>, done: seq<bool>, j: nat): (c: nat)
    requires j <= |s| == |done|
  {
    if j == 0 then 0
    else LaterTo(s, done, j - 1) + if done[j - 1] && s[j - 1] != 0 && j - 1 != FirstPiece(s) then 1 else 0
  }

  /** 1 once the message has been counted, that is once its first piece has completed. */
  function MessageCount(s: seq<nat>, done: seq<bool>): (c: nat)
    requires |s| == |done|
    ensures c <= 1
  {
    if FirstPiece(s) < |s| && done[FirstPiece(s)] then 1 else 0
  }

  /** Pieces announced by the first piece and not completed yet; negative while later pieces are
      ahead of the first. */
  function PieceBalance(s: seq<nat>, done: seq<bool>): int
    requires |s| == |done|
  {
    (if MessageCount(s, done) == 1 then NonZeros(s) - 1 else 0) - LaterTo(s, done, |s|)
  }

  ghost predicate Complete(s: seq<nat>, done: seq<bool>)
    requires |s| == |done|
  {
    forall j :: 0 <= j < |s| && s[j] != 0 ==> done[j]
  }

  lemma {:induction false} LaterBound(s: seq<nat>, done: seq<bool>, j: nat)
    requires j <= |s| == |done|
    ensures LaterTo(s, done, j) + (if FirstPiece(s) < j then 1 else 0) <= NonZerosTo(s, j)
    ensures LaterTo(s, done, j) + (if FirstPiece(s) < j then 1 else 0) == NonZerosTo(s, j)
            <==> forall i :: 0 <= i < j && s[i] != 0 && i != FirstPiece(s) ==> done[i]
  {
    if j > 0 { LaterBound(s, done, j - 1); }
  }

  lemma {:induction false} AppliedSplits(s: seq<nat>, done: seq<bool>, j: nat)
    requires j <= |s| == |done|
    ensures var first := if FirstPiece(s) < j && done[FirstPiece(s)] then 1 else 0;
            AppliedTo(s, done, j) ==
              -first + TWO32 * ((if first == 1 then NonZeros(s) - 1 else 0) - LaterTo(s, done, j))
  {
    if j > 0 {
      AppliedSplits(s, done, j - 1);
      NonZerosFirst(s, |s|);
    }
  }

  /** One message contributes its count in the low half and its piece balance in the high half;
      it is complete exactly when it has been counted and the balance is zero. */
  lemma MessageContribution(s: seq<nat>, done: seq<bool>)
    requires |s| == |done| && NonZeros(s) > 0
    ensures Applied(s, done) == TWO32 * PieceBalance(s, done) - MessageCount(s, done)
    ensures -(NonZeros(s) - 1) <= PieceBalance(s, done) <= NonZeros(s) - 1
    ensures MessageCount(s, done) == 1 ==> PieceBalance(s, done) >= 0
    ensures MessageCount(s, done) == 0 ==> PieceBalance(s, done) <= 0
    ensures Complete(s, done) <==> MessageCount(s, done) == 1 && PieceBalance(s, done) == 0
  {
    AppliedSplits(s, done, |s|);
    LaterBound(s, done, |s|);
    NonZerosFirst(s, |s|);
  }

  // ---------- overflow bit ----------

  /** Increments as the daemon sees them: the first piece of a message announces how many more
      follow, any other piece takes one off. */
  datatype Inc = First(more: nat) | Later

  function Value(i: Inc): int {
    match i
    case First(more) => -1 + more * TWO32
    case Later => -TWO32
  }

  /** A piece with bytes, on channel j of a message that is cut into `shares`. */
  datatype Part = Part(shares: seq<nat>, j: nat)

  ghost predicate Parts(ps: seq<Part>) {
    forall k :: 0 <= k < |ps| ==> ps[k].j < |ps[k].shares| && ps[k].shares[ps[k].j] != 0
  }

  function IncOf(s: seq<nat>, j: nat): Inc
    requires j < |s| && s[j] != 0
  {
    if j == FirstPiece(s) && NonZeros(s) > 0 then First(NonZeros(s) - 1) else Later
  }

  lemma SigAddIsInc(s: seq<nat>, j: nat)
    requires j < |s| && s[j] != 0
    ensures Value(IncOf(s, j)) == SigAdd(s, j)
    ensures IncOf(s, j).First? <==> j == FirstPiece(s)
  {
    NonZerosFirst(s, |s|);
  }

  /** The counter after a sequence of increments, stored in 64 bits each time. */
  function Run(numEvent: int, incs: seq<Inc>): int {
    if incs == [] then numEvent else Wrap64(Run(numEvent, incs[..|incs| - 1]) + Value(incs[|incs| - 1]))
  }

  function Firsts(incs: seq<Inc>): nat {
    if incs == [] then 0 else Firsts(incs[..|incs| - 1]) + if incs[|incs| - 1].First? then 1 else 0
  }

  /** Bit 31 of the two's complement counter. */
  predicate Bit31(c: int) { (c / TWO31) % 2 == 1 }

  lemma {:induction false} RunResidue(numEvent: int, incs: seq<Inc>) returns (high: int)
    ensures Run(numEvent, incs) == numEvent - Firsts(incs) + high * TWO32
  {
    if incs == [] {
      high := 0;
    } else {
      var init, last := incs[..|incs| - 1], incs[|incs| - 1];
      var h := RunResidue(numEvent, init);
      var x := Run(numEvent, init) + Value(last);
      var t := (x + TWO63) / TWO64;
      assert x + TWO63 == t * TWO64 + (x + TWO63) % TWO64;
      high := h + (if last.First? then last.more as int else -1) - t * TWO32;
    }
  }

  lemma Halves(low: int, high: int)
    requires -TWO31 <= low < TWO31
    ensures Bit31(low + high * TWO32) <==> low < 0
    ensures (low + high * TWO32) / TWO31 == 0 <==> low >= 0 && high == 0
    ensures low + high * TWO32 == 0 <==> low == 0 && high == 0
    ensures low + high * TWO32 < 0 <==> high < 0 || (high == 0 && low < 0)
  {
  }

  /** The overflow bit is set exactly when more messages were counted than expected, whatever
      other pieces completed and even if the high half wrapped around. */
  lemma OverflowBit(numEvent: nat, incs: seq<Inc>)
    requires numEvent < TWO31 && Firsts(incs) <= numEvent + TWO31
    ensures Bit31(Run(numEvent, incs)) <==> Firsts(incs) > numEvent
  {
    var high := RunResidue(numEvent, incs);
    Halves(numEvent - Firsts(incs), high);
  }

  /** The bound on the excess is exact: with one message more the bit reads clear again. */
  lemma OverflowBitLimit(numEvent: nat, incs: seq<Inc>)
    requires numEvent < TWO31 && Firsts(incs) == numEvent + TWO31 + 1
    ensures !Bit31(Run(numEvent, incs))
  {
    var high := RunResidue(numEvent, incs);
    assert numEvent - Firsts(incs) == TWO31 - 1 - TWO32;
    Halves(TWO31 - 1, high - 1);
  }

  /** The counter after pieces have completed, any of any messages in any order. */
  function RunParts(numEvent: int, ps: seq<Part>): int
    requires forall k :: 0 <= k < |ps| ==> ps[k].j < |ps[k].shares|
  {
    if ps == [] then numEvent
    else Wrap64(RunParts(numEvent, ps[..|ps| - 1]) + SigAdd(ps[|ps| - 1].shares, ps[|ps| - 1].j))
  }

  /** How many of the pieces were the first of their message. */
  function FirstParts(ps: seq<Part>): nat {
    if ps == [] then 0
    else FirstParts(ps[..|ps| - 1]) + if ps[|ps| - 1].j == FirstPiece(ps[|ps| - 1].shares) then 1 else 0
  }

  lemma {:induction false} PartsAreIncs(numEvent: int, ps: seq<Part>) returns (incs: seq<Inc>)
    requires Parts(ps)
    ensures Run(numEvent, incs) == RunParts(numEvent, ps) && Firsts(incs) == FirstParts(ps)
  {
    if ps == [] {
      incs := [];
    } else {
      var last := ps[|ps| - 1];
      var init := PartsAreIncs(numEvent, ps[..|ps| - 1]);
      SigAddIsInc(last.shares, last.j);
      incs := init + [IncOf(last.shares, last.j)];
      assert incs[..|incs| - 1] == init;
    }
  }

  /** The same for the increments that the plan builder gives to pieces: bit 31 tells whether the
      first pieces of more messages than expected have completed. */
  lemma OverflowBitOfParts(numEvent: nat, ps: seq<Part>)
    requires numEvent < TWO31 && Parts(ps) && FirstParts(ps) <= numEvent + TWO31
    ensures Bit31(RunParts(numEvent, ps)) <==> FirstParts(ps) > numEvent
  {
    var incs := PartsAreIncs(numEvent, ps);
    OverflowBit(numEvent, incs);
  }

  // ---------- create, check, reset ----------

  datatype Reading = Triggered | Waiting | Overflow

  /** The check as the layout comment describes it: only bit 31 reports an overflow. */
  function CheckByLayout(c: int): Reading {
    if Bit31(c) then Overflow else if c == 0 then Triggered else Waiting
  }

  /** The check as written (src/unr/base/unr_sig.c:35): the int constant 1<<31 is sign-extended to
      64 bits, so the mask covers bits 31 to 63 and tests whether the counter shifted right
      arithmetically by 31 is non-zero. */
  function CheckAsCoded(c: int): Reading {
    if c / TWO31 != 0 then Overflow else if c == 0 then Triggered else Waiting
  }

  /** The written check never misses an overflow and never misreads a trigger; it differs from
      the layout exactly while the high half is unbalanced, and then it reports an overflow that
      did not happen. */
  lemma ChecksDiffer(low: int, high: int)
    requires -TWO31 <= low < TWO31
    ensures var c := low + high * TWO32;
            && (CheckAsCoded(c) != CheckByLayout(c) <==> low >= 0 && high != 0)
            && (CheckAsCoded(c) != CheckByLayout(c) ==> CheckAsCoded(c) == Overflow && CheckByLayout(c) == Waiting)
            && (CheckAsCoded(c) == Triggered <==> CheckByLayout(c) == Triggered)
  {
    Halves(low, high);
  }

  class Flag {
    var counter: int // int64_t
    var numEvent: nat // uint32_t
    var idx: int

    constructor (counter: int, numEvent: nat)
      ensures this.counter == counter && this.numEvent == numEvent && idx == -1
    {
      this.counter, this.numEvent, idx := counter, numEvent, -1;
    }

    method Check() returns (r: Reading)
      ensures r == CheckAsCoded(counter)
    {
      if counter / TWO31 != 0 {
        return Overflow;
      }
      return if counter == 0 then Triggered else Waiting;
    }

    /** Fails, as the program's assertion does, unless the signal is triggered. */
    method Reset() returns (ok: bool)
      modifies `counter
      ensures ok <==> old(counter) == 0
      ensures counter == if ok then numEvent else old(counter)
    {
      ok := counter == 0;
      if ok { counter := numEvent; }
    }

    /** A completion adds its increment. */
    method Add(add: int)
      modifies `counter
      ensures counter == Wrap64(old(counter) + add)
    {
      counter := Wrap64(counter + add);
    }
  }

  /** What src/unr/base/unr_sig.c:16-17 lets through: the bound 1<<31 is compared as an unsigned
      64-bit number. */
  predicate CreateAccepts(numEvent: nat) { 0 < numEvent < TWO64 - TWO31 }

  /** An ordinary number of events gives a signal that counts it down; zero is refused; and so, for
      the unsigned comparison, is only what is within 2^31 of the end of 64 bits. */
  method SigCreate(numEvent: nat) returns (f: Flag?)
    requires numEvent < TWO64
    ensures f != null <==> CreateAccepts(numEvent)
    ensures f != null ==> fresh(f) && f.counter == Wrap64(numEvent) && f.numEvent == numEvent % TWO32 && f.idx == -1
    ensures numEvent == 0 ==> f == null
    ensures 0 < numEvent < 0x8000_0000 ==> f != null && f.counter == numEvent == f.numEvent
    ensures 0x8000_0000 <= numEvent < 0xFFFF_FFFF_8000_0000 ==> f != null
    ensures 0xFFFF_FFFF_8000_0000 <= numEvent ==> f == null
  {
    if 0 < numEvent < TWO64 - TWO31 {
      f := new Flag(Wrap64(numEvent), numEvent % TWO32);
    } else {
      f := null;
    }
  }

  /** Creation gives a signal that works (it waits when fresh, and is reset to its fresh value) if and
      only if the intended bounds hold. */
  lemma CreateUsable(numEvent: nat)
    requires numEvent < TWO64
    ensures CreateAccepts(numEvent) && CheckAsCoded(Wrap64(numEvent)) == Waiting && numEvent % TWO32 == Wrap64(numEvent)
            <==> 0 < numEvent < 0x8000_0000
  {
  }

  /** 2^31 events are accepted, and the fresh signal already reports an overflow. */
  lemma CreateTooLarge()
    ensures CreateAccepts(0x8000_0000)
    ensures CheckAsCoded(Wrap64(0x8000_0000)) == Overflow == CheckByLayout(Wrap64(0x8000_0000))
  {
  }
}
