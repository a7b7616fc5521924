/** Which pieces a verbs channel takes. Its events carry a flag and no increment, so the program
    asserts that the increment is -1 wherever an end of a piece has a flag
    (src/uri/verbs/uri_verbs_rdma.c:4-10, 76-91). */
module VerbsEvents {
  import Arith
  import opened Split
  import opened Signal
  import opened Plan
  import opened PlanRun

  /** The assertion for one end; flag 0 stands for no flag. */
  predicate EndTaken(flag: nat, add: int) { flag != 0 ==> add == -1 }

  predicate Taken(p: Piece) { EndTaken(p.locFlag, p.add) && EndTaken(p.rmtFlag, p.add) }

  ghost predicate AllTaken(list: seq<Piece>) { forall k :: 0 <= k < |list| ==> Taken(list[k]) }

  /** Filling the events of the work requests of one channel; false where the program stops. */
  method FillEvents(list: seq<Piece>) returns (ok: bool)
    ensures ok <==> AllTaken(list)
    ensures ok <==> forall k :: 0 <= k < |list| ==> list[k].add == -1 || (list[k].locFlag == 0 && list[k].rmtFlag == 0)
  {
    for k := 0 to |list|
      invariant AllTaken(list[..k])
    {
      var p := list[k];
      if p.locFlag != 0 && p.add != -1 {
        assert !Taken(list[k]);
        return false;
      }
      if p.rmtFlag != 0 && p.add != -1 {
        assert !Taken(list[k]);
        return false;
      }
      assert list[..k + 1] == list[..k] + [p];
    }
    assert list[..|list|] == list;
    return true;
  }

  // ---------- the increments of a message ----------

  /** A message of one piece sends -1, and in a message of several no piece does. */
  lemma OnlyEvent(s: seq<nat>, j: nat)
    requires j < |s| && s[j] != 0
    ensures SigAdd(s, j) == -1 <==> NonZeros(s) == 1
  {
    NonZerosFirst(s, |s|);
  }

  /** All increments of a message are -1 exactly when its class has one channel or it is shorter
      than two blocks. */
  lemma PlainEvents(size: nat, n: nat, B: nat, cur: nat)
    requires cur < n && B > 0 && size > 0
    ensures var s := Shares(size, n, B, cur);
            (forall j :: 0 <= j < n && s[j] != 0 ==> SigAdd(s, j) == -1) <==> n == 1 || size < 2 * B
  {
    var s := Shares(size, n, B, cur);
    SinglePiece(size, n, B, cur);
    PieceCount(size, n, B, cur);
    NonZerosFirst(s, n);
    var f := FirstPiece(s);
    OnlyEvent(s, f);
    forall j: nat | j < n && s[j] != 0 ensures SigAdd(s, j) == -1 <==> NonZeros(s) == 1 { OnlyEvent(s, j); }
  }

  /** Two channels and a message of two blocks: the first piece announces the second, and neither
      increment is -1. */
  lemma TwoPiecesRefused(B: nat)
    requires B > 0
    ensures var s := Shares(2 * B, 2, B, 0);
            && s == [B, B] && SigAdd(s, 0) == TWO32 - 1 && SigAdd(s, 1) == -TWO32
            && !EndTaken(1, SigAdd(s, 0)) && !EndTaken(1, SigAdd(s, 1))
  {
    var s := Shares(2 * B, 2, B, 0);
    BaseAndRemainder(2 * B, 2, B);
    assert Base(2 * B, 2, B) == B && Remainder(2 * B, 2, B) == 0 by {
      Arith.DivUnique(2 * B, 2 * B, 1);
    }
    assert s == [B, B];
    assert NonZerosTo(s, 1) == 1 && NonZerosTo(s, 2) == 2;
  }

  // ---------- the lists of a plan ----------

  /** What the caller can check of a message. */
  predicate Plain(t: Topology, a: Args, intra: bool, i: nat)
    requires ValidTopology(t) && ValidArgs(a) && i < |a.loc|
  {
    || SizeOf(a, i) == 0 || IsIntra(t, a, i) != intra
    || (LocFlag(a, i) == 0 && RmtFlag(a, i) == 0)
    || Channels(t, intra) == 1 || SizeOf(a, i) < 2 * BlockSize(t, intra)
  }

  /** The channels of a class take every piece of a message exactly when the message is plain. */
  lemma MessageTaken(t: Topology, g: Registry, a: Args, intra: bool, i: nat)
    requires ValidTopology(t) && ValidArgs(a) && i < |a.loc| && Admissible(t, g, a, i)
    ensures (forall j: nat :: j < Channels(t, intra) && HasPiece(t, a, intra, j, i) ==> Taken(PieceOf(t, g, a, j, i)))
            <==> Plain(t, a, intra, i)
  {
    if IsIntra(t, a, i) == intra && SizeOf(a, i) > 0 {
      var n, B, cur := Channels(t, intra), BlockSize(t, intra), Cursor(t, a, intra, i);
      PlainEvents(SizeOf(a, i), n, B, cur);
      var s := Cut(t, a, i);
      if !Plain(t, a, intra, i) {
        var j :| 0 <= j < n && s[j] != 0 && SigAdd(s, j) != -1;
        assert HasPiece(t, a, intra, j, i) && !Taken(PieceOf(t, g, a, j, i));
      }
    }
  }

  /** If the channels of a class are verbs channels, they take all lists of a plan as built exactly
      when every message of the class is plain: it is empty, has no flag at either end, is shorter
      than two blocks, or there is one channel. */
  lemma PlanTaken(t: Topology, g: Registry, a: Args, intra: bool)
    requires ValidTopology(t) && ValidArgs(a) && AllAdmissible(t, g, a)
    ensures (forall j: nat :: j < Channels(t, intra) ==> AllTaken(ChannelList(t, g, a, intra, j, |a.loc|)))
            <==> forall i: nat :: i < |a.loc| ==> Plain(t, a, intra, i)
  {
    if forall i: nat :: i < |a.loc| ==> Plain(t, a, intra, i) {
      forall j: nat | j < Channels(t, intra) ensures AllTaken(ChannelList(t, g, a, intra, j, |a.loc|)) {
        PlainListTaken(t, g, a, intra, j);
      }
    }
    if i: nat :| i < |a.loc| && !Plain(t, a, intra, i) {
      var j := RefusedPiece(t, g, a, intra, i);
    }
  }

  lemma PlainListTaken(t: Topology, g: Registry, a: Args, intra: bool, j: nat)
    requires ValidTopology(t) && ValidArgs(a) && AllAdmissible(t, g, a) && j < Channels(t, intra)
    requires forall i: nat :: i < |a.loc| ==> Plain(t, a, intra, i)
    ensures AllTaken(ChannelList(t, g, a, intra, j, |a.loc|))
  {
    var list := ChannelList(t, g, a, intra, j, |a.loc|);
    forall k: nat | k < |list| ensures Taken(list[k]) {
      var i := OwnerOf(t, g, a, intra, j, |a.loc|, k);
      MessageTaken(t, g, a, intra, i);
    }
  }

  /** A message that is not plain has a piece on which the program stops. */
  lemma RefusedPiece(t: Topology, g: Registry, a: Args, intra: bool, i: nat) returns (j: nat)
    requires ValidTopology(t) && ValidArgs(a) && AllAdmissible(t, g, a) && i < |a.loc| && !Plain(t, a, intra, i)
    ensures j < Channels(t, intra) && !AllTaken(ChannelList(t, g, a, intra, j, |a.loc|))
  {
    assert Admissible(t, g, a, i);
    MessageTaken(t, g, a, intra, i);
    j :| j < Channels(t, intra) && HasPiece(t, a, intra, j, i) && !Taken(PieceOf(t, g, a, j, i));
    var before, list := ChannelList(t, g, a, intra, j, i), ChannelList(t, g, a, intra, j, |a.loc|);
    PieceInOrder(t, g, a, intra, j, i, |a.loc|);
    assert list[|before|] == (before + [PieceOf(t, g, a, j, i)])[|before|];
  }
}
