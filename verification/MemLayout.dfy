/** Combining the two channel lists and laying out the memory handles
    (src/unr/base/unr_channel.c:126-171). Channels are numbers below the number of channels known. */
module MemLayout {
  import opened Pigeonhole
  import opened Split

  ghost predicate Distinct(s: seq<nat>) { forall i, j :: 0 <= i < j < |s| ==> s[i] != s[j] }

  ghost predicate Below(s: seq<nat>, n: nat) { forall k :: 0 <= k < |s| ==> s[k] < n }

  // ---------- combining the channel lists ----------

  /** The intra-node channels that are not inter-node channels as well, in order. */
  function NewOnes(inter: seq<nat>, intra: seq<nat>): seq<nat> {
    if intra == [] then []
    else NewOnes(inter, intra[..|intra| - 1])
         + if intra[|intra| - 1] in inter then [] else [intra[|intra| - 1]]
  }

  function Avail(inter: seq<nat>, intra: seq<nat>): seq<nat> { inter + NewOnes(inter, intra) }

  lemma {:induction false} NewOnesFacts(inter: seq<nat>, intra: seq<nat>)
    requires Distinct(intra)
    ensures Distinct(NewOnes(inter, intra))
    ensures forall x :: x in NewOnes(inter, intra) <==> x in intra && x !in inter
  {
    if intra != [] {
      var init, last := intra[..|intra| - 1], intra[|intra| - 1];
      NewOnesFacts(inter, init);
      assert intra == init + [last];
      assert last !in init;
    }
  }

  /** The combined list holds exactly the channels of the two lists, each once. */
  lemma AvailIsUnion(inter: seq<nat>, intra: seq<nat>)
    requires Distinct(inter) && Distinct(intra)
    ensures Distinct(Avail(inter, intra))
    ensures forall x :: x in Avail(inter, intra) <==> x in inter || x in intra
  {
    NewOnesFacts(inter, intra);
    var tail, n := NewOnes(inter, intra), |inter|;
    forall i, j | 0 <= i < j < |inter + tail| ensures (inter + tail)[i] != (inter + tail)[j] {
      if i < n <= j { assert tail[j - n] in tail; }
    }
  }

  /** -1, or the place of the channel among the inter-node channels. */
  predicate Reuses(inter: seq<nat>, c: nat, r: int) {
    if r == -1 then c !in inter else 0 <= r < |inter| && inter[r] == c
  }

  lemma {:induction false} DistinctCounts(s: seq<nat>, x: nat)
    requires Distinct(s)
    ensures multiset(s)[x] <= 1
  {
    if s != [] {
      var init, last := s[..|s| - 1], s[|s| - 1];
      assert s == init + [last];
      DistinctCounts(init, x);
      if x == last { assert x !in init && x !in multiset(init); }
    }
  }

  /** The combined list of channels below n fits a table of n entries. */
  lemma AvailFits(inter: seq<nat>, intra: seq<nat>, n: nat)
    requires Distinct(inter) && Distinct(intra)
    requires Below(inter, n) && Below(intra, n)
    ensures Below(Avail(inter, intra), n) && |Avail(inter, intra)| <= n
  {
    AvailIsUnion(inter, intra);
    var all := UpTo(n);
    var avail := Avail(inter, intra);
    forall x: nat ensures multiset(avail)[x] <= 1 { DistinctCounts(avail, x); }
    DistinctSet(avail);
    forall x | x in avail ensures x < n { assert x in inter || x in intra; }
    assert Elements(avail) <= all;
    Subset(Elements(avail), all);
    forall k | 0 <= k < |avail| ensures avail[k] < n { assert avail[k] in avail; }
  }

  method Combine(inter: seq<nat>, intra: seq<nat>, avail: array<nat>, reuse: array<int>) returns (num: nat)
    requires Distinct(inter) && Distinct(intra) && reuse.Length == |intra|
    requires Below(inter, avail.Length) && Below(intra, avail.Length)
    modifies avail, reuse
    ensures num <= avail.Length && avail[..num] == Avail(inter, intra)
    ensures forall i :: 0 <= i < |intra| ==> Reuses(inter, intra[i], reuse[i])
  {
    num := 0;
    assert Avail(inter, []) == inter;
    AvailFits(inter, [], avail.Length);
    for i := 0 to |inter|
      invariant num == i && avail[..num] == inter[..i]
    {
      avail[num] := inter[i];
      num := num + 1;
    }
    for i := 0 to |intra|
      invariant num <= avail.Length && avail[..num] == Avail(inter, intra[..i])
      invariant forall k :: 0 <= k < i ==> Reuses(inter, intra[k], reuse[k])
    {
      var found := Find(inter, intra[i]);
      reuse[i] := found;
      assert intra[..i + 1][..i] == intra[..i];
      if found == -1 {
        AvailFits(inter, intra[..i + 1], avail.Length);
        avail[num] := intra[i];
        num := num + 1;
      }
    }
    assert intra[..|intra|] == intra;
  }

  method Find(inter: seq<nat>, c: nat) returns (r: int)
    ensures Reuses(inter, c, r)
  {
    for j := 0 to |inter|
      invariant c !in inter[..j]
    {
      if c == inter[j] { return j; }
    }
    return -1;
  }

  // ---------- laying out the handle ----------

  function SizesOf(avail: seq<nat>, sizes: seq<nat>): (s: seq<nat>)
    requires Below(avail, |sizes|)
    ensures |s| == |avail|
  {
    seq(|avail|, k requires 0 <= k < |avail| => sizes[avail[k]])
  }

  /** Where the part of the channel opened k-th starts: behind the header and the parts of the
      channels opened before. */
  function Place(avail: seq<nat>, sizes: seq<nat>, header: nat, k: nat): nat
    requires k <= |avail| && Below(avail, |sizes|)
  {
    header + Prefix(SizesOf(avail, sizes), k)
  }

  lemma PlacesInOrder(avail: seq<nat>, sizes: seq<nat>, header: nat, i: nat, j: nat)
    requires Below(avail, |sizes|) && i < j <= |avail|
    ensures header <= Place(avail, sizes, header, i)
    ensures Place(avail, sizes, header, i) + sizes[avail[i]] <= Place(avail, sizes, header, j)
  {
    var s := SizesOf(avail, sizes);
    PrefixMonotone(s, i + 1, j);
    assert Prefix(s, i + 1) == Prefix(s, i) + s[i];
  }

  /** The first num channels have been opened, each at its place, and none of the others. */
  ghost predicate LaidOut(avail: seq<nat>, sizes: seq<nat>, header: nat, start: map<nat, nat>, num: nat, total: nat)
    requires num <= |avail| && Below(avail, |sizes|)
  {
    && (forall k :: num <= k < |avail| ==> avail[k] !in start)
    && (forall k {:trigger Place(avail, sizes, header, k)} :: 0 <= k < num ==>
          IsAt(start, avail[k], Place(avail, sizes, header, k)))
    && total == Place(avail, sizes, header, num)
  }

  predicate IsAt(start: map<nat, nat>, c: nat, at: nat) { c in start && start[c] == at }

  lemma OpenNext(avail: seq<nat>, sizes: seq<nat>, header: nat, start: map<nat, nat>, num: nat, total: nat)
    requires num < |avail| && Below(avail, |sizes|) && Distinct(avail)
    requires LaidOut(avail, sizes, header, start, num, total)
    ensures avail[num] !in start
    ensures LaidOut(avail, sizes, header, start[avail[num] := total], num + 1, total + sizes[avail[num]])
  {
    var c := avail[num];
    var after := start[c := total];
    forall k | 0 <= k < num + 1 ensures IsAt(after, avail[k], Place(avail, sizes, header, k)) {
      if k < num {
        assert IsAt(start, avail[k], Place(avail, sizes, header, k));
      }
    }
  }

  lemma {:induction false} NewOnesPrefix(inter: seq<nat>, intra: seq<nat>, i: nat)
    requires i <= |intra|
    ensures NewOnes(inter, intra[..i]) <= NewOnes(inter, intra)
    decreases |intra|
  {
    if i < |intra| {
      var init := intra[..|intra| - 1];
      NewOnesPrefix(inter, init, i);
      assert init[..i] == intra[..i];
    } else {
      assert intra[..i] == intra;
    }
  }

  /** The next intra-node channel is the next of the combined list, or reuses an earlier one. */
  lemma NextChannel(inter: seq<nat>, intra: seq<nat>, i: nat)
    requires i < |intra|
    ensures |Avail(inter, intra[..i + 1])| == |Avail(inter, intra[..i])| + (if intra[i] in inter then 0 else 1)
    ensures |Avail(inter, intra[..i + 1])| <= |Avail(inter, intra)|
    ensures intra[i] !in inter ==> Avail(inter, intra)[|Avail(inter, intra[..i])|] == intra[i]
  {
    assert intra[..i + 1][..i] == intra[..i];
    NewOnesPrefix(inter, intra, i + 1);
  }

  /** The first n offsets are where the channels of the class were opened. */
  ghost predicate OffsetsOf(start: map<nat, nat>, chans: seq<nat>, off: seq<nat>)
    requires |off| <= |chans|
  {
    forall k :: 0 <= k < |off| ==> IsAt(start, chans[k], off[k])
  }

  lemma OffsetsStay(start: map<nat, nat>, c: nat, at: nat, chans: seq<nat>, off: seq<nat>)
    requires |off| <= |chans| && OffsetsOf(start, chans, off) && c !in start
    ensures OffsetsOf(start[c := at], chans, off)
  {
    forall k | 0 <= k < |off| ensures IsAt(start[c := at], chans[k], off[k]) {
      assert IsAt(start, chans[k], off[k]);
    }
  }

  lemma OffsetsNext(start: map<nat, nat>, chans: seq<nat>, off: seq<nat>, at: nat)
    requires |off| < |chans| && OffsetsOf(start, chans, off) && IsAt(start, chans[|off|], at)
    ensures OffsetsOf(start, chans, off + [at])
  {
  }

  /** Opens every channel once and records where its part of a handle starts; a reused channel is
      not opened again and shares the part it already has. */
  method LayOut(inter: seq<nat>, intra: seq<nat>, reuse: array<int>, sizes: seq<nat>, header: nat,
                interOff: array<nat>, intraOff: array<nat>) returns (total: nat, start: map<nat, nat>)
    requires Distinct(inter) && Distinct(intra) && reuse.Length == |intra|
    requires Below(inter, |sizes|) && Below(intra, |sizes|)
    requires forall i :: 0 <= i < |intra| ==> Reuses(inter, intra[i], reuse[i])
    requires interOff.Length == |inter| && intraOff.Length == |intra| && interOff != intraOff
    modifies interOff, intraOff
    ensures Below(Avail(inter, intra), |sizes|)
    ensures LaidOut(Avail(inter, intra), sizes, header, start, |Avail(inter, intra)|, total)
    ensures OffsetsOf(start, inter, interOff[..]) && OffsetsOf(start, intra, intraOff[..])
  {
    AvailIsUnion(inter, intra);
    AvailFits(inter, intra, |sizes|);
    total, start := OpenInter(inter, intra, sizes, header, interOff);
    total, start := OpenIntra(inter, intra, reuse[..], sizes, header, interOff[..], intraOff, total, start);
    assert intra[..|intra|] == intra;
  }

  lemma NothingOpen(avail: seq<nat>, sizes: seq<nat>, header: nat, chans: seq<nat>)
    requires Below(avail, |sizes|)
    ensures LaidOut(avail, sizes, header, map[], 0, header) && OffsetsOf(map[], chans, chans[..0])
  {
  }

  method OpenInter(inter: seq<nat>, ghost intra: seq<nat>, sizes: seq<nat>, header: nat, interOff: array<nat>)
    returns (total: nat, start: map<nat, nat>)
    requires Distinct(Avail(inter, intra)) && Below(Avail(inter, intra), |sizes|) && Below(inter, |sizes|)
    requires interOff.Length == |inter|
    modifies interOff
    ensures LaidOut(Avail(inter, intra), sizes, header, start, |inter|, total)
    ensures OffsetsOf(start, inter, interOff[..])
  {
    total, start := header, map[];
    NothingOpen(Avail(inter, intra), sizes, header, inter);
    for i := 0 to |inter|
      invariant LaidOut(Avail(inter, intra), sizes, header, start, i, total)
      invariant OffsetsOf(start, inter, interOff[..i])
    {
      total, start := OpenOne(inter, intra, sizes, header, interOff, i, total, start);
    }
    assert interOff[..|inter|] == interOff[..];
  }

  method OpenOne(inter: seq<nat>, ghost intra: seq<nat>, sizes: seq<nat>, ghost header: nat, interOff: array<nat>,
                 i: nat, total0: nat, start0: map<nat, nat>) returns (total: nat, start: map<nat, nat>)
    requires Distinct(Avail(inter, intra)) && Below(Avail(inter, intra), |sizes|) && Below(inter, |sizes|)
    requires i < |inter| == interOff.Length && OffsetsOf(start0, inter, interOff[..i])
    requires LaidOut(Avail(inter, intra), sizes, header, start0, i, total0)
    modifies interOff
    ensures LaidOut(Avail(inter, intra), sizes, header, start, i + 1, total)
    ensures OffsetsOf(start, inter, interOff[..i + 1])
  {
    ghost var before := interOff[..i];
    OpenNext(Avail(inter, intra), sizes, header, start0, i, total0);
    OffsetsStay(start0, inter[i], total0, inter, before);
    total, start := total0 + sizes[inter[i]], start0[inter[i] := total0];
    OffsetsNext(start, inter, before, total0);
    interOff[i] := total0;
    assert interOff[..i + 1] == before + [total0];
  }

  /** The inter-node channels and the first intra-node channels have been opened. */
  ghost predicate Opening(inter: seq<nat>, intra: seq<nat>, sizes: seq<nat>, header: nat, interOff: seq<nat>,
                          offs: seq<nat>, total: nat, start: map<nat, nat>)
    requires Below(Avail(inter, intra), |sizes|) && |interOff| <= |inter|
  {
    && |offs| <= |intra| && |Avail(inter, intra[..|offs|])| <= |Avail(inter, intra)|
    && LaidOut(Avail(inter, intra), sizes, header, start, |Avail(inter, intra[..|offs|])|, total)
    && OffsetsOf(start, inter, interOff) && OffsetsOf(start, intra, offs)
  }

  lemma OpenNew(inter: seq<nat>, intra: seq<nat>, sizes: seq<nat>, header: nat, interOff: seq<nat>,
                offs: seq<nat>, total: nat, start: map<nat, nat>)
    requires Distinct(Avail(inter, intra)) && Below(Avail(inter, intra), |sizes|) && |interOff| == |inter|
    requires Opening(inter, intra, sizes, header, interOff, offs, total, start)
    requires |offs| < |intra| && intra[|offs|] !in inter
    ensures intra[|offs|] < |sizes|
    ensures Opening(inter, intra, sizes, header, interOff, offs + [total], total + sizes[intra[|offs|]],
                    start[intra[|offs|] := total])
  {
    var c, num := intra[|offs|], |Avail(inter, intra[..|offs|])|;
    NextChannel(inter, intra, |offs|);
    OpenNext(Avail(inter, intra), sizes, header, start, num, total);
    OffsetsStay(start, c, total, inter, interOff);
    OffsetsStay(start, c, total, intra, offs);
    OffsetsNext(start[c := total], intra, offs, total);
  }

  lemma OpenReused(inter: seq<nat>, intra: seq<nat>, sizes: seq<nat>, header: nat, interOff: seq<nat>,
                   offs: seq<nat>, total: nat, start: map<nat, nat>, r: nat)
    requires Below(Avail(inter, intra), |sizes|) && |interOff| == |inter|
    requires Opening(inter, intra, sizes, header, interOff, offs, total, start)
    requires |offs| < |intra| && r < |inter| && inter[r] == intra[|offs|]
    ensures Opening(inter, intra, sizes, header, interOff, offs + [interOff[r]], total, start)
  {
    NextChannel(inter, intra, |offs|);
    assert IsAt(start, inter[r], interOff[r]);
    OffsetsNext(start, intra, offs, interOff[r]);
  }

  method OpenIntra(inter: seq<nat>, intra: seq<nat>, reuse: seq<int>, sizes: seq<nat>, ghost header: nat,
                   interOff: seq<nat>, intraOff: array<nat>, total0: nat, start0: map<nat, nat>)
    returns (total: nat, start: map<nat, nat>)
    requires Distinct(Avail(inter, intra)) && Below(Avail(inter, intra), |sizes|)
    requires |reuse| == |intra| && forall i :: 0 <= i < |intra| ==> Reuses(inter, intra[i], reuse[i])
    requires |interOff| == |inter| && intraOff.Length == |intra|
    requires Opening(inter, intra, sizes, header, interOff, [], total0, start0)
    modifies intraOff
    ensures Opening(inter, intra, sizes, header, interOff, intraOff[..], total, start)
  {
    total, start := total0, start0;
    for i := 0 to |intra|
      invariant Opening(inter, intra, sizes, header, interOff, intraOff[..i], total, start)
    {
      total, start := OpenOrReuse(inter, intra, reuse[i], sizes, header, interOff, intraOff, i, total, start);
    }
    assert intraOff[..|intra|] == intraOff[..];
  }

  method OpenOrReuse(inter: seq<nat>, intra: seq<nat>, r: int, sizes: seq<nat>, ghost header: nat, interOff: seq<nat>,
                     intraOff: array<nat>, i: nat, total0: nat, start0: map<nat, nat>)
    returns (total: nat, start: map<nat, nat>)
    requires Distinct(Avail(inter, intra)) && Below(Avail(inter, intra), |sizes|) && |interOff| == |inter|
    requires i < |intra| == intraOff.Length && Reuses(inter, intra[i], r)
    requires Opening(inter, intra, sizes, header, interOff, intraOff[..i], total0, start0)
    modifies intraOff
    ensures Opening(inter, intra, sizes, header, interOff, intraOff[..i + 1], total, start)
  {
    ghost var before := intraOff[..i];
    if r == -1 {
      OpenNew(inter, intra, sizes, header, interOff, before, total0, start0);
      total, start := total0 + sizes[intra[i]], start0[intra[i] := total0];
      intraOff[i] := total0;
      assert intraOff[..i + 1] == before + [total0];
    } else {
      OpenReused(inter, intra, sizes, header, interOff, before, total0, start0, r);
      total, start := total0, start0;
      intraOff[i] := interOff[r];
      assert intraOff[..i + 1] == before + [interOff[r]];
    }
  }

  /** The parts of two channels of a handle do not overlap, and all lie between header and end. */
  lemma PartsDisjoint(avail: seq<nat>, sizes: seq<nat>, header: nat, start: map<nat, nat>, total: nat, i: nat, j: nat)
    requires Below(avail, |sizes|)
    requires LaidOut(avail, sizes, header, start, |avail|, total) && i < j < |avail|
    ensures avail[i] in start && avail[j] in start
    ensures header <= start[avail[i]] <= start[avail[i]] + sizes[avail[i]] <= start[avail[j]]
    ensures start[avail[j]] + sizes[avail[j]] <= total
  {
    PlacesInOrder(avail, sizes, header, i, j);
    PlacesInOrder(avail, sizes, header, j, |avail|);
    assert IsAt(start, avail[i], Place(avail, sizes, header, i)) && IsAt(start, avail[j], Place(avail, sizes, header, j));
  }

  /** Every cell of a handle behind the header belongs to the part of a channel. */
  lemma PartsFill(avail: seq<nat>, sizes: seq<nat>, header: nat, start: map<nat, nat>, total: nat, at: nat)
    returns (c: nat)
    requires Below(avail, |sizes|)
    requires LaidOut(avail, sizes, header, start, |avail|, total) && header <= at < total
    ensures c in avail && c in start && c < |sizes|
    ensures start[c] <= at < start[c] + sizes[c]
  {
    var j := PieceOfByte(SizesOf(avail, sizes), at - header);
    c := avail[j];
    assert IsAt(start, c, Place(avail, sizes, header, j));
  }
}
