/** Registering memory and exchanging the handles (src/unr/base/unr_mem.c:5-71), and finding a
    handle's header from the part of any channel (src/uri/base/uri_mem.c:17-31).

    A handle is a run of cells: a header (address, size, rank, index) and, at the places of module
    MemLayout, what each channel wrote when it registered the memory. */
module MemSync {
  import opened Split
  import opened MemLayout
  import Delivery
  import Plan

  /** Cells of the header, sizeof(unr_mem_t). */
  const HEADER: nat := 4

  /** Channels of the program and where each one's part of a handle starts. */
  datatype Layout = Layout(inter: seq<nat>, intra: seq<nat>, reuse: seq<int>, interOff: seq<nat>, intraOff: seq<nat>,
                           sizes: seq<nat>, total: nat, start: map<nat, nat>)

  /** What MemLayout.Combine and MemLayout.LayOut establish. */
  ghost predicate ValidLayout(l: Layout) {
    && Distinct(l.inter) && Distinct(l.intra) && |l.reuse| == |l.intra|
    && (forall i :: 0 <= i < |l.intra| ==> Reuses(l.inter, l.intra[i], l.reuse[i]))
    && |l.interOff| == |l.inter| && |l.intraOff| == |l.intra|
    && Below(l.inter, |l.sizes|) && Below(l.intra, |l.sizes|) && Below(Avail(l.inter, l.intra), |l.sizes|)
    && LaidOut(Avail(l.inter, l.intra), l.sizes, HEADER, l.start, |Avail(l.inter, l.intra)|, l.total)
    && OffsetsOf(l.start, l.inter, l.interOff) && OffsetsOf(l.start, l.intra, l.intraOff)
  }

  /** The initialisation of the layout from the two lists of channels. */
  method Initialise(inter: seq<nat>, intra: seq<nat>, sizes: seq<nat>) returns (l: Layout, num: nat, avail: array<nat>)
    requires Distinct(inter) && Distinct(intra) && Below(inter, |sizes|) && Below(intra, |sizes|)
    ensures l.inter == inter && l.intra == intra && l.sizes == sizes && ValidLayout(l)
    ensures fresh(avail) && num <= avail.Length && avail[..num] == Avail(inter, intra)
  {
    avail := new nat[|sizes|];
    var reuse := new int[|intra|];
    num := Combine(inter, intra, avail, reuse);
    var interOff, intraOff := new nat[|inter|], new nat[|intra|];
    var total, start := LayOut(inter, intra, reuse, sizes, HEADER, interOff, intraOff);
    l := Layout(inter, intra, reuse[..], interOff[..], intraOff[..], sizes, total, start);
  }

  /** The part that starts at `at` holds the key. */
  ghost predicate Holds(cells: seq<int>, at: nat, key: seq<int>) {
    at + |key| <= |cells| && forall x {:trigger key[x]} :: 0 <= x < |key| ==> cells[at + x] == key[x]
  }

  /** A channel registers the memory: it fills its own part of the handle. */
  method WriteKey(h: array<int>, at: nat, key: seq<int>)
    requires at + |key| <= h.Length
    modifies h
    ensures Holds(h[..], at, key)
    ensures h[..at] == old(h[..at]) && h[at + |key|..] == old(h[at + |key|..])
  {
    for i := 0 to |key|
      invariant h[at..at + i] == key[..i]
      invariant h[..at] == old(h[..at]) && h[at + |key|..] == old(h[at + |key|..])
    {
      h[at + i] := key[i];
    }
  }

  lemma HoldsStill(was: seq<int>, now: seq<int>, at: nat, key: seq<int>, from: nat, to: nat)
    requires |was| == |now| && from <= to <= |was| && was[..from] == now[..from] && was[to..] == now[to..]
    requires Holds(was, at, key) && (at + |key| <= from || to <= at)
    ensures Holds(now, at, key)
  {
    forall i | 0 <= i < |key| ensures now[at + i] == key[i] {
      assert was[at..at + |key|][i] == key[i];
      if at + |key| <= from { assert now[..from][at + i] == was[..from][at + i]; }
      else { assert now[to..][at + i - to] == was[to..][at + i - to]; }
    }
  }

  ghost predicate ValidKeys(l: Layout, keys: seq<seq<int>>) {
    |keys| == |l.sizes| && forall c :: 0 <= c < |keys| ==> |keys[c]| == l.sizes[c]
  }

  /** The first num channels of the combined list have their keys in their parts. */
  ghost predicate Written(l: Layout, keys: seq<seq<int>>, cells: seq<int>, num: nat)
    requires ValidLayout(l) && ValidKeys(l, keys) && num <= |Avail(l.inter, l.intra)|
  {
    var avail := Avail(l.inter, l.intra);
    |cells| == l.total && forall k {:trigger Place(avail, l.sizes, HEADER, k)} :: 0 <= k < num ==>
      Holds(cells, Place(avail, l.sizes, HEADER, k), keys[avail[k]])
  }

  lemma SameFront(was: seq<int>, now: seq<int>, at: nat, n: nat)
    requires n <= at <= |was| == |now| && now[..at] == was[..at]
    ensures now[..n] == was[..n]
  {
    assert now[..n] == now[..at][..n] && was[..n] == was[..at][..n];
  }

  lemma WrittenBefore(l: Layout, keys: seq<seq<int>>, was: seq<int>, now: seq<int>, at: nat, to: nat, k: nat, m: nat)
    requires ValidLayout(l) && ValidKeys(l, keys) && m < k < |Avail(l.inter, l.intra)|
    requires at == Place(Avail(l.inter, l.intra), l.sizes, HEADER, k) && Written(l, keys, was, k)
    requires at <= to <= |now| == |was| && now[..at] == was[..at] && now[to..] == was[to..]
    ensures Holds(now, Place(Avail(l.inter, l.intra), l.sizes, HEADER, m), keys[Avail(l.inter, l.intra)[m]])
  {
    var avail := Avail(l.inter, l.intra);
    PlacesInOrder(avail, l.sizes, HEADER, m, k);
    HoldsStill(was, now, Place(avail, l.sizes, HEADER, m), keys[avail[m]], at, to);
  }

  lemma WrittenNext(l: Layout, keys: seq<seq<int>>, was: seq<int>, now: seq<int>, at: nat, k: nat)
    requires ValidLayout(l) && ValidKeys(l, keys) && k < |Avail(l.inter, l.intra)|
    requires at == Place(Avail(l.inter, l.intra), l.sizes, HEADER, k) && Written(l, keys, was, k)
    requires |now| == |was| && Holds(now, at, keys[Avail(l.inter, l.intra)[k]])
    requires var to := at + |keys[Avail(l.inter, l.intra)[k]]|; now[..at] == was[..at] && now[to..] == was[to..]
    ensures Written(l, keys, now, k + 1)
  {
    var avail := Avail(l.inter, l.intra);
    forall m: nat | m < k + 1 ensures Holds(now, Place(avail, l.sizes, HEADER, m), keys[avail[m]]) {
      if m < k { WrittenBefore(l, keys, was, now, at, at + |keys[avail[k]]|, k, m); }
    }
  }

  /** One channel more: neither the header nor an earlier channel's part is touched. */
  method Register(l: Layout, h: array<int>, at: nat, key: seq<int>, ghost keys: seq<seq<int>>, ghost k: nat)
    requires ValidLayout(l) && ValidKeys(l, keys) && k < |Avail(l.inter, l.intra)|
    requires key == keys[Avail(l.inter, l.intra)[k]]
    requires at == Place(Avail(l.inter, l.intra), l.sizes, HEADER, k) && Written(l, keys, h[..], k)
    modifies h
    ensures Written(l, keys, h[..], k + 1) && h[..HEADER] == old(h[..HEADER])
  {
    PartFits(l, keys, k);
    ghost var was := h[..];
    WriteKey(h, at, key);
    SameFront(was, h[..], at, HEADER);
    WrittenNext(l, keys, was, h[..], at, k);
  }

  lemma PartFits(l: Layout, keys: seq<seq<int>>, k: nat)
    requires ValidLayout(l) && ValidKeys(l, keys) && k < |Avail(l.inter, l.intra)|
    ensures HEADER <= Place(Avail(l.inter, l.intra), l.sizes, HEADER, k)
    ensures Place(Avail(l.inter, l.intra), l.sizes, HEADER, k) + |keys[Avail(l.inter, l.intra)[k]]| <= l.total
  {
    PlacesInOrder(Avail(l.inter, l.intra), l.sizes, HEADER, k, |Avail(l.inter, l.intra)|);
  }

  lemma InterPlace(l: Layout, i: nat)
    requires ValidLayout(l) && i < |l.inter|
    ensures Avail(l.inter, l.intra)[i] == l.inter[i]
    ensures l.interOff[i] == Place(Avail(l.inter, l.intra), l.sizes, HEADER, i)
  {
    assert IsAt(l.start, l.inter[i], l.interOff[i]);
    assert IsAt(l.start, Avail(l.inter, l.intra)[i], Place(Avail(l.inter, l.intra), l.sizes, HEADER, i));
  }

  lemma IntraPlace(l: Layout, i: nat, k: nat)
    requires ValidLayout(l) && i < |l.intra| && k < |Avail(l.inter, l.intra)|
    requires Avail(l.inter, l.intra)[k] == l.intra[i]
    ensures l.intraOff[i] == Place(Avail(l.inter, l.intra), l.sizes, HEADER, k)
  {
    assert IsAt(l.start, l.intra[i], l.intraOff[i]);
    assert IsAt(l.start, Avail(l.inter, l.intra)[k], Place(Avail(l.inter, l.intra), l.sizes, HEADER, k));
  }

  /** unr_mem_reg, the handle it makes (src/unr/base/unr_mem.c:17-39): the header, then every
      channel's part; a reused channel is not registered again. */
  method NewHandle(l: Layout, keys: seq<seq<int>>, addr: nat, size: nat, rank: nat, idx: nat) returns (h: array<int>)
    requires ValidLayout(l) && ValidKeys(l, keys)
    ensures fresh(h) && h.Length >= HEADER && h[..HEADER] == [addr, size, rank, idx]
    ensures Written(l, keys, h[..], |Avail(l.inter, l.intra)|)
  {
    h := new int[l.total](_ => 0);
    h[0], h[1], h[2], h[3] := addr, size, rank, idx;
    assert h[..HEADER] == [addr, size, rank, idx];
    RegisterInter(l, keys, h);
    RegisterIntra(l, keys, h);
  }

  method RegisterInter(l: Layout, keys: seq<seq<int>>, h: array<int>)
    requires ValidLayout(l) && ValidKeys(l, keys) && Written(l, keys, h[..], 0)
    modifies h
    ensures Written(l, keys, h[..], |l.inter|) && h[..HEADER] == old(h[..HEADER])
  {
    for i := 0 to |l.inter|
      invariant h[..HEADER] == old(h[..HEADER]) && Written(l, keys, h[..], i)
    {
      InterPlace(l, i);
      Register(l, h, l.interOff[i], keys[l.inter[i]], keys, i);
    }
  }

  method RegisterIntra(l: Layout, keys: seq<seq<int>>, h: array<int>)
    requires ValidLayout(l) && ValidKeys(l, keys) && Written(l, keys, h[..], |l.inter|)
    modifies h
    ensures Written(l, keys, h[..], |Avail(l.inter, l.intra)|) && h[..HEADER] == old(h[..HEADER])
  {
    ghost var num := |l.inter|;
    for i := 0 to |l.intra|
      invariant num == |Avail(l.inter, l.intra[..i])| <= |Avail(l.inter, l.intra)|
      invariant h[..HEADER] == old(h[..HEADER]) && Written(l, keys, h[..], num)
    {
      NextChannel(l.inter, l.intra, i);
      if l.reuse[i] == -1 {
        IntraPlace(l, i, num);
        Register(l, h, l.intraOff[i], keys[l.intra[i]], keys, num);
        num := num + 1;
      }
    }
    assert l.intra[..|l.intra|] == l.intra;
  }

  /** Whichever list a channel is used through, and whether or not it is reused, the offset of its
      list leads to what it wrote itself. */
  lemma ChannelFindsKey(l: Layout, keys: seq<seq<int>>, cells: seq<int>, i: nat)
    requires ValidLayout(l) && ValidKeys(l, keys) && Written(l, keys, cells, |Avail(l.inter, l.intra)|)
    ensures i < |l.inter| ==> Holds(cells, l.interOff[i], keys[l.inter[i]])
    ensures i < |l.intra| ==> Holds(cells, l.intraOff[i], keys[l.intra[i]])
  {
    if i < |l.inter| { InterPlace(l, i); }
    if i < |l.intra| {
      AvailIsUnion(l.inter, l.intra);
      assert l.intra[i] in Avail(l.inter, l.intra);
      var k :| 0 <= k < |Avail(l.inter, l.intra)| && Avail(l.inter, l.intra)[k] == l.intra[i];
      IntraPlace(l, i, k);
    }
  }

  // ---------- the growing table of registered memories ----------

  class Registered {
    var table: array<seq<int>>
    var len: nat

    ghost predicate Valid() reads this { len <= table.Length && table.Length % 128 == 0 }

    ghost function Contents(): seq<seq<int>>
      requires Valid()
      reads this, table
    {
      table[..len]
    }

    constructor ()
      ensures Valid() && Contents() == [] && fresh(table)
    {
      table, len := new seq<int>[0], 0;
    }

    /** Makes room for 128 more entries. */
    method Grow()
      requires Valid()
      modifies `table
      ensures fresh(table) && table.Length == len + 128
      ensures table[..len] == old(Contents())
    {
      var bigger := new seq<int>[len + 128](_ => []);
      for i := 0 to len
        invariant table == old(table) && len == old(len) && i <= table.Length
        invariant bigger[..i] == table[..i] && table[..len] == old(Contents())
      {
        bigger[i] := table[i];
      }
      table := bigger;
    }

    /** Appends a handle; the table grows by 128 entries whenever it is full
        (src/unr/base/unr_mem.c:9-18). */
    method Append(cells: seq<int>)
      requires Valid()
      modifies this, table
      ensures Valid() && Contents() == old(Contents()) + [cells]
      ensures table == old(table) || fresh(table)
    {
      if len % 128 == 0 { Grow(); }
      assert table[..len] == old(Contents());
      len := len + 1;
      table[len - 1] := cells;
    }
  }

  // ---------- exchanging the handles ----------

  /** The cells that n handles take up, n * total. */
  function Times(n: nat, total: nat): nat { if n == 0 then 0 else Times(n - 1, total) + total }

  lemma {:induction false} TimesAdd(m: nat, n: nat, total: nat)
    ensures Times(m + n, total) == Times(m, total) + Times(n, total)
  {
    if n > 0 { TimesAdd(m, n - 1, total); }
  }

  lemma TimesBefore(m: nat, n: nat, total: nat)
    requires m < n
    ensures Times(m, total) + total <= Times(n, total)
  {
    TimesAdd(m + 1, n - m - 1, total);
  }

  /** The handles of a table one after the other. */
  ghost predicate Flat(buf: seq<int>, handles: seq<seq<int>>, total: nat) {
    |buf| == Times(|handles|, total)
    && forall k :: 0 <= k < |handles| ==> Holds(buf, Times(k, total), handles[k]) && |handles[k]| == total
  }

  /** All-gather with displacements, counted in handles: the buffer of rank r lies at its
      displacement. */
  ghost predicate Gathered(recv: seq<int>, sends: seq<seq<int>>, displs: seq<nat>, total: nat) {
    |displs| == |sends| && forall r :: 0 <= r < |sends| ==> Placed(recv, sends, displs, total, r)
  }

  ghost predicate Placed(recv: seq<int>, sends: seq<seq<int>>, displs: seq<nat>, total: nat, r: nat)
    requires r < |sends| == |displs|
  {
    Holds(recv, Times(displs[r], total), sends[r])
  }

  /** Rank r announces the length of its table and sends its handles. */
  ghost predicate Sent(counts: seq<nat>, sends: seq<seq<int>>, locs: seq<seq<seq<int>>>, total: nat, r: nat)
    requires r < |counts| == |sends| == |locs|
  {
    counts[r] == |locs[r]| && Flat(sends[r], locs[r], total)
  }

  method SendBuffer(handles: seq<seq<int>>, total: nat) returns (buf: array<int>)
    requires forall k :: 0 <= k < |handles| ==> |handles[k]| == total
    ensures fresh(buf) && Flat(buf[..], handles, total)
  {
    buf := new int[Times(|handles|, total)](_ => 0);
    for i := 0 to |handles|
      invariant Front(buf[..], handles, total, i)
    {
      TimesBefore(i, |handles|, total);
      ghost var was := buf[..];
      WriteKey(buf, Times(i, total), handles[i]);
      FrontNext(was, buf[..], handles, total, i);
    }
  }

  ghost predicate Front(buf: seq<int>, handles: seq<seq<int>>, total: nat, n: nat)
    requires n <= |handles|
  {
    forall k :: 0 <= k < n ==> Holds(buf, Times(k, total), handles[k])
  }

  lemma FrontNext(was: seq<int>, now: seq<int>, handles: seq<seq<int>>, total: nat, i: nat)
    requires i < |handles| && (forall k :: 0 <= k < |handles| ==> |handles[k]| == total)
    requires |was| == |now| == Times(|handles|, total) >= Times(i, total) + total && Front(was, handles, total, i)
    requires var to := Times(i, total) + total; was[..to - total] == now[..to - total] && was[to..] == now[to..]
    requires Holds(now, Times(i, total), handles[i])
    ensures Front(now, handles, total, i + 1)
  {
    forall k | 0 <= k < i + 1 ensures Holds(now, Times(k, total), handles[k]) {
      if k < i {
        TimesBefore(k, i, total);
        HoldsStill(was, now, Times(k, total), handles[k], Times(i, total), Times(i, total) + total);
      }
    }
  }

  /** Where each rank's handles start, counted in handles. */
  function Places(counts: seq<nat>): (p: seq<nat>)
    ensures |p| == |counts| && forall r :: 0 <= r < |counts| ==> p[r] == Prefix(counts, r)
  {
    seq(|counts|, r requires 0 <= r < |counts| => Prefix(counts, r))
  }

  method Displacements(counts: seq<nat>) returns (displs: array<nat>, count: nat)
    requires |counts| > 0
    ensures fresh(displs) && displs.Length == |counts| && count == Prefix(counts, |counts|)
    ensures forall r :: 0 <= r < |counts| ==> displs[r] == Prefix(counts, r)
  {
    displs := new nat[|counts|];
    displs[0] := 0;
    for i := 1 to |counts|
      invariant forall r :: 0 <= r < i ==> displs[r] == Prefix(counts, r)
    {
      displs[i] := displs[i - 1] + counts[i - 1];
    }
    count := displs[|counts| - 1] + counts[|counts| - 1];
  }

  lemma HoldsWithin(recv: seq<int>, at: nat, send: seq<int>, off: nat, cells: seq<int>)
    requires Holds(recv, at, send) && Holds(send, off, cells)
    ensures Holds(recv, at + off, cells)
  {
    forall x | 0 <= x < |cells| ensures recv[at + off + x] == cells[x] {
      assert recv[at..at + |send|][off + x] == send[off + x];
      assert send[off..off + |cells|][x] == cells[x];
    }
  }

  /** The second half of unr_mem_reg_sync (src/unr/base/unr_mem.c:47-65), given what the two
      collective calls return: every rank's table length, and the send buffers of all ranks at the
      displacements computed here. Entries are places in the receive buffer. */
  method Sync(counts: seq<nat>, recv: seq<int>, total: nat,
              ghost locs: seq<seq<seq<int>>>, ghost sends: seq<seq<int>>) returns (rmt: array<seq<nat>>)
    requires |counts| == |locs| == |sends| > 0
    requires forall r :: 0 <= r < |locs| ==> Sent(counts, sends, locs, total, r)
    requires Gathered(recv, sends, Places(counts), total)
    ensures fresh(rmt) && rmt.Length == |locs|
    ensures Copied(recv, rmt[..], locs)
  {
    var displs, _ := Displacements(counts);
    assert displs[..] == Places(counts);
    var at := displs[..];
    rmt := new seq<nat>[|counts|](_ => []);
    for i := 0 to |counts|
      invariant Copied(recv, rmt[..i], locs)
    {
      assert Placed(recv, sends, at, total, i) && Sent(counts, sends, locs, total, i);
      var row := Entries(recv, at[i], counts[i], total, locs[i], sends[i]);
      ghost var was := rmt[..i];
      rmt[i] := row;
      assert rmt[..i + 1] == was + [row];
      CopiedNext(recv, was, locs, row);
    }
    assert rmt[..|counts|] == rmt[..];
  }

  method Entries(recv: seq<int>, displ: nat, count: nat, total: nat, ghost handles: seq<seq<int>>, ghost send: seq<int>)
    returns (entries: seq<nat>)
    requires count == |handles| && Flat(send, handles, total) && Holds(recv, Times(displ, total), send)
    ensures CopyOf(recv, entries, handles)
    ensures entries == EntriesAt(displ, count, total)
  {
    entries := [];
    for j := 0 to count
      invariant |entries| == j && forall k :: 0 <= k < j ==> entries[k] == Times(displ + k, total)
    {
      entries := entries + [Times(displ + j, total)];
    }
    EntriesCopy(recv, displ, total, handles, send);
  }

  /** The places of count handles in a buffer, from handle displ on. */
  function EntriesAt(displ: nat, count: nat, total: nat): (p: seq<nat>)
    ensures |p| == count && forall k :: 0 <= k < count ==> p[k] == Times(displ + k, total)
  {
    seq<nat>(count, k requires 0 <= k < count => Times(displ + k, total))
  }

  lemma EntriesCopy(recv: seq<int>, displ: nat, total: nat, handles: seq<seq<int>>, send: seq<int>)
    requires Flat(send, handles, total) && Holds(recv, Times(displ, total), send)
    ensures CopyOf(recv, EntriesAt(displ, |handles|, total), handles)
  {
    forall k | 0 <= k < |handles| ensures Holds(recv, EntriesAt(displ, |handles|, total)[k], handles[k]) {
      TimesAdd(displ, k, total);
      assert Holds(send, Times(k, total), handles[k]);
      HoldsWithin(recv, Times(displ, total), send, Times(k, total), handles[k]);
    }
  }

  /** A table of places in the receive buffer holds copies of the handles, in order. */
  ghost predicate CopyOf(recv: seq<int>, entries: seq<nat>, handles: seq<seq<int>>) {
    |entries| == |handles| && forall k :: 0 <= k < |handles| ==> Holds(recv, entries[k], handles[k])
  }

  /** The tables of the first ranks, rank by rank. */
  ghost predicate Copied(recv: seq<int>, rmt: seq<seq<nat>>, locs: seq<seq<seq<int>>>) {
    |rmt| <= |locs| && forall r :: 0 <= r < |rmt| ==> CopyOf(recv, rmt[r], locs[r])
  }

  lemma CopiedNext(recv: seq<int>, rmt: seq<seq<nat>>, locs: seq<seq<seq<int>>>, row: seq<nat>)
    requires Copied(recv, rmt, locs) && |rmt| < |locs| && CopyOf(recv, row, locs[|rmt|])
    ensures Copied(recv, rmt + [row], locs)
  {
    forall r | 0 <= r < |rmt + [row]| ensures CopyOf(recv, (rmt + [row])[r], locs[r]) {
      if r < |rmt| { assert CopyOf(recv, rmt[r], locs[r]); }
    }
  }

  /** The displacements leave room for every rank, so that the gathering is possible whatever the
      ranks send. */
  lemma {:induction false} GatherPossible(sends: seq<seq<int>>, counts: seq<nat>, total: nat) returns (recv: seq<int>)
    requires |counts| == |sends| && forall r :: 0 <= r < |sends| ==> |sends[r]| == Times(counts[r], total)
    ensures |recv| == Times(Prefix(counts, |counts|), total)
    ensures Gathered(recv, sends, Places(counts), total)
    decreases |sends|
  {
    if |sends| == 0 {
      recv := [];
    } else {
      var n := |sends| - 1;
      var before := counts[..n];
      var front := GatherPossible(sends[..n], before, total);
      forall r | 0 <= r <= n ensures Prefix(before, r) == Prefix(counts, r) { PrefixOfFront(counts, n, r); }
      TimesAdd(Prefix(counts, n), counts[n], total);
      recv := front + sends[n];
      forall r | 0 <= r < n + 1 ensures Placed(recv, sends, Places(counts), total, r) {
        if r < n {
          assert Placed(front, sends[..n], Places(before), total, r);
          HoldsInFront(front, sends[n], Times(Prefix(counts, r), total), sends[r]);
        }
      }
    }
  }

  lemma {:induction false} PrefixOfFront(s: seq<nat>, n: nat, j: nat)
    requires j <= n <= |s|
    ensures Prefix(s[..n], j) == Prefix(s, j)
  {
    if j > 0 { PrefixOfFront(s, n, j - 1); }
  }

  lemma HoldsInFront(front: seq<int>, back: seq<int>, at: nat, key: seq<int>)
    requires Holds(front, at, key)
    ensures Holds(front + back, at, key)
  {
    assert (front + back)[at..at + |key|] == front[at..at + |key|];
  }

  /** From the part of any channel of a copied handle, subtracting the offset the channel was
      opened with leads back to the header of that very handle; and the part holds what the
      channel of the owning rank wrote. */
  lemma FromAnyPart(l: Layout, keys: seq<seq<int>>, recv: seq<int>, entry: nat, cells: seq<int>, i: nat)
    requires ValidLayout(l) && ValidKeys(l, keys) && Written(l, keys, cells, |Avail(l.inter, l.intra)|)
    requires Holds(recv, entry, cells) && |cells| >= HEADER
    ensures i < |l.inter| ==>
              && l.inter[i] in l.start && HeaderFrom(recv, entry + l.interOff[i], l.start[l.inter[i]]) == cells[..HEADER]
              && Holds(recv, entry + l.interOff[i], keys[l.inter[i]])
    ensures i < |l.intra| ==>
              && l.intra[i] in l.start && HeaderFrom(recv, entry + l.intraOff[i], l.start[l.intra[i]]) == cells[..HEADER]
              && Holds(recv, entry + l.intraOff[i], keys[l.intra[i]])
  {
    ChannelFindsKey(l, keys, cells, i);
    if i < |l.inter| {
      assert IsAt(l.start, l.inter[i], l.interOff[i]);
      FromPart(recv, entry, cells, l.interOff[i], keys[l.inter[i]]);
    }
    if i < |l.intra| {
      assert IsAt(l.start, l.intra[i], l.intraOff[i]);
      FromPart(recv, entry, cells, l.intraOff[i], keys[l.intra[i]]);
    }
  }

  lemma FromPart(recv: seq<int>, entry: nat, cells: seq<int>, off: nat, key: seq<int>)
    requires Holds(recv, entry, cells) && |cells| >= HEADER && Holds(cells, off, key)
    ensures HeaderFrom(recv, entry + off, off) == cells[..HEADER] && Holds(recv, entry + off, key)
  {
    HoldsWithin(recv, entry, cells, off, key);
    assert recv[entry..entry + |cells|][..HEADER] == recv[entry..entry + HEADER];
  }

  /** uri_mem_get_info: the header `offset` cells before the part. */
  function HeaderFrom(mem: seq<int>, part: nat, offset: nat): seq<int> {
    if offset <= part && part - offset + HEADER <= |mem| then mem[part - offset..part - offset + HEADER] else []
  }

  // ---------- all ranks together ----------

  /** One call of unr_mem_reg, and what each channel wrote for it. */
  datatype Call = Call(addr: nat, size: nat, keys: seq<seq<int>>)

  /** What unr_mem_reg makes of a call as the idx-th of its rank (NewHandle). */
  ghost predicate Made(l: Layout, call: Call, rank: nat, idx: nat, cells: seq<int>)
    requires ValidLayout(l)
  {
    && ValidKeys(l, call.keys) && |cells| >= HEADER
    && cells[..HEADER] == [call.addr, call.size, rank, idx]
    && Written(l, call.keys, cells, |Avail(l.inter, l.intra)|)
  }

  /** One rank: the calls it made, the handles in its table, and what the last synchronisation left:
      the receive buffer and, rank by rank, places in it. */
  datatype Rank = Rank(calls: seq<Call>, table: seq<seq<int>>, recv: seq<int>, rmt: seq<seq<nat>>)

  /** All ranks have the same channels and so the same layout. */
  type World = seq<Rank>

  function Tables(w: World): (ts: seq<seq<seq<int>>>)
    ensures |ts| == |w| && forall r :: 0 <= r < |w| ==> ts[r] == w[r].table
  {
    seq(|w|, r requires 0 <= r < |w| => w[r].table)
  }

  datatype Step = Reg(r: nat, call: Call, cells: seq<int>) | SyncAll

  /** Registering appends a new handle. Synchronising leaves every rank what Sync leaves, copies in
      its receive buffer of the handles of all tables, and does not touch tables. */
  ghost predicate DoStep(l: Layout, w: World, v: World, step: Step)
    requires ValidLayout(l)
  {
    match step
    case Reg(r, call, cells) =>
      && r < |w| && Made(l, call, r, |w[r].table|, cells)
      && v == w[r := w[r].(calls := w[r].calls + [call], table := w[r].table + [cells])]
    case SyncAll =>
      && |v| == |w|
      && forall p :: 0 <= p < |w| ==>
           && v[p] == w[p].(recv := v[p].recv, rmt := v[p].rmt)
           && |v[p].rmt| == |w| && Copied(v[p].recv, v[p].rmt, Tables(w))
  }

  ghost predicate Next(l: Layout, w: World, v: World)
    requires ValidLayout(l)
  {
    exists step :: DoStep(l, w, v, step)
  }

  ghost predicate IsRun(l: Layout, run: seq<World>) {
    && ValidLayout(l) && |run| > 0
    && (forall p :: 0 <= p < |run[0]| ==> run[0][p] == Rank([], [], [], seq(|run[0]|, _ => [])))
    && forall k :: 0 <= k < |run| - 1 ==> Next(l, run[k], run[k + 1])
  }

  /** Entry m of rank r at rank p is a copy of the m-th handle of rank r. */
  ghost predicate EntryKept(w: World, p: nat, r: nat, m: nat)
    requires p < |w| && r < |w| && r < |w[p].rmt| && m < |w[p].rmt[r]|
  {
    m < |w[r].table| && Holds(w[p].recv, w[p].rmt[r][m], w[r].table[m])
  }

  /** The table of a rank is what its calls made. */
  ghost predicate TableInv(l: Layout, w: World, r: nat)
    requires ValidLayout(l) && r < |w|
  {
    |w[r].table| == |w[r].calls|
    && forall m :: 0 <= m < |w[r].table| ==> Made(l, w[r].calls[m], r, m, w[r].table[m])
  }

  ghost predicate SeenInv(w: World, p: nat)
    requires p < |w|
  {
    |w[p].rmt| == |w|
    && forall r, m :: 0 <= r < |w| && 0 <= m < |w[p].rmt[r]| ==> EntryKept(w, p, r, m)
  }

  ghost predicate Inv(l: Layout, w: World, n: nat) {
    && ValidLayout(l) && |w| == n
    && (forall r :: 0 <= r < n ==> TableInv(l, w, r))
    && (forall p :: 0 <= p < n ==> SeenInv(w, p))
  }

  lemma RegKeepsInv(l: Layout, w: World, v: World, r: nat, call: Call, cells: seq<int>, n: nat)
    requires Inv(l, w, n) && DoStep(l, w, v, Reg(r, call, cells))
    ensures Inv(l, v, n)
  {
    forall q: nat | q < n ensures TableInv(l, v, q) { assert TableInv(l, w, q); }
    forall p: nat | p < n ensures SeenInv(v, p) {
      assert SeenInv(w, p);
      forall q: nat, m: nat | q < n && m < |v[p].rmt[q]| ensures EntryKept(v, p, q, m) {
        assert EntryKept(w, p, q, m);
      }
    }
  }

  lemma SyncKeepsInv(l: Layout, w: World, v: World, n: nat)
    requires Inv(l, w, n) && DoStep(l, w, v, SyncAll)
    ensures Inv(l, v, n)
  {
    forall q: nat | q < n ensures TableInv(l, v, q) { assert TableInv(l, w, q); }
    forall p: nat | p < n ensures SeenInv(v, p) {
      forall q: nat, m: nat | q < n && m < |v[p].rmt[q]| ensures EntryKept(v, p, q, m) {
        assert CopyOf(v[p].recv, v[p].rmt[q], Tables(w)[q]);
      }
    }
  }

  lemma {:induction false} RunKeepsInv(l: Layout, run: seq<World>, k: nat)
    requires IsRun(l, run) && k < |run|
    ensures Inv(l, run[k], |run[0]|)
  {
    if k > 0 {
      RunKeepsInv(l, run, k - 1);
      assert Next(l, run[k - 1], run[k - 1 + 1]);
      var step :| DoStep(l, run[k - 1], run[k], step);
      match step
      case Reg(r, call, cells) => RegKeepsInv(l, run[k - 1], run[k], r, call, cells, |run[0]|);
      case SyncAll => SyncKeepsInv(l, run[k - 1], run[k], |run[0]|);
    }
  }

  /** Tables and calls only grow. */
  lemma {:induction false} RankGrows(l: Layout, run: seq<World>, i: nat, k: nat, r: nat)
    requires IsRun(l, run) && i <= k < |run| && r < |run[0]|
    ensures r < |run[i]| && r < |run[k]|
    ensures run[i][r].calls <= run[k][r].calls && run[i][r].table <= run[k][r].table
    decreases k
  {
    RunKeepsInv(l, run, k);
    if i < k {
      RankGrows(l, run, i, k - 1, r);
      assert Next(l, run[k - 1], run[k - 1 + 1]);
      var step :| DoStep(l, run[k - 1], run[k], step);
    }
  }

  /** In every run, whatever rank p got as entry m of rank r at the last synchronisation stays right:
      from the part of any channel of either list, in p's receive buffer, the subtraction finds the
      header of rank r's m-th registration, and the part holds what that channel wrote at rank r
      then. */
  lemma EntriesReadBack(l: Layout, run: seq<World>, i: nat, k: nat, p: nat, r: nat, m: nat, c: nat)
    requires IsRun(l, run) && i <= k < |run| && p < |run[0]| && r < |run[0]|
    ensures p < |run[i]| && r < |run[i][p].rmt| && r < |run[k]|
    ensures m < |run[i][p].rmt[r]| ==>
              && m < |run[k][r].calls|
              && FoundFrom(l, run[i][p].recv, run[i][p].rmt[r][m], run[k][r].calls[m], r, m, c)
  {
    RunKeepsInv(l, run, i);
    RankGrows(l, run, i, k, r);
    EntryFound(l, run[i], |run[0]|, p, r, m, c);
  }

  lemma EntryFound(l: Layout, w: World, n: nat, p: nat, r: nat, m: nat, c: nat)
    requires Inv(l, w, n) && p < n && r < n
    ensures r < |w[p].rmt|
    ensures m < |w[p].rmt[r]| ==>
              m < |w[r].calls| && FoundFrom(l, w[p].recv, w[p].rmt[r][m], w[r].calls[m], r, m, c)
  {
    assert SeenInv(w, p) && TableInv(l, w, r);
    if m < |w[p].rmt[r]| {
      assert EntryKept(w, p, r, m);
      var call := w[r].calls[m];
      assert Made(l, call, r, m, w[r].table[m]);
      FromAnyPart(l, call.keys, w[p].recv, w[p].rmt[r][m], w[r].table[m], c);
    }
  }

  /** What channel c of either list finds from its part of the copy at `entry`. */
  ghost predicate FoundFrom(l: Layout, recv: seq<int>, entry: nat, call: Call, r: nat, m: nat, c: nat)
    requires ValidLayout(l)
  {
    && ValidKeys(l, call.keys)
    && (c < |l.inter| ==>
          && l.inter[c] in l.start
          && HeaderFrom(recv, entry + l.interOff[c], l.start[l.inter[c]]) == [call.addr, call.size, r, m]
          && Holds(recv, entry + l.interOff[c], call.keys[l.inter[c]]))
    && (c < |l.intra| ==>
          && l.intra[c] in l.start
          && HeaderFrom(recv, entry + l.intraOff[c], l.start[l.intra[c]]) == [call.addr, call.size, r, m]
          && Holds(recv, entry + l.intraOff[c], call.keys[l.intra[c]]))
  }

  /** Right after a synchronisation every rank has an entry for every registration made so far. */
  lemma SyncBringsAll(l: Layout, run: seq<World>, k: nat, p: nat, r: nat)
    requires IsRun(l, run) && k + 1 < |run| && DoStep(l, run[k], run[k + 1], SyncAll) && p < |run[0]| && r < |run[0]|
    ensures p < |run[k + 1]| && r < |run[k + 1][p].rmt| && r < |run[k + 1]|
    ensures |run[k + 1][p].rmt[r]| == |run[k + 1][r].calls|
  {
    RunKeepsInv(l, run, k);
    RunKeepsInv(l, run, k + 1);
    assert TableInv(l, run[k], r);
    assert CopyOf(run[k + 1][p].recv, run[k + 1][p].rmt[r], Tables(run[k])[r]);
  }

  // ---------- the registry that plans are built from ----------

  function Decode(h: seq<int>): Plan.Handle {
    if |h| == HEADER && h[0] >= 0 && h[1] >= 0 && h[2] >= 0 then Plan.Handle(h[0], h[1], h[2]) else Plan.Handle(0, 0, 0)
  }

  /** What rank p reads in the headers of its own handles and of its copies. */
  function RegistryOf(w: World, p: nat): Plan.Registry
    requires p < |w|
  {
    Plan.Registry(
      seq(|w[p].table|, m requires 0 <= m < |w[p].table| => Decode(HeaderFrom(w[p].table[m], 0, 0))),
      seq(|w[p].rmt|, r requires 0 <= r < |w[p].rmt| =>
        seq(|w[p].rmt[r]|, m requires 0 <= m < |w[p].rmt[r]| => Decode(HeaderFrom(w[p].recv, w[p].rmt[r][m], 0)))))
  }

  function CallHandles(calls: seq<Call>, r: nat): (hs: seq<Plan.Handle>)
    ensures |hs| == |calls|
  {
    seq(|calls|, m requires 0 <= m < |calls| => Plan.Handle(calls[m].addr, calls[m].size, r))
  }

  lemma DecodeMade(l: Layout, call: Call, r: nat, m: nat, cells: seq<int>, recv: seq<int>, entry: nat)
    requires ValidLayout(l) && Made(l, call, r, m, cells) && Holds(recv, entry, cells)
    ensures Decode(HeaderFrom(recv, entry, 0)) == Plan.Handle(call.addr, call.size, r)
  {
    assert recv[entry..entry + HEADER] == cells[..HEADER];
  }

  lemma LocIsCalls(l: Layout, w: World, n: nat, p: nat)
    requires Inv(l, w, n) && p < n
    ensures RegistryOf(w, p).loc == CallHandles(w[p].calls, p)
  {
    assert TableInv(l, w, p);
    forall m: nat | m < |w[p].table| ensures RegistryOf(w, p).loc[m] == CallHandles(w[p].calls, p)[m] {
      DecodeMade(l, w[p].calls[m], p, m, w[p].table[m], w[p].table[m], 0);
    }
  }

  lemma RmtIsCalls(l: Layout, w: World, n: nat, p: nat, r: nat)
    requires Inv(l, w, n) && p < n && r < n
    ensures |RegistryOf(w, p).rmt| == n && |w[p].rmt[r]| <= |w[r].calls|
    ensures RegistryOf(w, p).rmt[r] == CallHandles(w[r].calls, r)[..|w[p].rmt[r]|]
  {
    assert TableInv(l, w, r) && SeenInv(w, p);
    if |w[p].rmt[r]| > 0 { assert EntryKept(w, p, r, |w[p].rmt[r]| - 1); }
    forall m: nat | m < |w[p].rmt[r]| ensures RegistryOf(w, p).rmt[r][m] == CallHandles(w[r].calls, r)[m] {
      assert EntryKept(w, p, r, m);
      DecodeMade(l, w[r].calls[m], r, m, w[r].table[m], w[p].recv, w[p].rmt[r][m]);
    }
  }

  /** The m-th own handle that a rank reads is its m-th registration, and the m-th handle it reads of
      rank r is rank r's m-th registration, for all of them that the last synchronisation brought. */
  lemma RegistryMeans(l: Layout, run: seq<World>, k: nat, p: nat, r: nat, m: nat)
    requires IsRun(l, run) && k < |run| && p < |run[0]| && r < |run[0]|
    ensures p < |run[k]| && r < |run[k]| && r < |run[k][p].rmt|
    ensures var g := RegistryOf(run[k], p);
            && |g.loc| == |run[k][p].calls| && |g.rmt| == |run[0]| && |g.rmt[r]| == |run[k][p].rmt[r]| <= |run[k][r].calls|
            && (m < |g.loc| ==> g.loc[m] == Plan.Handle(run[k][p].calls[m].addr, run[k][p].calls[m].size, p))
            && (m < |g.rmt[r]| ==> g.rmt[r][m] == Plan.Handle(run[k][r].calls[m].addr, run[k][r].calls[m].size, r))
  {
    RunKeepsInv(l, run, k);
    LocIsCalls(l, run[k], |run[0]|, p);
    RmtIsCalls(l, run[k], |run[0]|, p, r);
  }

  lemma SyncExtends(l: Layout, w: World, v: World, n: nat, p: nat, r: nat)
    requires Inv(l, w, n) && Inv(l, v, n) && DoStep(l, w, v, SyncAll) && p < n && r < n
    ensures |RegistryOf(w, p).rmt| == |RegistryOf(v, p).rmt| == n
    ensures RegistryOf(w, p).rmt[r] <= RegistryOf(v, p).rmt[r]
  {
    RmtIsCalls(l, w, n, p, r);
    RmtIsCalls(l, v, n, p, r);
    assert TableInv(l, w, r) && CopyOf(v[p].recv, v[p].rmt[r], Tables(w)[r]);
    var hs := CallHandles(w[r].calls, r);
    assert hs[..|v[p].rmt[r]|] == hs;
  }

  lemma StepExtends(l: Layout, w: World, v: World, n: nat, p: nat)
    requires Inv(l, w, n) && Inv(l, v, n) && Next(l, w, v) && p < n
    ensures Plan.Extends(RegistryOf(w, p), RegistryOf(v, p))
  {
    LocIsCalls(l, w, n, p);
    LocIsCalls(l, v, n, p);
    assert SeenInv(w, p) && SeenInv(v, p);
    var step :| DoStep(l, w, v, step);
    if step.SyncAll? {
      forall r: nat | r < n ensures RegistryOf(w, p).rmt[r] <= RegistryOf(v, p).rmt[r] { SyncExtends(l, w, v, n, p, r); }
    } else {
      assert RegistryOf(w, p).rmt == RegistryOf(v, p).rmt;
    }
  }

  function Registries(run: seq<World>, p: nat): (gs: seq<Plan.Registry>)
    requires forall k :: 0 <= k < |run| ==> p < |run[k]|
    ensures |gs| == |run|
  {
    seq(|run|, k requires 0 <= k < |run| => RegistryOf(run[k], p))
  }

  /** In every run, what a rank reads in its handles and copies only grows, and every handle names
      the rank that registered it: what building a plan late (Plan.DeferredIsImmediate) and counting
      per signal (Delivery.OneEventPerMessage) rest on. */
  lemma RegistriesGrow(l: Layout, run: seq<World>, p: nat)
    requires IsRun(l, run) && p < |run[0]|
    ensures forall k :: 0 <= k < |run| ==> p < |run[k]|
    ensures Plan.Growing(Registries(run, p))
    ensures forall k, t: Plan.Topology :: 0 <= k < |run| && t.rank == p ==> Delivery.RanksRight(t, Registries(run, p)[k])
  {
    forall k: nat | k < |run| ensures p < |run[k]| { RunKeepsInv(l, run, k); }
    var gs, n := Registries(run, p), |run[0]|;
    forall k: nat | k < |gs| - 1 ensures Plan.Extends(gs[k], gs[k + 1]) {
      RunKeepsInv(l, run, k);
      RunKeepsInv(l, run, k + 1);
      StepExtends(l, run[k], run[k + 1], n, p);
    }
    forall k: nat, t: Plan.Topology | k < |run| && t.rank == p ensures Delivery.RanksRight(t, gs[k]) {
      RunKeepsInv(l, run, k);
      RanksInRegistry(l, run[k], n, p, t);
    }
  }

  lemma RanksInRegistry(l: Layout, w: World, n: nat, p: nat, t: Plan.Topology)
    requires Inv(l, w, n) && p < n && t.rank == p
    ensures Delivery.RanksRight(t, RegistryOf(w, p))
  {
    LocIsCalls(l, w, n, p);
    assert SeenInv(w, p);
    forall r: nat, m: nat | r < n && m < |w[p].rmt[r]| ensures RegistryOf(w, p).rmt[r][m].rank == r {
      RmtIsCalls(l, w, n, p, r);
      assert RegistryOf(w, p).rmt[r][m] == CallHandles(w[r].calls, r)[..|w[p].rmt[r]|][m];
    }
  }

  // ---------- a synchronisation is always possible ----------

  lemma {:induction false} FlatPossible(handles: seq<seq<int>>, total: nat) returns (buf: seq<int>)
    requires forall k :: 0 <= k < |handles| ==> |handles[k]| == total
    ensures Flat(buf, handles, total)
    decreases |handles|
  {
    if |handles| == 0 {
      buf := [];
    } else {
      var n := |handles| - 1;
      var front := FlatPossible(handles[..n], total);
      buf := front + handles[n];
      forall k | 0 <= k < |handles| ensures Holds(buf, Times(k, total), handles[k]) {
        if k < n {
          assert Holds(front, Times(k, total), handles[..n][k]);
          HoldsInFront(front, handles[n], Times(k, total), handles[k]);
        }
      }
    }
  }

  lemma {:induction false} SendsPossible(tables: seq<seq<seq<int>>>, total: nat) returns (sends: seq<seq<int>>)
    requires forall r, k :: 0 <= r < |tables| && 0 <= k < |tables[r]| ==> |tables[r][k]| == total
    ensures |sends| == |tables| && forall r :: 0 <= r < |tables| ==> Flat(sends[r], tables[r], total)
    decreases |tables|
  {
    if |tables| == 0 {
      sends := [];
    } else {
      var front := SendsPossible(tables[..|tables| - 1], total);
      var last := FlatPossible(tables[|tables| - 1], total);
      sends := front + [last];
    }
  }

  /** For any tables there is a receive buffer with entries as Sync leaves them. */
  lemma CopiesPossible(tables: seq<seq<seq<int>>>, total: nat) returns (recv: seq<int>, rmt: seq<seq<nat>>)
    requires forall r, k :: 0 <= r < |tables| && 0 <= k < |tables[r]| ==> |tables[r][k]| == total
    ensures |rmt| == |tables| && Copied(recv, rmt, tables)
  {
    var sends := SendsPossible(tables, total);
    var counts: seq<nat> := seq(|tables|, r requires 0 <= r < |tables| => |tables[r]|);
    recv := GatherPossible(sends, counts, total);
    rmt := seq<seq<nat>>(|tables|, r requires 0 <= r < |tables| => EntriesAt(Places(counts)[r], |tables[r]|, total));
    forall r | 0 <= r < |tables| ensures CopyOf(recv, rmt[r], tables[r]) {
      assert Placed(recv, sends, Places(counts), total, r) && Flat(sends[r], tables[r], total);
      EntriesCopy(recv, Places(counts)[r], total, tables[r], sends[r]);
    }
  }

  /** At every moment of every run, the ranks can synchronise. */
  lemma SyncIsPossible(l: Layout, run: seq<World>, k: nat) returns (v: World)
    requires IsRun(l, run) && k < |run|
    ensures DoStep(l, run[k], v, SyncAll)
  {
    RunKeepsInv(l, run, k);
    var w := run[k];
    forall r: nat, m: nat | r < |w| && m < |Tables(w)[r]| ensures |Tables(w)[r][m]| == l.total {
      assert TableInv(l, w, r);
      assert Made(l, w[r].calls[m], r, m, w[r].table[m]);
    }
    var recv, rmt := CopiesPossible(Tables(w), l.total);
    v := seq(|w|, p requires 0 <= p < |w| => w[p].(recv := recv, rmt := rmt));
  }
}
