/** Which send MPI matches with which receive when tags are recycled after local completion only
    (src/uri/mpi/uri_mpi_rdma.c:63-77 and 135, src/uri/mpi/uri_mpi_channel.c:137-158 and 251-253).

    A run is the sequence of events of all ranks. One use of a tag is one round of one operation:
    the initiator posts its own side and sends the control message, in either order; the tag may
    be given back as soon as both have happened. The target posts the other side when it processes
    the control message, in the order in which the initiator sent them. MPI matches the k-th send
    from a to b with a given tag with the k-th receive posted at b for source a and that tag
    (section 3.5 of the MPI 3.1 standard). */
module TagMatch {

  datatype Dir = Put | Get

  datatype Use = Use(uid: nat, src: nat, dst: nat, tag: nat, dir: Dir)

  datatype Kind = Begin | Local | Ctrl | Remote | End

  datatype Event = Event(kind: Kind, use: Use)

  datatype Holder = Nobody | By(use: Use)

  /** The uses between src and dst that had an event of the kind, in order. */
  function Log(tr: seq<Event>, kind: Kind, src: nat, dst: nat): seq<Use> {
    if tr == [] then []
    else
      var e := tr[|tr| - 1];
      Log(tr[..|tr| - 1], kind, src, dst)
      + if e.kind == kind && e.use.src == src && e.use.dst == dst then [e.use] else []
  }

  /** Who holds the tag of the pool that src keeps for dst. */
  function TagHolder(tr: seq<Event>, src: nat, dst: nat, tag: nat): Holder {
    if tr == [] then Nobody
    else
      var e := tr[|tr| - 1];
      if e.use.src == src && e.use.dst == dst && e.use.tag == tag && e.kind.Begin? then By(e.use)
      else if e.use.src == src && e.use.dst == dst && e.use.tag == tag && e.kind.End? then Nobody
      else TagHolder(tr[..|tr| - 1], src, dst, tag)
  }

  /** Whether an event can happen after a run. A rank may exchange messages with itself in the
      directions `selfDirs`. */
  ghost predicate Allowed(size: nat, selfDirs: set<Dir>, tr: seq<Event>, e: Event) {
    var u := e.use;
    var held := TagHolder(tr, u.src, u.dst, u.tag) == By(u);
    match e.kind
    case Begin =>
      // a tag from the pool carries the residue of the rank that allocated it
      && u.src < size && u.dst < size && u.tag % size == u.src
      && (u.src == u.dst ==> u.dir in selfDirs)
      && TagHolder(tr, u.src, u.dst, u.tag) == Nobody
      && Event(Local, u) !in tr && Event(Ctrl, u) !in tr
    case Local => held && Event(Local, u) !in tr
    case Ctrl => held && Event(Ctrl, u) !in tr
    case End => held && Event(Local, u) in tr && Event(Ctrl, u) in tr
    case Remote =>
      var done, sent := Log(tr, Remote, u.src, u.dst), Log(tr, Ctrl, u.src, u.dst);
      |done| < |sent| && sent[|done|] == u
  }

  ghost predicate Legal(size: nat, selfDirs: set<Dir>, tr: seq<Event>) {
    tr == [] ||
    (Legal(size, selfDirs, tr[..|tr| - 1]) && Allowed(size, selfDirs, tr[..|tr| - 1], tr[|tr| - 1]))
  }

  // ---------- what MPI sees ----------

  /** The event posts, at rank a, a send to b with the tag. */
  predicate IsSend(e: Event, a: nat, b: nat, tag: nat) {
    && e.use.tag == tag
    && ((e.kind.Local? && e.use.dir.Put? && e.use.src == a && e.use.dst == b)
        || (e.kind.Remote? && e.use.dir.Get? && e.use.dst == a && e.use.src == b))
  }

  /** The event posts, at rank b, a receive from a with the tag. */
  predicate IsRecv(e: Event, b: nat, a: nat, tag: nat) {
    && e.use.tag == tag
    && ((e.kind.Local? && e.use.dir.Get? && e.use.src == b && e.use.dst == a)
        || (e.kind.Remote? && e.use.dir.Put? && e.use.dst == b && e.use.src == a))
  }

  /** The initiator of a PUT sends and its target receives; the initiator of a GET receives and its
      target sends (src/uri/mpi/uri_mpi_rdma.c:52-59 and 70-75). */
  lemma WhoPosts(u: Use)
    ensures u.dir.Put? ==> IsSend(Event(Local, u), u.src, u.dst, u.tag) && IsRecv(Event(Remote, u), u.dst, u.src, u.tag)
    ensures u.dir.Get? ==> IsRecv(Event(Local, u), u.src, u.dst, u.tag) && IsSend(Event(Remote, u), u.dst, u.src, u.tag)
    ensures forall e: Event, a, b, tag :: (e.kind.Begin? || e.kind.Ctrl? || e.kind.End?) ==>
              !IsSend(e, a, b, tag) && !IsRecv(e, b, a, tag)
  {
  }

  function Sends(tr: seq<Event>, a: nat, b: nat, tag: nat): seq<Use> {
    if tr == [] then []
    else Sends(tr[..|tr| - 1], a, b, tag) + if IsSend(tr[|tr| - 1], a, b, tag) then [tr[|tr| - 1].use] else []
  }

  function Recvs(tr: seq<Event>, b: nat, a: nat, tag: nat): seq<Use> {
    if tr == [] then []
    else Recvs(tr[..|tr| - 1], b, a, tag) + if IsRecv(tr[|tr| - 1], b, a, tag) then [tr[|tr| - 1].use] else []
  }

  /** Every message from a to b is received by the operation its own control message described. */
  ghost predicate Matched(tr: seq<Event>, a: nat, b: nat) {
    forall tag, k :: 0 <= k < |Sends(tr, a, b, tag)| && k < |Recvs(tr, b, a, tag)| ==>
      Sends(tr, a, b, tag)[k] == Recvs(tr, b, a, tag)[k]
  }

  // ---------- projections ----------

  function OnTag(us: seq<Use>, tag: nat): seq<Use> {
    if us == [] then []
    else OnTag(us[..|us| - 1], tag) + if us[|us| - 1].tag == tag then [us[|us| - 1]] else []
  }

  function OnDir(us: seq<Use>, dir: Dir): seq<Use> {
    if us == [] then []
    else OnDir(us[..|us| - 1], dir) + if us[|us| - 1].dir == dir then [us[|us| - 1]] else []
  }

  function Stream(tr: seq<Event>, kind: Kind, src: nat, dst: nat, tag: nat): seq<Use> {
    OnTag(Log(tr, kind, src, dst), tag)
  }

  lemma {:induction false} OnTagPrefix(x: seq<Use>, y: seq<Use>, tag: nat)
    requires x <= y
    ensures OnTag(x, tag) <= OnTag(y, tag)
    decreases |y|
  {
    if |x| == |y| {
      assert x == y;
    } else {
      OnTagPrefix(x, y[..|y| - 1], tag);
    }
  }

  lemma {:induction false} OnDirPrefix(x: seq<Use>, y: seq<Use>, dir: Dir)
    requires x <= y
    ensures OnDir(x, dir) <= OnDir(y, dir)
    decreases |y|
  {
    if |x| == |y| {
      assert x == y;
    } else {
      OnDirPrefix(x, y[..|y| - 1], dir);
    }
  }

  lemma OnTagSnoc(us: seq<Use>, u: Use, tag: nat)
    ensures OnTag(us + [u], tag) == OnTag(us, tag) + if u.tag == tag then [u] else []
  {
    assert (us + [u])[..|us|] == us;
  }

  // ---------- the two sides of a stream stay aligned ----------

  /** Local posts and control messages of a stream are the finished uses in order, each side
      possibly ahead by the use that holds the tag now. */
  ghost predicate Aligned(tr: seq<Event>, src: nat, dst: nat, tag: nat) {
    var local, ctrl, ended := Stream(tr, Local, src, dst, tag), Stream(tr, Ctrl, src, dst, tag), Stream(tr, End, src, dst, tag);
    match TagHolder(tr, src, dst, tag)
    case Nobody => local == ended && ctrl == ended
    case By(u) =>
      && u.src == src && u.dst == dst && u.tag == tag
      && local == ended + (if Event(Local, u) in tr then [u] else [])
      && ctrl == ended + (if Event(Ctrl, u) in tr then [u] else [])
  }

  lemma StreamStep(tr: seq<Event>, kind: Kind, src: nat, dst: nat, tag: nat)
    requires tr != []
    ensures var e := tr[|tr| - 1];
            Stream(tr, kind, src, dst, tag) == Stream(tr[..|tr| - 1], kind, src, dst, tag)
              + if e.kind == kind && e.use.src == src && e.use.dst == dst && e.use.tag == tag then [e.use] else []
  {
    var e := tr[|tr| - 1];
    OnTagSnoc(Log(tr[..|tr| - 1], kind, src, dst), e.use, tag);
    assert Log(tr[..|tr| - 1], kind, src, dst) + [] == Log(tr[..|tr| - 1], kind, src, dst);
  }

  lemma InSnoc(tr: seq<Event>, e: Event)
    requires tr != []
    ensures e in tr <==> e in tr[..|tr| - 1] || e == tr[|tr| - 1]
  {
    assert tr == tr[..|tr| - 1] + [tr[|tr| - 1]];
  }

  lemma {:induction false} AlwaysAligned(size: nat, selfDirs: set<Dir>, tr: seq<Event>, src: nat, dst: nat, tag: nat)
    requires Legal(size, selfDirs, tr)
    ensures Aligned(tr, src, dst, tag)
    decreases |tr|
  {
    if tr != [] {
      var init, e := tr[..|tr| - 1], tr[|tr| - 1];
      AlwaysAligned(size, selfDirs, init, src, dst, tag);
      StreamStep(tr, Local, src, dst, tag);
      StreamStep(tr, Ctrl, src, dst, tag);
      StreamStep(tr, End, src, dst, tag);
      var u := match TagHolder(init, src, dst, tag) case Nobody => e.use case By(v) => v;
      InSnoc(tr, Event(Local, u));
      InSnoc(tr, Event(Ctrl, u));
    }
  }

  /** The target has processed a prefix of the control messages. */
  lemma {:induction false} RemoteFollowsCtrl(size: nat, selfDirs: set<Dir>, tr: seq<Event>, src: nat, dst: nat)
    requires Legal(size, selfDirs, tr)
    ensures Log(tr, Remote, src, dst) <= Log(tr, Ctrl, src, dst)
    decreases |tr|
  {
    if tr != [] { RemoteFollowsCtrl(size, selfDirs, tr[..|tr| - 1], src, dst); }
  }

  /** Local and remote posts of a stream are prefixes of one sequence of uses. */
  lemma StreamsAgree(size: nat, selfDirs: set<Dir>, tr: seq<Event>, src: nat, dst: nat, tag: nat)
    requires Legal(size, selfDirs, tr)
    ensures var local, remote := Stream(tr, Local, src, dst, tag), Stream(tr, Remote, src, dst, tag);
            local <= remote || remote <= local
  {
    AlwaysAligned(size, selfDirs, tr, src, dst, tag);
    RemoteFollowsCtrl(size, selfDirs, tr, src, dst);
    OnTagPrefix(Log(tr, Remote, src, dst), Log(tr, Ctrl, src, dst), tag);
  }

  // ---------- what MPI sees, stream by stream ----------

  /** Nothing that b started towards a uses the tag to read. */
  ghost predicate NoGet(tr: seq<Event>, b: nat, a: nat, tag: nat) {
    forall e :: e in tr && e.use.src == b && e.use.dst == a && e.use.tag == tag ==> e.use.dir.Put?
  }

  ghost predicate NoPut(tr: seq<Event>, a: nat, b: nat, tag: nat) {
    forall e :: e in tr && e.use.src == a && e.use.dst == b && e.use.tag == tag ==> e.use.dir.Get?
  }

  lemma OnDirSnoc(us: seq<Use>, u: Use, dir: Dir)
    ensures OnDir(us + [u], dir) == OnDir(us, dir) + if u.dir == dir then [u] else []
  {
    assert (us + [u])[..|us|] == us;
  }

  lemma PutEvent(e: Event, a: nat, b: nat, tag: nat)
    requires e.use.src == b && e.use.dst == a && e.use.tag == tag ==> e.use.dir.Put?
    ensures IsSend(e, a, b, tag) <==>
              e.kind.Local? && e.use.src == a && e.use.dst == b && e.use.tag == tag && e.use.dir.Put?
    ensures IsRecv(e, b, a, tag) <==>
              e.kind.Remote? && e.use.src == a && e.use.dst == b && e.use.tag == tag && e.use.dir.Put?
  {
  }

  lemma GetEvent(e: Event, a: nat, b: nat, tag: nat)
    requires e.use.src == a && e.use.dst == b && e.use.tag == tag ==> e.use.dir.Get?
    ensures IsSend(e, a, b, tag) <==>
              e.kind.Remote? && e.use.src == b && e.use.dst == a && e.use.tag == tag && e.use.dir.Get?
    ensures IsRecv(e, b, a, tag) <==>
              e.kind.Local? && e.use.src == b && e.use.dst == a && e.use.tag == tag && e.use.dir.Get?
  {
  }

  /** The uses of one direction in a stream, one event further. */
  lemma DirStep(tr: seq<Event>, kind: Kind, src: nat, dst: nat, tag: nat, dir: Dir)
    requires tr != []
    ensures var e := tr[|tr| - 1];
            OnDir(Stream(tr, kind, src, dst, tag), dir) == OnDir(Stream(tr[..|tr| - 1], kind, src, dst, tag), dir)
              + if e.kind == kind && e.use.src == src && e.use.dst == dst && e.use.tag == tag && e.use.dir == dir
                then [e.use] else []
  {
    StreamStep(tr, kind, src, dst, tag);
    OnDirSnoc(Stream(tr[..|tr| - 1], kind, src, dst, tag), tr[|tr| - 1].use, dir);
    var init := Stream(tr[..|tr| - 1], kind, src, dst, tag);
    assert init + [] == init;
  }

  lemma {:induction false} PutsSeen(tr: seq<Event>, a: nat, b: nat, tag: nat)
    requires NoGet(tr, b, a, tag)
    ensures Sends(tr, a, b, tag) == OnDir(Stream(tr, Local, a, b, tag), Put)
    ensures Recvs(tr, b, a, tag) == OnDir(Stream(tr, Remote, a, b, tag), Put)
    decreases |tr|
  {
    if tr != [] {
      assert tr[|tr| - 1] in tr;
      PutEvent(tr[|tr| - 1], a, b, tag);
      PutsSeen(tr[..|tr| - 1], a, b, tag);
      DirStep(tr, Local, a, b, tag, Put);
      DirStep(tr, Remote, a, b, tag, Put);
    }
  }

  lemma {:induction false} GetsSeen(tr: seq<Event>, a: nat, b: nat, tag: nat)
    requires NoPut(tr, a, b, tag)
    ensures Sends(tr, a, b, tag) == OnDir(Stream(tr, Remote, b, a, tag), Get)
    ensures Recvs(tr, b, a, tag) == OnDir(Stream(tr, Local, b, a, tag), Get)
    decreases |tr|
  {
    if tr != [] {
      assert tr[|tr| - 1] in tr;
      GetEvent(tr[|tr| - 1], a, b, tag);
      GetsSeen(tr[..|tr| - 1], a, b, tag);
      DirStep(tr, Local, b, a, tag, Get);
      DirStep(tr, Remote, b, a, tag, Get);
    }
  }

  /** Every use that occurs in a run was begun by the rules. */
  ghost predicate Sound(size: nat, selfDirs: set<Dir>, u: Use) {
    u.src < size && u.tag % size == u.src && (u.src == u.dst ==> u.dir in selfDirs)
  }

  lemma {:induction false} HolderSound(size: nat, selfDirs: set<Dir>, tr: seq<Event>, src: nat, dst: nat, tag: nat)
    requires Legal(size, selfDirs, tr) && TagHolder(tr, src, dst, tag).By?
    ensures Sound(size, selfDirs, TagHolder(tr, src, dst, tag).use)
    decreases |tr|
  {
    var e := tr[|tr| - 1];
    if !(e.use.src == src && e.use.dst == dst && e.use.tag == tag && (e.kind.Begin? || e.kind.End?)) {
      HolderSound(size, selfDirs, tr[..|tr| - 1], src, dst, tag);
    }
  }

  lemma {:induction false} LogSound(size: nat, selfDirs: set<Dir>, tr: seq<Event>, src: nat, dst: nat, u: Use)
    requires Legal(size, selfDirs, tr) && u in Log(tr, Ctrl, src, dst)
    ensures Sound(size, selfDirs, u)
    decreases |tr|
  {
    var init, e := tr[..|tr| - 1], tr[|tr| - 1];
    if u in Log(init, Ctrl, src, dst) {
      LogSound(size, selfDirs, init, src, dst, u);
    } else {
      HolderSound(size, selfDirs, init, u.src, u.dst, u.tag);
    }
  }

  lemma {:induction false} UsesSound(size: nat, selfDirs: set<Dir>, tr: seq<Event>, e: Event)
    requires Legal(size, selfDirs, tr) && e in tr
    ensures Sound(size, selfDirs, e.use)
    decreases |tr|
  {
    var init, u := tr[..|tr| - 1], e.use;
    InSnoc(tr, e);
    if e in init {
      UsesSound(size, selfDirs, init, e);
    } else if e.kind.Remote? {
      LogSound(size, selfDirs, init, u.src, u.dst, u);
    } else if !e.kind.Begin? {
      HolderSound(size, selfDirs, init, u.src, u.dst, u.tag);
    }
  }

  // ---------- when matching is right ----------

  lemma MatchedOnTag(size: nat, selfDirs: set<Dir>, tr: seq<Event>, a: nat, b: nat, tag: nat)
    requires Legal(size, selfDirs, tr) && (NoGet(tr, b, a, tag) || NoPut(tr, a, b, tag))
    ensures Sends(tr, a, b, tag) <= Recvs(tr, b, a, tag) || Recvs(tr, b, a, tag) <= Sends(tr, a, b, tag)
  {
    var (src, dst, dir) := if NoGet(tr, b, a, tag) then (a, b, Put) else (b, a, Get);
    StreamsAgree(size, selfDirs, tr, src, dst, tag);
    var local, remote := Stream(tr, Local, src, dst, tag), Stream(tr, Remote, src, dst, tag);
    if local <= remote { OnDirPrefix(local, remote, dir); } else { OnDirPrefix(remote, local, dir); }
    if NoGet(tr, b, a, tag) { PutsSeen(tr, a, b, tag); } else { GetsSeen(tr, a, b, tag); }
  }

  /** In every run, between two different ranks, or with itself in one direction only, each
      message meets its own operation. */
  lemma MatchedInRun(size: nat, selfDirs: set<Dir>, tr: seq<Event>, a: nat, b: nat)
    requires Legal(size, selfDirs, tr) && (a != b || !(Put in selfDirs && Get in selfDirs))
    ensures Matched(tr, a, b)
  {
    forall tag, k | 0 <= k < |Sends(tr, a, b, tag)| && k < |Recvs(tr, b, a, tag)|
      ensures Sends(tr, a, b, tag)[k] == Recvs(tr, b, a, tag)[k]
    {
      forall e | e in tr ensures Sound(size, selfDirs, e.use) { UsesSound(size, selfDirs, tr, e); }
      assert NoGet(tr, b, a, tag) || NoPut(tr, a, b, tag);
      MatchedOnTag(size, selfDirs, tr, a, b, tag);
    }
  }

  /** One more event of rank a with itself under tag a. */
  lemma Extend(size: nat, selfDirs: set<Dir>, a: nat, tr: seq<Event>, e: Event) returns (longer: seq<Event>)
    requires Legal(size, selfDirs, tr) && Allowed(size, selfDirs, tr, e)
    requires e.use.src == e.use.dst == e.use.tag == a
    ensures Legal(size, selfDirs, longer)
    ensures TagHolder(longer, a, a, a) ==
            if e.kind.Begin? then By(e.use) else if e.kind.End? then Nobody else TagHolder(tr, a, a, a)
    ensures Sends(longer, a, a, a) == Sends(tr, a, a, a) + if IsSend(e, a, a, a) then [e.use] else []
    ensures Recvs(longer, a, a, a) == Recvs(tr, a, a, a) + if IsRecv(e, a, a, a) then [e.use] else []
    ensures forall x :: x in longer <==> x in tr || x == e
  {
    longer := tr + [e];
    assert longer[..|tr|] == tr;
  }

  /** A write of a rank to itself that is over locally and not yet received. */
  lemma OwnWrite(size: nat, selfDirs: set<Dir>, a: nat, u: Use) returns (tr: seq<Event>)
    requires a < size && Put in selfDirs && u == Use(0, a, a, a, Put)
    ensures Legal(size, selfDirs, tr) && TagHolder(tr, a, a, a) == Nobody
    ensures Sends(tr, a, a, a) == [u] && Recvs(tr, a, a, a) == []
    ensures forall e :: e in tr ==> e.use == u
  {
    tr := Extend(size, selfDirs, a, [], Event(Begin, u));
    tr := Extend(size, selfDirs, a, tr, Event(Local, u));
    tr := Extend(size, selfDirs, a, tr, Event(Ctrl, u));
    tr := Extend(size, selfDirs, a, tr, Event(End, u));
  }

  /** A rank that writes to itself and then reads from itself can recycle the tag in between: its
      receive for the read is posted before the receive for the write. */
  lemma SelfMismatch(size: nat, selfDirs: set<Dir>, a: nat) returns (tr: seq<Event>)
    requires a < size && Put in selfDirs && Get in selfDirs
    ensures Legal(size, selfDirs, tr) && !Matched(tr, a, a)
  {
    var u, v := Use(0, a, a, a, Put), Use(1, a, a, a, Get);
    tr := OwnWrite(size, selfDirs, a, u);
    tr := Extend(size, selfDirs, a, tr, Event(Begin, v));
    tr := Extend(size, selfDirs, a, tr, Event(Local, v));
    assert Sends(tr, a, a, a)[0] == u && Recvs(tr, a, a, a)[0] == v;
  }

  /** All runs match correctly between a and b if and only if the ranks differ or the rank talks
      to itself in at most one direction. */
  lemma MatchedIff(size: nat, selfDirs: set<Dir>, a: nat, b: nat)
    requires a < size && b < size
    ensures (forall tr :: Legal(size, selfDirs, tr) ==> Matched(tr, a, b))
            <==> (a != b || !(Put in selfDirs && Get in selfDirs))
  {
    if a != b || !(Put in selfDirs && Get in selfDirs) {
      forall tr | Legal(size, selfDirs, tr) ensures Matched(tr, a, b) { MatchedInRun(size, selfDirs, tr, a, b); }
    } else {
      var tr := SelfMismatch(size, selfDirs, a);
    }
  }
}
