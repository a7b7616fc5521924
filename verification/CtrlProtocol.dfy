/** The control-message protocol between one sender and one receiver
    (src/uri/mpi/uri_mpi_rdma.c:115-136, 154-171 and 184-207; src/uri/mpi/uri_mpi_channel.c:79-165).

    The sender's threads take batch ids from a recycling pool, send create, start and destroy
    messages for them, and give them back right after the destroy message is sent, long before the
    receiver sees it. Control messages of one sender reach the receiver in the order they were
    sent (non-overtaking rule, section 3.5 of the MPI 3.1 standard). */
module CtrlProtocol {
  import opened IntPool
  import opened SlotTable

  datatype Config = Config(size: nat, rank: nat)

  /** Life of an id at the sender: taken from the pool, announced to the receiver as a batch, and
      withdrawn but not yet given back. */
  datatype Status = Acquired | Live(batch: Batch) | Withdrawn

  /** `sent` is the whole history of control messages and `meant` the batch the sender had in mind
      with each; the receiver has processed the first `consumed` of them. */
  datatype State = State(pool: Pool, ids: map<nat, Status>, sent: seq<Ctrl>, meant: seq<Batch>,
                         consumed: nat, table: Table, posted: Batch, crashed: bool)

  datatype Step =
    | GetId
    | SendCreate(id: nat, batch: Batch)
    | SendStart(id: nat)
    | SendDestroy(id: nat)
    | ReturnId(id: nat)
    | SendExecute(batch: Batch)
    | Receive

  function Send(s: State, m: Ctrl, b: Batch): State {
    s.(sent := s.sent + [m], meant := s.meant + [b])
  }

  ghost predicate DoStep(c: Config, s: State, t: State, step: Step) {
    c.rank < c.size &&
    match step
    case GetId =>
      t == s.(pool := Take(s.pool), ids := s.ids[Encode(Taken(s.pool), c.size, c.rank) := Acquired])
    case SendCreate(id, b) =>
      id in s.ids && s.ids[id].Acquired? && t == Send(s, CreateBatch(id, b), b).(ids := s.ids[id := Live(b)])
    case SendStart(id) =>
      id in s.ids && s.ids[id].Live? && t == Send(s, StartBatch(id), s.ids[id].batch)
    case SendDestroy(id) =>
      id in s.ids && s.ids[id].Live? && t == Send(s, DestroyBatch(id), s.ids[id].batch).(ids := s.ids[id := Withdrawn])
    case ReturnId(id) =>
      && id in s.ids && s.ids[id].Withdrawn? && id >= c.rank
      && t == s.(pool := Give(s.pool, Decode(id, c.size, c.rank)), ids := s.ids - {id})
    case SendExecute(b) =>
      t == Send(s, ExecuteBatch(b), b)
    case Receive =>
      && s.consumed < |s.sent| && !s.crashed
      && match Process(s.table, s.sent[s.consumed])
         case Crash => t == s.(crashed := true)
         case Done(tb, p) => t == s.(consumed := s.consumed + 1, table := tb, posted := s.posted + p)
  }

  ghost predicate Next(c: Config, s: State, t: State) { exists step :: DoStep(c, s, t, step) }

  ghost predicate Init(s: State) { s == State(FRESH, map[], [], [], 0, map[], [], false) }

  ghost predicate IsRun(c: Config, run: seq<State>) {
    && c.rank < c.size && |run| > 0 && Init(run[0])
    && forall k :: 0 < k < |run| ==> Next(c, run[k - 1], run[k])
  }

  // ---------- invariant ----------

  /** The batches announced and not withdrawn: what the table will hold once the receiver has
      caught up. */
  function Announced(ids: map<nat, Status>): Table {
    map id | id in ids && ids[id].Live? :: ids[id].batch
  }

  /** A message finds in the table what its sender meant. */
  ghost predicate Finds(t: Table, m: Ctrl, b: Batch) {
    match m
    case CreateBatch(id, batch) => id !in t && batch == b
    case StartBatch(id) => id in t && t[id] == b
    case DestroyBatch(id) => id in t && t[id] == b
    case ExecuteBatch(batch) => batch == b
  }

  /** Every message of the history, met with the table its predecessors leave, finds what its
      sender meant. */
  ghost predicate Explained(sent: seq<Ctrl>, meant: seq<Batch>) {
    && |meant| == |sent|
    && forall i {:trigger sent[..i]} :: 0 <= i < |sent| ==>
         Replay(sent[..i]).Done? && Finds(Replay(sent[..i]).table, sent[i], meant[i])
  }

  ghost predicate IdInv(c: Config, s: State)
    requires c.rank < c.size
  {
    && (forall id :: id in s.ids ==> id % c.size == c.rank && id >= c.rank)
    && Good(s.pool, set id | id in s.ids && id >= c.rank :: Decode(id, c.size, c.rank))
  }

  ghost predicate HistoryInv(s: State) {
    && Explained(s.sent, s.meant)
    && Replay(s.sent).Done? && Replay(s.sent).table == Announced(s.ids)
  }

  ghost predicate ReceiverInv(s: State) {
    && s.consumed <= |s.sent| && !s.crashed
    && Replay(s.sent[..s.consumed]) == Done(s.table, s.posted)
  }

  lemma GetIdIsNew(c: Config, s: State)
    requires c.rank < c.size && IdInv(c, s)
    ensures Encode(Taken(s.pool), c.size, c.rank) !in s.ids
    ensures IdInv(c, s.(pool := Take(s.pool), ids := s.ids[Encode(Taken(s.pool), c.size, c.rank) := Acquired]))
  {
    var v := Taken(s.pool);
    var id := Encode(v, c.size, c.rank);
    var held := set id | id in s.ids && id >= c.rank :: Decode(id, c.size, c.rank);
    TakeGood(s.pool, held);
    DecodeEncode(v, c.size, c.rank);
    var ids' := s.ids[id := Acquired];
    assert (set id | id in ids' && id >= c.rank :: Decode(id, c.size, c.rank)) == held + {v};
  }

  lemma ReturnKeepsIds(c: Config, s: State, id: nat)
    requires c.rank < c.size && IdInv(c, s) && id in s.ids
    ensures IdInv(c, s.(pool := Give(s.pool, Decode(id, c.size, c.rank)), ids := s.ids - {id}))
  {
    var held := set id | id in s.ids && id >= c.rank :: Decode(id, c.size, c.rank);
    var v := Decode(id, c.size, c.rank);
    GiveGood(s.pool, held, v);
    var ids' := s.ids - {id};
    var held' := set id | id in ids' && id >= c.rank :: Decode(id, c.size, c.rank);
    forall w | w in held' ensures w in held - {v} {
      var id' :| id' in ids' && id' >= c.rank && Decode(id', c.size, c.rank) == w;
      EncodeDecode(id', c.size, c.rank);
      EncodeDecode(id, c.size, c.rank);
    }
    assert held' == held - {v};
  }

  lemma SameIds(c: Config, s: State, t: State)
    requires c.rank < c.size && IdInv(c, s) && t.pool == s.pool && t.ids.Keys == s.ids.Keys
    ensures IdInv(c, t)
  {
    assert (set id | id in t.ids && id >= c.rank :: Decode(id, c.size, c.rank))
        == (set id | id in s.ids && id >= c.rank :: Decode(id, c.size, c.rank));
  }

  /** Sending a message that finds what is meant extends the history. */
  lemma SendExplains(sent: seq<Ctrl>, meant: seq<Batch>, m: Ctrl, b: Batch)
    requires Explained(sent, meant) && Replay(sent).Done? && Finds(Replay(sent).table, m, b)
    ensures Explained(sent + [m], meant + [b])
    ensures Process(Replay(sent).table, m).Done?
    ensures Replay(sent + [m]).Done? && Replay(sent + [m]).table == Process(Replay(sent).table, m).table
  {
    var sent', meant' := sent + [m], meant + [b];
    assert sent'[..|sent|] == sent;
    forall i | 0 <= i < |sent'|
      ensures Replay(sent'[..i]).Done? && Finds(Replay(sent'[..i]).table, sent'[i], meant'[i])
    {
      if i < |sent| { assert sent'[..i] == sent[..i]; }
    }
  }

  /** A message that finds what is meant keeps the history, if it does to the announced batches
      what it will do to the table. */
  lemma SendKeepsHistory(s: State, m: Ctrl, b: Batch, ids: map<nat, Status>)
    requires HistoryInv(s) && Finds(Announced(s.ids), m, b)
    requires Process(Announced(s.ids), m).Done? && Process(Announced(s.ids), m).table == Announced(ids)
    ensures HistoryInv(Send(s, m, b).(ids := ids))
  {
    SendExplains(s.sent, s.meant, m, b);
  }

  lemma CreateKeepsHistory(s: State, id: nat, b: Batch)
    requires HistoryInv(s) && id in s.ids && s.ids[id].Acquired?
    ensures HistoryInv(Send(s, CreateBatch(id, b), b).(ids := s.ids[id := Live(b)]))
  {
    assert Announced(s.ids[id := Live(b)]) == Announced(s.ids)[id := b];
    SendKeepsHistory(s, CreateBatch(id, b), b, s.ids[id := Live(b)]);
  }

  lemma StartKeepsHistory(s: State, id: nat)
    requires HistoryInv(s) && id in s.ids && s.ids[id].Live?
    ensures HistoryInv(Send(s, StartBatch(id), s.ids[id].batch))
  {
    SendKeepsHistory(s, StartBatch(id), s.ids[id].batch, s.ids);
  }

  lemma DestroyKeepsHistory(s: State, id: nat)
    requires HistoryInv(s) && id in s.ids && s.ids[id].Live?
    ensures HistoryInv(Send(s, DestroyBatch(id), s.ids[id].batch).(ids := s.ids[id := Withdrawn]))
  {
    assert Announced(s.ids[id := Withdrawn]) == Announced(s.ids) - {id};
    SendKeepsHistory(s, DestroyBatch(id), s.ids[id].batch, s.ids[id := Withdrawn]);
  }

  /** Taking an id announces nothing, and giving one back withdraws nothing. */
  lemma PoolKeepsAnnounced(ids: map<nat, Status>, id: nat)
    ensures id !in ids ==> Announced(ids[id := Acquired]) == Announced(ids)
    ensures id in ids && ids[id].Withdrawn? ==> Announced(ids - {id}) == Announced(ids)
  {
  }

  lemma HistoryStep(c: Config, s: State, t: State, step: Step)
    requires c.rank < c.size && IdInv(c, s) && HistoryInv(s) && DoStep(c, s, t, step)
    ensures HistoryInv(t)
  {
    match step
    case GetId =>
      GetIdIsNew(c, s);
      PoolKeepsAnnounced(s.ids, Encode(Taken(s.pool), c.size, c.rank));
    case SendCreate(id, b) => CreateKeepsHistory(s, id, b);
    case SendStart(id) => StartKeepsHistory(s, id);
    case SendDestroy(id) => DestroyKeepsHistory(s, id);
    case ReturnId(id) => PoolKeepsAnnounced(s.ids, id);
    case SendExecute(b) => SendKeepsHistory(s, ExecuteBatch(b), b, s.ids);
    case Receive =>
  }

  lemma IdStep(c: Config, s: State, t: State, step: Step)
    requires c.rank < c.size && IdInv(c, s) && DoStep(c, s, t, step)
    ensures IdInv(c, t)
  {
    match step
    case GetId => GetIdIsNew(c, s);
    case ReturnId(id) => ReturnKeepsIds(c, s, id);
    case _ => SameIds(c, s, t);
  }

  lemma ReceiverStep(c: Config, s: State, t: State, step: Step)
    requires c.rank < c.size && HistoryInv(s) && ReceiverInv(s) && DoStep(c, s, t, step)
    ensures ReceiverInv(t)
  {
    if step.Receive? {
      var n := s.consumed;
      assert s.sent[..n + 1][..n] == s.sent[..n];
      assert Finds(Replay(s.sent[..n]).table, s.sent[n], s.meant[n]);
    } else {
      assert t.sent[..s.consumed] == s.sent[..s.consumed];
    }
  }

  lemma {:induction false} RunKeepsInv(c: Config, run: seq<State>, k: nat)
    requires IsRun(c, run) && k < |run|
    ensures IdInv(c, run[k]) && HistoryInv(run[k]) && ReceiverInv(run[k])
  {
    if k == 0 {
      assert Announced(map[]) == map[];
    } else {
      RunKeepsInv(c, run, k - 1);
      var step :| DoStep(c, run[k - 1], run[k], step);
      IdStep(c, run[k - 1], run[k], step);
      HistoryStep(c, run[k - 1], run[k], step);
      ReceiverStep(c, run[k - 1], run[k], step);
    }
  }

  // ---------- what holds in every run ----------

  /** The receiver never stops: its table is the replay of the part of the sender's history it has
      consumed, through any amount of id recycling. */
  lemma ReceiverReplaysSender(c: Config, run: seq<State>, k: nat)
    requires IsRun(c, run) && k < |run|
    ensures !run[k].crashed && run[k].consumed <= |run[k].sent|
    ensures Replay(run[k].sent[..run[k].consumed]) == Done(run[k].table, run[k].posted)
  {
    RunKeepsInv(c, run, k);
  }

  /** The next message the receiver processes finds what its sender meant: a create finds a free
      slot, a start or destroy exactly the batch created under that id. */
  lemma NextMessageFinds(c: Config, run: seq<State>, k: nat)
    requires IsRun(c, run) && k < |run| && run[k].consumed < |run[k].sent|
    ensures var s := run[k];
            |s.meant| == |s.sent| && Finds(s.table, s.sent[s.consumed], s.meant[s.consumed])
  {
    RunKeepsInv(c, run, k);
    var s := run[k];
    assert Replay(s.sent[..s.consumed]) == Done(s.table, s.posted);
  }

  /** Once all messages are processed, the table holds exactly the live batches of the sender. */
  lemma CaughtUp(c: Config, run: seq<State>, k: nat)
    requires IsRun(c, run) && k < |run| && run[k].consumed == |run[k].sent|
    ensures run[k].table == Announced(run[k].ids)
  {
    RunKeepsInv(c, run, k);
    assert run[k].sent[..run[k].consumed] == run[k].sent;
  }

  /** What the receiver posts is, message by message, what the sender meant with its start and
      execute messages. */
  function Intended(sent: seq<Ctrl>, meant: seq<Batch>): Batch
    requires |sent| == |meant|
    decreases |sent|
  {
    if sent == [] then []
    else
      var n := |sent| - 1;
      Intended(sent[..n], meant[..n]) + if sent[n].StartBatch? || sent[n].ExecuteBatch? then meant[n] else []
  }

  lemma {:induction false} PostedIsIntended(sent: seq<Ctrl>, meant: seq<Batch>, n: nat)
    requires Explained(sent, meant) && n <= |sent| && Replay(sent[..n]).Done?
    ensures Replay(sent[..n]).posted == Intended(sent[..n], meant[..n])
    decreases n
  {
    if n > 0 {
      assert sent[..n][..n - 1] == sent[..n - 1] && meant[..n][..n - 1] == meant[..n - 1];
      assert Finds(Replay(sent[..n - 1]).table, sent[n - 1], meant[n - 1]);
      PostedIsIntended(sent, meant, n - 1);
    }
  }

  lemma ReceiverPostsWhatWasMeant(c: Config, run: seq<State>, k: nat)
    requires IsRun(c, run) && k < |run|
    ensures var s := run[k];
            && |s.meant| == |s.sent| && s.consumed <= |s.sent|
            && s.posted == Intended(s.sent[..s.consumed], s.meant[..s.consumed])
  {
    RunKeepsInv(c, run, k);
    PostedIsIntended(run[k].sent, run[k].meant, run[k].consumed);
  }

  /** Two holders of an id at the same time do not exist: an id taken from the pool is not in use. */
  lemma TakenIdNotInUse(c: Config, run: seq<State>, k: nat)
    requires IsRun(c, run) && k + 1 < |run| && DoStep(c, run[k], run[k + 1], GetId)
    ensures Encode(Taken(run[k].pool), c.size, c.rank) !in run[k].ids
  {
    RunKeepsInv(c, run, k);
    GetIdIsNew(c, run[k]);
  }
}
