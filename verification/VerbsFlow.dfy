/** Flow control of the send queues (src/uri/verbs/uri_verbs_rdma.c:108-146 and 161-180,
    src/uri/verbs/uri_verbs_channel.c:90-152).

    A sender thread waits until req_submit - req_finish leaves room, posts a request and then adds
    1 to req_submit, or 2 for a READ that must notify the other side. The daemon polls
    completions, counts each in req_finish, and after a notified READ posts one follow-up write
    itself, without looking at the gate. The two threads interleave between any two of these
    actions; requests complete in any order. */
module VerbsFlow {

  const OUTSTANDING: nat := 256

  /** A READ with a remote flag, or any other request (a follow-up write among them). */
  datatype Kind = Plain | NotifiedRead

  /** One queue pair: the two counters, the requests posted and not completed, and how many
      notified READs and follow-ups were ever posted. */
  datatype Queue = Queue(submit: nat, finish: nat, plain: nat, pulls: nat, notified: nat, followed: nat)

  /** What the sender thread, which holds the send lock, is about to do. */
  datatype Sender = Idle | Checked(rank: nat, kind: Kind) | Posted(rank: nat, kind: Kind)

  datatype Completion = Completion(rank: nat, kind: Kind)

  datatype Owed = Nothing | FollowUp(rank: nat)

  /** `polled` are completions taken from the completion queue and not counted yet. */
  datatype State = State(queues: seq<Queue>, sender: Sender, polled: multiset<Completion>, owed: Owed)

  function Cost(k: Kind): nat { if k.NotifiedRead? then 2 else 1 }

  function InQueue(q: Queue): nat { q.plain + q.pulls }

  function Post(q: Queue, k: Kind): Queue {
    match k
    case Plain => q.(plain := q.plain + 1)
    case NotifiedRead => q.(pulls := q.pulls + 1, notified := q.notified + 1)
  }

  // ---------- steps ----------

  datatype Step =
    | Check(rank: nat, kind: Kind) // the gate, uri_verbs_rdma.c:122-123
    | PostSend // ibv_post_send, uri_verbs_rdma.c:132
    | AddSubmit // uri_verbs_rdma.c:135-140
    | Complete(rank: nat, kind: Kind) // completed and polled, uri_verbs_channel.c:103
    | Count(rank: nat, kind: Kind) // req_finish++, uri_verbs_channel.c:123 and 133
    | SendFollowUp // uri_verbs_rdma.c:178

  ghost predicate DoStep(s: State, t: State, step: Step) {
    match step
    case Check(r, k) =>
      && s.sender.Idle? && r < |s.queues|
      && s.queues[r].submit as int - s.queues[r].finish <= OUTSTANDING - 1
      && t == s.(sender := Checked(r, k))
    case PostSend =>
      && s.sender.Checked? && s.sender.rank < |s.queues|
      && var r := s.sender.rank;
      t == s.(sender := Posted(r, s.sender.kind), queues := s.queues[r := Post(s.queues[r], s.sender.kind)])
    case AddSubmit =>
      && s.sender.Posted? && s.sender.rank < |s.queues|
      && var r := s.sender.rank;
      var q := s.queues[r];
      t == s.(sender := Idle, queues := s.queues[r := q.(submit := q.submit + Cost(s.sender.kind))])
    case Complete(r, k) =>
      && r < |s.queues|
      && var q := s.queues[r];
      && (if k.Plain? then q.plain > 0 else q.pulls > 0)
      && t == s.(polled := s.polled + multiset{Completion(r, k)},
                 queues := s.queues[r := if k.Plain? then q.(plain := q.plain - 1) else q.(pulls := q.pulls - 1)])
    case Count(r, k) =>
      && r < |s.queues| && Completion(r, k) in s.polled && s.owed.Nothing?
      && var q := s.queues[r];
      t == s.(polled := s.polled - multiset{Completion(r, k)},
              queues := s.queues[r := q.(finish := q.finish + 1)],
              owed := if k.NotifiedRead? then FollowUp(r) else Nothing)
    case SendFollowUp =>
      && s.owed.FollowUp? && s.owed.rank < |s.queues|
      && var q := s.queues[s.owed.rank];
      t == s.(owed := Nothing,
              queues := s.queues[s.owed.rank := Post(q, Plain).(followed := q.followed + 1)])
  }

  ghost predicate Next(s: State, t: State) { exists step :: DoStep(s, t, step) }

  ghost predicate Init(s: State) {
    && (forall r :: 0 <= r < |s.queues| ==> s.queues[r] == Queue(0, 0, 0, 0, 0, 0))
    && s.sender == Idle && s.polled == multiset{} && s.owed == Nothing
  }

  ghost predicate IsRun(run: seq<State>) {
    && |run| > 0 && Init(run[0])
    && forall k :: 0 < k < |run| ==> Next(run[k - 1], run[k])
  }

  // ---------- invariant ----------

  /** What the sender has posted to r and not yet added to req_submit. */
  function Pending(s: State, r: nat): nat {
    if s.sender.Posted? && s.sender.rank == r then Cost(s.sender.kind) else 0
  }

  /** Notified READs whose follow-up is still to be posted, before they are counted. */
  function ReadsAhead(s: State, r: nat): nat
    requires r < |s.queues|
  {
    s.queues[r].pulls + s.polled[Completion(r, NotifiedRead)]
  }

  function Owes(s: State, r: nat): nat { if s.owed == FollowUp(r) then 1 else 0 }

  /** Room reserved on queue r: requests in the queue, completions not counted, and follow-ups
      still to come. */
  function Reserved(s: State, r: nat): nat
    requires r < |s.queues|
  {
    InQueue(s.queues[r]) + s.polled[Completion(r, Plain)] + s.polled[Completion(r, NotifiedRead)]
    + ReadsAhead(s, r) + Owes(s, r)
  }

  ghost predicate QueueInv(s: State, r: nat)
    requires r < |s.queues|
  {
    var q := s.queues[r];
    && q.submit + Pending(s, r) == q.finish + Reserved(s, r)
    && Reserved(s, r) <= OUTSTANDING + 1
    && (Reserved(s, r) == OUTSTANDING + 1 ==> ReadsAhead(s, r) > 0)
    && (s.sender.Checked? && s.sender.rank == r ==> q.submit as int - q.finish <= OUTSTANDING - 1)
    && q.notified == ReadsAhead(s, r) + Owes(s, r) + q.followed
  }

  ghost predicate Inv(s: State) { forall r :: 0 <= r < |s.queues| ==> QueueInv(s, r) }

  lemma NextKeepsInv(s: State, t: State)
    requires Inv(s) && Next(s, t)
    ensures Inv(t) && |t.queues| == |s.queues|
  {
    var step :| DoStep(s, t, step);
    forall r | 0 <= r < |t.queues| ensures QueueInv(t, r) { StepKeepsQueueInv(s, t, step, r); }
  }

  lemma StepKeepsQueueInv(s: State, t: State, step: Step, r: nat)
    requires r < |s.queues| && QueueInv(s, r) && DoStep(s, t, step)
    ensures r < |t.queues| && QueueInv(t, r)
  {
    match step
    case Check(_, _) | PostSend | AddSubmit => SenderKeepsQueueInv(s, t, step, r);
    case Complete(_, _) => CompleteKeepsQueueInv(s, t, step, r);
    case Count(_, _) => CountKeepsQueueInv(s, t, step, r);
    case SendFollowUp =>
  }

  lemma SenderKeepsQueueInv(s: State, t: State, step: Step, r: nat)
    requires r < |s.queues| && QueueInv(s, r) && DoStep(s, t, step)
    requires step.Check? || step.PostSend? || step.AddSubmit?
    ensures r < |t.queues| && QueueInv(t, r)
  {
  }

  /** How often a completion is in the list after one has been added or taken out. */
  lemma PolledOne(m: multiset<Completion>, c: Completion, d: Completion)
    ensures (m + multiset{c})[d] == m[d] + if c == d then 1 else 0
    ensures c in m ==> (m - multiset{c})[d] == m[d] - if c == d then 1 else 0
  {
  }

  lemma CompleteKeepsQueueInv(s: State, t: State, step: Step, r: nat)
    requires r < |s.queues| && QueueInv(s, r) && DoStep(s, t, step) && step.Complete?
    ensures r < |t.queues| && QueueInv(t, r)
  {
    PolledOne(s.polled, Completion(step.rank, step.kind), Completion(r, Plain));
    PolledOne(s.polled, Completion(step.rank, step.kind), Completion(r, NotifiedRead));
    assert Pending(t, r) == Pending(s, r) && Owes(t, r) == Owes(s, r);
    assert Reserved(t, r) == Reserved(s, r) && ReadsAhead(t, r) == ReadsAhead(s, r);
  }

  lemma CountKeepsQueueInv(s: State, t: State, step: Step, r: nat)
    requires r < |s.queues| && QueueInv(s, r) && DoStep(s, t, step) && step.Count?
    ensures r < |t.queues| && QueueInv(t, r)
  {
    PolledOne(s.polled, Completion(step.rank, step.kind), Completion(r, Plain));
    PolledOne(s.polled, Completion(step.rank, step.kind), Completion(r, NotifiedRead));
    assert Pending(t, r) == Pending(s, r);
    assert ReadsAhead(t, r) + Owes(t, r) == ReadsAhead(s, r) + Owes(s, r);
  }

  lemma InitInv(s: State)
    requires Init(s)
    ensures Inv(s)
  {
    forall r | 0 <= r < |s.queues| ensures QueueInv(s, r) { FreshQueueInv(s, r); }
  }

  lemma FreshQueueInv(s: State, r: nat)
    requires r < |s.queues| && s.queues[r] == Queue(0, 0, 0, 0, 0, 0)
    requires s.sender == Idle && s.polled == multiset{} && s.owed == Nothing
    ensures QueueInv(s, r)
  {
  }

  lemma {:induction false} RunKeepsInv(run: seq<State>, k: nat)
    requires IsRun(run) && k < |run|
    ensures Inv(run[k]) && |run[k].queues| == |run[0].queues|
  {
    if k == 0 {
      InitInv(run[0]);
    } else {
      RunKeepsInv(run, k - 1);
      NextKeepsInv(run[k - 1], run[k]);
    }
  }

  // ---------- what holds in every run ----------

  /** No send queue ever holds more than 256 requests, although up to 257 can be reserved. */
  lemma QueueNeverOverflows(run: seq<State>, k: nat, r: nat)
    requires IsRun(run) && k < |run| && r < |run[k].queues|
    ensures run[k].queues[r].plain + run[k].queues[r].pulls <= 256
    ensures Reserved(run[k], r) <= 257
  {
    RunKeepsInv(run, k);
    assert QueueInv(run[k], r);
  }

  /** The daemon posts a follow-up without looking at the gate, and always finds room. */
  lemma FollowUpHasRoom(run: seq<State>, k: nat)
    requires IsRun(run) && k < |run| && run[k].owed.FollowUp? && run[k].owed.rank < |run[k].queues|
    ensures run[k].queues[run[k].owed.rank].plain + run[k].queues[run[k].owed.rank].pulls < 256
  {
    RunKeepsInv(run, k);
    assert QueueInv(run[k], run[k].owed.rank);
  }

  /** The sender's assertion req_submit >= req_finish holds whenever the sender evaluates it. The
      two counters differ by exactly what is reserved; only between a post and its addition can
      req_finish run ahead. */
  lemma SubmitCoversFinish(run: seq<State>, k: nat, r: nat)
    requires IsRun(run) && k < |run| && r < |run[k].queues|
    ensures run[k].queues[r].submit + Pending(run[k], r) == run[k].queues[r].finish + Reserved(run[k], r)
    ensures !run[k].sender.Posted? ==> run[k].queues[r].submit >= run[k].queues[r].finish
  {
    RunKeepsInv(run, k);
    assert QueueInv(run[k], r);
  }

  /** Once a queue is drained, every notified READ has had exactly one follow-up. */
  lemma OneFollowUpPerRead(run: seq<State>, k: nat, r: nat)
    requires IsRun(run) && k < |run| && r < |run[k].queues|
    ensures run[k].queues[r].followed <= run[k].queues[r].notified
    ensures Reserved(run[k], r) == 0 ==> run[k].queues[r].followed == run[k].queues[r].notified
  {
    RunKeepsInv(run, k);
    assert QueueInv(run[k], r);
  }

  // ---------- the bounds are reached ----------

  /** Extending a run by checking, posting and adding one request to queue 0. */
  lemma SendOne(run: seq<State>, kind: Kind) returns (longer: seq<State>)
    requires IsRun(run)
    requires var s := run[|run| - 1];
             s.sender.Idle? && |s.queues| == 1 && s.queues[0].submit as int - s.queues[0].finish <= OUTSTANDING - 1
    ensures IsRun(longer)
    ensures var s, t := run[|run| - 1], longer[|longer| - 1];
            var q := Post(s.queues[0], kind);
            t == s.(queues := [q.(submit := q.submit + Cost(kind))])
  {
    var s := run[|run| - 1];
    var a := s.(sender := Checked(0, kind));
    var q := Post(s.queues[0], kind);
    var b := s.(sender := Posted(0, kind), queues := [q]);
    var c := s.(queues := [q.(submit := q.submit + Cost(kind))]);
    assert s.queues == [s.queues[0]];
    assert DoStep(s, a, Check(0, kind));
    assert DoStep(a, b, PostSend);
    assert DoStep(b, c, AddSubmit);
    longer := run + [a, b, c];
    forall k | 0 < k < |longer| ensures Next(longer[k - 1], longer[k]) {
      if k < |run| { assert longer[k - 1] == run[k - 1] && longer[k] == run[k]; }
    }
  }

  lemma {:induction false} SendMany(n: nat) returns (run: seq<State>)
    requires n <= OUTSTANDING - 1
    ensures IsRun(run) && run[|run| - 1] == State([Queue(n, 0, n, 0, 0, 0)], Idle, multiset{}, Nothing)
  {
    if n == 0 {
      run := [State([Queue(0, 0, 0, 0, 0, 0)], Idle, multiset{}, Nothing)];
    } else {
      run := SendMany(n - 1);
      run := SendOne(run, Plain);
    }
  }

  /** Both bounds are reached at once: 255 requests and a notified READ fill the queue with 256
      requests and reserve 257. */
  lemma BoundsAreTight() returns (run: seq<State>)
    ensures IsRun(run) && |run[|run| - 1].queues| == 1
    ensures run[|run| - 1].queues[0].plain + run[|run| - 1].queues[0].pulls == 256
    ensures Reserved(run[|run| - 1], 0) == 257
  {
    run := SendMany(OUTSTANDING - 1);
    run := SendOne(run, NotifiedRead);
  }
}
