/** Signal pools: the daemon pushes the index of a signal whose counter reaches zero, detect pops
    an index and re-arms its signal (src/unr/base/unr_sig.c:72-101,
    src/uri/mpi/uri_mpi_channel.c:236-242). */
module SigPool {
  import opened Pigeonhole
  import opened Signal
  import opened RingQueue

  // ---------- the pool as the program keeps it ----------

  /** `counter` and `numEvent` are the fields of the pooled flags, by index. */
  class Pool {
    const queue: Ring
    const counter: array<int>
    const numEvent: array<nat>

    ghost predicate Valid()
      reads this, queue
    {
      queue.Valid() && counter.Length == numEvent.Length && queue.size == counter.Length + 1
    }

    constructor (counter: array<int>, numEvent: array<nat>)
      requires counter.Length == numEvent.Length
      ensures Valid() && queue.Contents() == [] && fresh(queue) && fresh(queue.buff)
      ensures this.counter == counter && this.numEvent == numEvent
    {
      this.counter, this.numEvent := counter, numEvent;
      queue := new Ring(counter.Length);
    }

    /** The daemon applies the increment of a completed piece to signal i. */
    method Complete(i: nat, add: int) returns (ok: bool)
      requires Valid() && i < counter.Length && counter != queue.buff
      modifies queue`tail, queue.buff, counter
      ensures Valid()
      ensures counter[..] == old(counter[..])[i := Wrap64(old(counter[i]) + add)]
      ensures counter[i] != 0 ==> ok && queue.Contents() == old(queue.Contents())
      ensures counter[i] == 0 ==> (ok <==> |old(queue.Contents())| < counter.Length)
      ensures counter[i] == 0 && ok ==> queue.Contents() == old(queue.Contents()) + [i]
    {
      counter[i] := Wrap64(counter[i] + add);
      ok := true;
      if counter[i] == 0 { ok := queue.Push(i); }
    }

    /** Returns the index of a triggered signal and re-arms it, or -1. */
    method Detect() returns (id: int)
      requires Valid() && counter != queue.buff
      requires forall x :: x in queue.Contents() ==> 0 <= x < counter.Length
      modifies queue`head, counter
      ensures Valid()
      ensures old(queue.Contents()) == [] ==>
                id == -1 && queue.Contents() == [] && counter[..] == old(counter[..])
      ensures old(queue.Contents()) != [] ==>
                && id == old(queue.Contents())[0] && 0 <= id < counter.Length && queue.Contents() == old(queue.Contents())[1..]
                && counter[..] == old(counter[..])[id := numEvent[id]]
    {
      ghost var q := queue.Contents();
      id := queue.Pop();
      assert q != [] ==> q[0] in q;
      if id >= 0 {
        counter[id] := numEvent[id];
      }
    }
  }

  // ---------- runs ----------

  /** One pooled signal. Since it was last armed, `firsts` messages were counted that announced
      `more` further pieces, and `laters` further pieces completed. */
  datatype Sig = Sig(numEvent: nat, counter: int, firsts: nat, more: nat, laters: nat, crossings: nat, detections: nat)

  /** `popped` are the indices that some thread in detect has popped and not re-armed yet. */
  datatype State = State(sigs: seq<Sig>, queue: seq<nat>, popped: set<nat>, full: bool)

  function Armed(s: Sig): Sig { s.(counter := s.numEvent, firsts := 0, more := 0, laters := 0) }

  function After(s: Sig, inc: Inc): Sig {
    match inc
    case First(m) => s.(counter := Wrap64(s.counter + Value(inc)), firsts := s.firsts + 1, more := s.more + m)
    case Later => s.(counter := Wrap64(s.counter + Value(inc)), laters := s.laters + 1)
  }

  /** The range in which the layout of the counter is unambiguous. */
  ghost predicate InRange(s: Sig) {
    s.firsts <= s.numEvent + TWO31 && s.more < TWO31 && s.laters < TWO31
  }

  datatype Step = Complete(i: nat, inc: Inc) | Pop | Rearm(i: nat)

  ghost predicate DoStep(s: State, t: State, step: Step) {
    match step
    case Complete(i, inc) =>
      && i < |s.sigs| && InRange(After(s.sigs[i], inc))
      && var g := After(s.sigs[i], inc);
      if g.counter != 0 then t == s.(sigs := s.sigs[i := g])
      else if |s.queue| < |s.sigs| then
        t == s.(sigs := s.sigs[i := g.(crossings := g.crossings + 1)], queue := s.queue + [i])
      else t == s.(full := true)
    case Pop =>
      s.queue != [] && t == s.(queue := s.queue[1..], popped := s.popped + {s.queue[0]})
    case Rearm(i) =>
      && i in s.popped && i < |s.sigs|
      && t == s.(popped := s.popped - {i},
                 sigs := s.sigs[i := Armed(s.sigs[i]).(detections := s.sigs[i].detections + 1)])
  }

  ghost predicate Next(s: State, t: State) { exists step :: DoStep(s, t, step) }

  /** Signals are untriggered and have seen no event when the pool is created. */
  ghost predicate Init(s: State) {
    && s.queue == [] && s.popped == {} && !s.full
    && forall i :: 0 <= i < |s.sigs| ==>
         0 < s.sigs[i].numEvent < TWO31 && s.sigs[i] == Sig(s.sigs[i].numEvent, s.sigs[i].numEvent, 0, 0, 0, 0, 0)
  }

  ghost predicate IsRun(run: seq<State>) {
    && |run| > 0 && Init(run[0])
    && forall k :: 0 < k < |run| ==> Next(run[k - 1], run[k])
  }

  // ---------- invariant ----------

  function Held(s: State, i: nat): nat { multiset(s.queue)[i] + if i in s.popped then 1 else 0 }

  ghost predicate SigInv(g: Sig, held: nat) {
    && 0 < g.numEvent < TWO31 && InRange(g)
    && g.counter == (g.numEvent - g.firsts) + (g.more - g.laters) * TWO32
    && held <= 1
    && (held == 1 ==> g.firsts > g.numEvent || (g.firsts == g.numEvent && g.more <= g.laters))
    && g.crossings == g.detections + held
  }

  ghost predicate Inv(s: State) {
    && !s.full
    && (forall i :: 0 <= i < |s.sigs| ==> SigInv(s.sigs[i], Held(s, i)))
    && (forall i :: i in s.queue || i in s.popped ==> i < |s.sigs|)
  }

  /** A completed piece keeps the counter exact, and a signal that is queued or being re-armed
      does not cross zero again. */
  lemma CompleteSig(g: Sig, held: nat, inc: Inc)
    requires SigInv(g, held) && InRange(After(g, inc))
    ensures var h := After(g, inc);
            && h.counter == (h.numEvent - h.firsts) + (h.more - h.laters) * TWO32
            && (h.counter == 0 <==> h.firsts == h.numEvent && h.more == h.laters)
            && (held == 1 ==> h.counter != 0 && (h.firsts > h.numEvent || (h.firsts == h.numEvent && h.more <= h.laters)))
  {
    var h := After(g, inc);
    Halves(h.numEvent - h.firsts, h.more - h.laters);
  }

  lemma QueueDistinct(s: State)
    requires Inv(s)
    ensures forall x :: multiset(s.queue)[x] <= 1
  {
    forall x ensures multiset(s.queue)[x] <= 1 {
      if x in s.queue { assert SigInv(s.sigs[x], Held(s, x)); }
    }
  }

  lemma CompleteKeepsInv(s: State, t: State, i: nat, inc: Inc)
    requires Inv(s) && DoStep(s, t, Complete(i, inc))
    ensures Inv(t)
  {
    var g := After(s.sigs[i], inc);
    assert SigInv(s.sigs[i], Held(s, i));
    CompleteSig(s.sigs[i], Held(s, i), inc);
    if g.counter == 0 {
      assert i !in s.queue && i !in s.popped;
      QueueDistinct(s);
      RoomLeft(s.queue, |s.sigs|, i);
      forall k | 0 <= k < |t.sigs| ensures SigInv(t.sigs[k], Held(t, k)) {
        assert SigInv(s.sigs[k], Held(s, k));
        assert multiset(t.queue)[k] == multiset(s.queue)[k] + if k == i then 1 else 0;
      }
    } else {
      forall k | 0 <= k < |t.sigs| ensures SigInv(t.sigs[k], Held(t, k)) {
        assert SigInv(s.sigs[k], Held(s, k));
      }
    }
  }

  lemma PopKeepsInv(s: State, t: State)
    requires Inv(s) && DoStep(s, t, Pop)
    ensures Inv(t)
  {
    var h := s.queue[0];
    assert s.queue == [h] + t.queue;
    forall x | x in t.queue || x in t.popped ensures x < |t.sigs| { assert x in s.queue || x in s.popped; }
    forall k | 0 <= k < |t.sigs| ensures SigInv(t.sigs[k], Held(t, k)) {
      assert SigInv(s.sigs[k], Held(s, k));
      assert multiset(s.queue)[k] == multiset(t.queue)[k] + if k == h then 1 else 0;
    }
  }

  lemma RearmKeepsInv(s: State, t: State, i: nat)
    requires Inv(s) && DoStep(s, t, Rearm(i))
    ensures Inv(t)
  {
    forall k | 0 <= k < |t.sigs| ensures SigInv(t.sigs[k], Held(t, k)) {
      assert SigInv(s.sigs[k], Held(s, k));
    }
  }

  lemma {:induction false} RunKeepsInv(run: seq<State>, k: nat)
    requires IsRun(run) && k < |run|
    ensures Inv(run[k])
  {
    if k > 0 {
      RunKeepsInv(run, k - 1);
      var step :| DoStep(run[k - 1], run[k], step);
      match step
      case Complete(i, inc) => CompleteKeepsInv(run[k - 1], run[k], i, inc);
      case Pop => PopKeepsInv(run[k - 1], run[k]);
      case Rearm(i) => RearmKeepsInv(run[k - 1], run[k], i);
    }
  }

  // ---------- what holds in every run ----------

  /** The ring is never full when the daemon pushes, no index is queued twice, and a queued index
      is not at the same time being re-armed. */
  lemma QueueSound(run: seq<State>, k: nat, i: nat)
    requires IsRun(run) && k < |run|
    ensures !run[k].full && multiset(run[k].queue)[i] <= 1
    ensures i in run[k].queue ==> i < |run[k].sigs| && i !in run[k].popped
  {
    RunKeepsInv(run, k);
    QueueDistinct(run[k]);
    if i in run[k].queue { assert SigInv(run[k].sigs[i], Held(run[k], i)); }
  }

  /** Zero crossings of a signal are its detections returned plus its entries still on the way. */
  lemma NoDetectionLost(run: seq<State>, k: nat, i: nat)
    requires IsRun(run) && k < |run| && i < |run[k].sigs|
    ensures var s := run[k];
            s.sigs[i].crossings == s.sigs[i].detections + multiset(s.queue)[i] + if i in s.popped then 1 else 0
  {
    RunKeepsInv(run, k);
    assert SigInv(run[k].sigs[i], Held(run[k], i));
  }

  /** A signal whose expected messages and announced pieces have all completed is queued or being
      re-armed: the daemon misses no trigger. */
  lemma TriggeredIsQueued(run: seq<State>, k: nat, i: nat)
    requires IsRun(run) && k < |run| && i < |run[k].sigs|
    ensures var g := run[k].sigs[i];
            (g.counter == 0 <==> g.firsts == g.numEvent && g.more == g.laters)
            && (g.counter == 0 ==> i in run[k].queue || i in run[k].popped)
  {
    RunKeepsInv(run, k);
    var g := run[k].sigs[i];
    assert SigInv(g, Held(run[k], i));
    Halves(g.numEvent - g.firsts, g.more - g.laters);
    if g.counter == 0 { ZeroIsHeld(run, k, i); }
  }

  /** A signal at zero stays on the way until it is re-armed, and gets on the way when it reaches
      zero. */
  lemma ZeroStep(s: State, t: State, step: Step, i: nat)
    requires Inv(s) && DoStep(s, t, step) && i < |s.sigs| == |t.sigs| && t.sigs[i].counter == 0
    requires s.sigs[i].counter == 0 ==> i in s.queue || i in s.popped
    ensures i in t.queue || i in t.popped
  {
    assert SigInv(s.sigs[i], Held(s, i));
    match step
    case Complete(j, inc) =>
      if i == j { ZeroComplete(s, t, i, inc); }
    case Pop =>
      assert s.queue == [s.queue[0]] + t.queue;
    case Rearm(j) =>
  }

  lemma ZeroComplete(s: State, t: State, i: nat, inc: Inc)
    requires Inv(s) && DoStep(s, t, Complete(i, inc)) && t.sigs[i].counter == 0
    ensures i in t.queue
  {
    assert !t.full || !s.full;
    CompleteKeepsInv(s, t, i, inc);
  }

  lemma SameSignals(s: State, t: State)
    requires Next(s, t)
    ensures |s.sigs| == |t.sigs|
  {
  }

  lemma ZeroNext(s: State, t: State, i: nat)
    requires Inv(s) && Next(s, t) && i < |s.sigs| == |t.sigs| && t.sigs[i].counter == 0
    requires s.sigs[i].counter == 0 ==> i in s.queue || i in s.popped
    ensures i in t.queue || i in t.popped
  {
    var step :| DoStep(s, t, step);
    ZeroStep(s, t, step, i);
  }

  lemma {:induction false} ZeroIsHeld(run: seq<State>, k: nat, i: nat)
    requires IsRun(run) && k < |run| && i < |run[k].sigs| && run[k].sigs[i].counter == 0
    ensures i in run[k].queue || i in run[k].popped
  {
    if k > 0 {
      RunKeepsInv(run, k - 1);
      SameSignals(run[k - 1], run[k]);
      if run[k - 1].sigs[i].counter == 0 { ZeroIsHeld(run, k - 1, i); }
      ZeroNext(run[k - 1], run[k], i);
    }
  }
}
