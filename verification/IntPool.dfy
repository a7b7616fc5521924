/** The pool of recycled integers that hands out tags and batch ids
    (src/uri/mpi/uri_mpi_utils.c:4-32, src/uri/mpi/uri_mpi_channel.c:55-62).

    Rank r keeps one pool per peer. A pooled number v leaves as the id v * size + r, so that the
    two ends of a pair never hand out the same id. */
module IntPool {
  import opened Arith

  const LIMIT: nat := 2100000000

  /** The id that rank `rank` of `size` makes of the pooled number v. */
  function Encode(v: nat, size: nat, rank: nat): nat { v * size + rank }

  function Decode(id: nat, size: nat, rank: nat): nat
    requires rank < size && rank <= id
  {
    (id - rank) / size
  }

  /** Returning an id undoes the encoding, and the id tells its rank. */
  lemma DecodeEncode(v: nat, size: nat, rank: nat)
    requires rank < size
    ensures Encode(v, size, rank) >= rank
    ensures Decode(Encode(v, size, rank), size, rank) == v
    ensures Encode(v, size, rank) % size == rank
  {
    MulMonotone(0, v, size);
    DivUnique(v * size + rank, size, v);
    DivUnique(v * size, size, v);
  }

  /** An id with the residue of the rank is the encoding of the number it decodes to. */
  lemma EncodeDecode(id: nat, size: nat, rank: nat)
    requires rank < size && id % size == rank
    ensures rank <= id && Encode(Decode(id, size, rank), size, rank) == id
  {
    var q := id / size;
    assert id == q * size + rank;
    MulMonotone(0, q, size);
    DivUnique(id - rank, size, q);
  }

  lemma EncodeBelowLimit(v: nat, size: nat, rank: nat)
    requires rank < size && v < LIMIT / size
    ensures Encode(v, size, rank) < 2100000000
  {
    var q := LIMIT / size;
    assert LIMIT == q * size + LIMIT % size;
    MulMonotone(v, q, size);
  }

  /** Ids of different ranks differ, whatever the two pools hold. */
  lemma EndsDisjoint(a: nat, b: nat, v: nat, w: nat, size: nat)
    requires a < size && b < size && a != b
    ensures Encode(v, size, a) != Encode(w, size, b)
  {
    DecodeEncode(v, size, a);
    DecodeEncode(w, size, b);
  }

  // ---------- the pool as a value ----------

  /** Numbers below max have been handed out at least once; those on the stack came back. */
  datatype Pool = Pool(max: nat, stack: seq<nat>)

  const FRESH: Pool := Pool(1, [])

  function Taken(p: Pool): nat {
    if p.stack != [] then p.stack[|p.stack| - 1] else p.max
  }

  function Take(p: Pool): Pool {
    if p.stack != [] then p.(stack := p.stack[..|p.stack| - 1]) else p.(max := p.max + 1)
  }

  function Give(p: Pool, v: nat): Pool { p.(stack := p.stack + [v]) }

  /** Every number from 1 up to max is either on the stack, once, or held. */
  ghost predicate Good(p: Pool, held: set<nat>) {
    && p.max >= 1
    && (forall v :: v in held ==> 1 <= v < p.max && v !in p.stack)
    && (forall v :: v in p.stack ==> 1 <= v < p.max)
    && (forall v: nat {:trigger v in held} :: 1 <= v < p.max ==> v in held || v in p.stack)
    && (forall i, j :: 0 <= i < j < |p.stack| ==> p.stack[i] != p.stack[j])
  }

  /** What is taken was not held. */
  lemma TakeGood(p: Pool, held: set<nat>)
    requires Good(p, held)
    ensures Taken(p) !in held && Good(Take(p), held + {Taken(p)})
  {
    if p.stack != [] {
      var rest := Take(p).stack;
      assert p.stack == rest + [Taken(p)];
      assert Taken(p) in p.stack;
      forall v | v in rest ensures v in p.stack && v != Taken(p) {
        var i :| 0 <= i < |rest| && rest[i] == v;
        assert p.stack[i] == v;
      }
    }
  }

  lemma GiveGood(p: Pool, held: set<nat>, v: nat)
    requires Good(p, held) && v in held
    ensures Good(Give(p, v), held - {v})
  {
  }

  // ---------- any sequence of gets and returns ----------

  datatype Op = Get | Return(v: nat)

  datatype Outcome = Outcome(pool: Pool, held: set<nat>, gets: nat, given: nat)

  /** Returns are of ids that are held. */
  ghost predicate Legal(ops: seq<Op>)
    decreases |ops|
  {
    ops == [] ||
    var init, op := ops[..|ops| - 1], ops[|ops| - 1];
    Legal(init) && (op.Return? ==> op.v in After(init).held)
  }

  ghost function After(ops: seq<Op>): Outcome
    decreases |ops|
  {
    if ops == [] then Outcome(FRESH, {}, 0, 0)
    else
      var o := After(ops[..|ops| - 1]);
      match ops[|ops| - 1]
      case Get => Outcome(Take(o.pool), o.held + {Taken(o.pool)}, o.gets + 1, o.given)
      case Return(v) => Outcome(Give(o.pool, v), o.held - {v}, o.gets, o.given + 1)
  }

  /** After any sequence of gets and returns of held numbers, the numbers out are pairwise
      distinct: there are as many as gets not yet returned. */
  lemma {:induction false} HeldDistinct(ops: seq<Op>)
    requires Legal(ops)
    ensures Good(After(ops).pool, After(ops).held)
    ensures |After(ops).held| == After(ops).gets - After(ops).given
    decreases |ops|
  {
    if ops != [] {
      var init, op := ops[..|ops| - 1], ops[|ops| - 1];
      HeldDistinct(init);
      var o := After(init);
      match op
      case Get => TakeGood(o.pool, o.held);
      case Return(v) => GiveGood(o.pool, o.held, v);
    }
  }

  /** Ids held between two ranks are distinct even though both ends allocate. */
  lemma IdsOfAPairDistinct(opsA: seq<Op>, opsB: seq<Op>, size: nat, a: nat, b: nat)
    requires Legal(opsA) && Legal(opsB) && a < size && b < size && a != b
    ensures (set v | v in After(opsA).held :: Encode(v, size, a)) !! (set v | v in After(opsB).held :: Encode(v, size, b))
  {
    forall v, w | v in After(opsA).held && w in After(opsB).held
      ensures Encode(v, size, a) != Encode(w, size, b)
    {
      EndsDisjoint(a, b, v, w, size);
    }
  }

  // ---------- the pool as the program keeps it ----------

  /** Both assertions of a get hold. */
  predicate CanTake(p: Pool, size: nat)
    requires size > 0
  {
    Taken(p) < LIMIT / size && (p.stack == [] ==> p.max + 1 < LIMIT / size)
  }

  lemma TopInRange(p: Pool, held: set<nat>)
    requires Good(p, held)
    ensures p.stack != [] ==> Taken(p) < p.max
  {
    if p.stack != [] { assert p.stack[|p.stack| - 1] in p.stack; }
  }

  /** As long as only held numbers are returned, a get stops the program only when the numbers have
      really run out: none has come back and the next one is over the limit. */
  lemma StopsWhenUsedUp(ops: seq<Op>, size: nat)
    requires Legal(ops) && size > 0 && After(ops).pool.max <= LIMIT / size
    ensures var p := After(ops).pool;
            CanTake(p, size) <==> p.stack != [] || p.max + 1 < LIMIT / size
  {
    HeldDistinct(ops);
    TopInRange(After(ops).pool, After(ops).held);
  }

  class PoolCells {
    const size: nat
    const rank: nat
    var max: nat
    var stack: array<nat>
    var top: nat

    ghost predicate Valid()
      reads this, stack
    {
      rank < size && 1 <= max && top <= stack.Length
    }

    ghost function View(): Pool
      reads this, stack
      requires top <= stack.Length
    {
      Pool(max, stack[..top])
    }

    constructor (size: nat, rank: nat)
      requires rank < size
      ensures Valid() && View() == FRESH && this.size == size && this.rank == rank && fresh(stack)
    {
      this.size, this.rank, max, top := size, rank, 1, 0;
      stack := new nat[0];
    }

    /** Takes a number and encodes it; stops the program (ok is false) when one of the two limit
        assertions fails. */
    method Get() returns (ok: bool, id: nat)
      requires Valid()
      modifies this
      ensures ok <==> CanTake(old(View()), size)
      ensures ok ==> Valid() && stack == old(stack) && View() == Take(old(View()))
      ensures ok ==> id == Encode(Taken(old(View())), size, rank) && id < 2100000000
      ensures var was := old(stack[..top]);
              if was != [] then
                && (ok <==> was[|was| - 1] < 2100000000 / size)
                && (ok ==> id == was[|was| - 1] * size + rank && stack[..top] == was[..|was| - 1] && max == old(max))
              else
                && (ok <==> old(max) + 1 < 2100000000 / size)
                && (ok ==> id == old(max) * size + rank && top == 0 && max == old(max) + 1)
    {
      var v;
      if top > 0 {
        top := top - 1;
        v := stack[top];
        assert stack[..top] == old(stack[..top])[..top];
      } else {
        v := max;
        max := max + 1;
        if max >= LIMIT / size { return false, 0; }
      }
      if v >= LIMIT / size { return false, 0; }
      id := v * size + rank;
      EncodeBelowLimit(v, size, rank);
      ok := true;
    }

    /** Decodes an id and pushes its number, growing the stack when it is full; stops the program
        when the id is not of this rank. */
    method Return(id: nat) returns (ok: bool)
      requires Valid()
      modifies this, stack
      ensures ok <==> id % size == rank
      ensures ok ==> Valid() && (stack == old(stack) || fresh(stack))
      ensures ok ==> View() == Give(old(View()), Decode(id, size, rank))
      ensures ok ==> stack[..top] == old(stack[..top]) + [(id - rank) / size] && max == old(max)
    {
      if id % size != rank { return false; }
      EncodeDecode(id, size, rank);
      var v := (id - rank) / size;
      if top == stack.Length {
        var bigger := new nat[2 * stack.Length + 8];
        for i := 0 to top
          invariant top == old(top) && stack == old(stack) && stack[..top] == old(stack[..top])
          invariant max == old(max) && bigger[..i] == stack[..i]
        {
          bigger[i] := stack[i];
        }
        stack := bigger;
      }
      stack[top] := v;
      top := top + 1;
      assert View().stack == old(View()).stack + [v];
      ok := true;
    }
  }
}
