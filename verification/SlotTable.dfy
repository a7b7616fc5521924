/** The receiver's table of remote op batches for one source, and what each control message does to
    it (src/uri/mpi/uri_mpi_channel.c:79-165). */
module SlotTable {

  /** One MPI operation the sender asks the receiver to post. */
  datatype RemoteOp = RemoteOp(recv: bool, addr: nat, size: nat, tag: nat)

  type Batch = seq<RemoteOp>

  datatype Ctrl =
    | CreateBatch(id: nat, batch: Batch)
    | StartBatch(id: nat)
    | DestroyBatch(id: nat)
    | ExecuteBatch(batch: Batch)

  type Table = map<nat, Batch>

  /** A message either stops the program (an assertion, or a null slot dereferenced) or yields a
      table and the operations posted. */
  datatype Effect = Crash | Done(table: Table, posted: Batch)

  function Process(t: Table, m: Ctrl): Effect {
    match m
    case CreateBatch(id, b) => if id in t then Crash else Done(t[id := b], [])
    case StartBatch(id) => if id in t then Done(t, t[id]) else Crash
    case DestroyBatch(id) => if id in t then Done(t - {id}, []) else Crash
    case ExecuteBatch(b) => Done(t, b)
  }

  /** The table and all operations posted after a sequence of messages, from the empty table. */
  function Replay(msgs: seq<Ctrl>): Effect
    decreases |msgs|
  {
    if msgs == [] then Done(map[], [])
    else
      match Replay(msgs[..|msgs| - 1])
      case Crash => Crash
      case Done(t, p) =>
        match Process(t, msgs[|msgs| - 1])
        case Crash => Crash
        case Done(t', p') => Done(t', p + p')
  }

  // ---------- the table as the program keeps it ----------

  datatype Slot = Empty | Full(batch: Batch)

  function TableOf(slots: seq<Slot>): (t: Table) {
    map id | 0 <= id < |slots| && slots[id].Full? :: slots[id].batch
  }

  class Slots {
    var slots: array<Slot>

    function View(): Table
      reads this, slots
    {
      TableOf(slots[..])
    }

    constructor ()
      ensures View() == map[] && fresh(slots)
    {
      slots := new Slot[0];
    }

    /** Room for `id`: a table that is too short grows to 2 * id + 16 slots, the new ones empty. */
    method Grow(id: nat)
      modifies this
      ensures id < slots.Length && View() == old(View())
      ensures slots == old(slots) || fresh(slots)
      ensures if id < old(slots.Length) then slots == old(slots) else slots.Length == id * 2 + 16
    {
      if id + 1 > slots.Length {
        var bigger := new Slot[id * 2 + 16];
        for i := 0 to bigger.Length
          invariant slots == old(slots) && slots[..] == old(slots[..])
          invariant forall k :: 0 <= k < i ==> bigger[k] == if k < slots.Length then slots[k] else Empty
        {
          bigger[i] := if i < slots.Length then slots[i] else Empty;
        }
        assert TableOf(bigger[..]) == TableOf(slots[..]);
        slots := bigger;
      }
    }

    /** Processes one control message; false stands for the program stopping. */
    method ProcessMessage(m: Ctrl) returns (ok: bool, posted: Batch)
      modifies this, slots
      ensures ok <==> Process(old(View()), m).Done?
      ensures ok ==> View() == Process(old(View()), m).table && posted == Process(old(View()), m).posted
      ensures match m
              case CreateBatch(id, b) => (ok <==> id !in old(View())) && (ok ==> View() == old(View())[id := b] && posted == [])
              case StartBatch(id) => (ok <==> id in old(View())) && (ok ==> View() == old(View()) && posted == old(View())[id])
              case DestroyBatch(id) => (ok <==> id in old(View())) && (ok ==> View() == old(View()) - {id} && posted == [])
              case ExecuteBatch(b) => ok && View() == old(View()) && posted == b
      ensures slots == old(slots) || fresh(slots)
    {
      posted := [];
      match m
      case CreateBatch(id, b) =>
        Grow(id);
        ok := slots[id].Empty?;
        if ok {
          ghost var before := slots[..];
          slots[id] := Full(b);
          assert slots[..] == before[id := Full(b)];
        }
      case StartBatch(id) =>
        ok := id < slots.Length && slots[id].Full?;
        if ok {
          var n := |slots[id].batch|;
          for j := 0 to n
            invariant posted == slots[id].batch[..j]
          {
            posted := posted + [slots[id].batch[j]];
          }
        }
      case DestroyBatch(id) =>
        ok := id < slots.Length && slots[id].Full?;
        if ok {
          ghost var before := slots[..];
          slots[id] := Empty;
          assert slots[..] == before[id := Empty];
        }
      case ExecuteBatch(b) =>
        ok := true;
        for j := 0 to |b|
          invariant posted == b[..j]
        {
          posted := posted + [b[j]];
        }
    }
  }
}
