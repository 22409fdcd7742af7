/**
 The journal: one first-in-first-out channel, drained by one task into a table that only grows
 and that is unique on (transaction, operation, path).
 */
module Journal {
  import opened Paths
  import opened Review

  datatype MutationRecord = MutationRecord(txid: int, pid: int, op: Operation, path: Path, time: nat)

  type Key = (int, Operation, Path)

  function KeyOf(r: MutationRecord): Key {
    (r.txid, r.op, r.path)
  }

  datatype Message = Write(record: MutationRecord) | Flush(ticket: nat)

  /** What is queued, what is in the table, and which flushes are acknowledged. */
  datatype Channel = Channel(queue: seq<Message>, rows: seq<MutationRecord>, acked: set<nat>)

  const EMPTY: Channel := Channel([], [], {})

  predicate HasKey(rows: seq<MutationRecord>, k: Key) {
    exists i | 0 <= i < |rows| :: KeyOf(rows[i]) == k
  }

  /** One INSERT; the unique key or a database error leaves the table as it was. */
  function Append(rows: seq<MutationRecord>, r: MutationRecord, works: bool): seq<MutationRecord> {
    if works && !HasKey(rows, KeyOf(r)) then rows + [r] else rows
  }

  datatype Move = Send(message: Message) | Take(works: bool)

  function Apply(c: Channel, m: Move): Channel {
    match m
    case Send(message) => c.(queue := c.queue + [message])
    case Take(works) =>
      if c.queue == [] then c
      else
        var rest := c.(queue := c.queue[1..]);
        match c.queue[0]
        case Write(r) => rest.(rows := Append(c.rows, r, works))
        case Flush(ticket) => rest.(acked := c.acked + {ticket})
  }

  /** Any number of producers and the one consumer, in any order. */
  function Run(c: Channel, moves: seq<Move>): Channel {
    if moves == [] then c else Apply(Run(c, moves[..|moves| - 1]), moves[|moves| - 1])
  }

  class JournalTask {
    var channel: Channel

    constructor ()
      ensures channel == EMPTY
    {
      channel := EMPTY;
    }

    method Enqueue(message: Message)
      modifies this
      ensures |channel.queue| == |old(channel.queue)| + 1 && channel.queue[|old(channel.queue)|] == message
      ensures old(channel.queue) <= channel.queue
      ensures channel.rows == old(channel.rows) && channel.acked == old(channel.acked)
    {
      channel := channel.(queue := channel.queue + [message]);
    }

    /** One turn of the draining loop. */
    method Drain(works: bool)
      modifies this
      ensures channel == Apply(old(channel), Take(works))
    {
      if channel.queue == [] {
        return;
      }
      var message := channel.queue[0];
      channel := channel.(queue := channel.queue[1..]);
      match message {
        case Write(r) =>
          if works && !HasKey(channel.rows, KeyOf(r)) {
            channel := channel.(rows := channel.rows + [r]);
          }
        case Flush(ticket) => channel := channel.(acked := channel.acked + {ticket});
      }
    }
  }

  // ---- History of a run ----

  /** Everything sent, in order. */
  function Sent(moves: seq<Move>): seq<Message> {
    if moves == [] then []
    else
      var m := moves[|moves| - 1];
      Sent(moves[..|moves| - 1]) + if m.Send? then [m.message] else []
  }

  /** For every message taken off the queue, in order, whether the database worked. */
  function Taken(moves: seq<Move>): seq<bool> {
    if moves == [] then []
    else
      var before := moves[..|moves| - 1];
      var m := moves[|moves| - 1];
      Taken(before) + if m.Take? && Run(EMPTY, before).queue != [] then [m.works] else []
  }

  /** The queue is what was sent and not yet taken. */
  lemma {:induction false} FirstInFirstOut(moves: seq<Move>)
    ensures |Taken(moves)| <= |Sent(moves)|
    ensures Run(EMPTY, moves).queue == Sent(moves)[|Taken(moves)|..]
  {
    if moves != [] {
      FirstInFirstOut(moves[..|moves| - 1]);
    }
  }

  /** Message `i` is a record with key `k` and the database worked when it was taken. */
  ghost predicate Stores(moves: seq<Move>, i: nat, k: Key) {
    && i < |Taken(moves)| && Taken(moves)[i]
    && i < |Sent(moves)| && Sent(moves)[i].Write? && KeyOf(Sent(moves)[i].record) == k
  }

  lemma StoresLater(moves: seq<Move>, m: Move, i: nat, k: Key)
    ensures Stores(moves, i, k) ==> Stores(moves + [m], i, k)
    ensures Stores(moves + [m], i, k) && i < |Taken(moves)| ==> Stores(moves, i, k)
  {
    assert (moves + [m])[..|moves|] == moves;
    FirstInFirstOut(moves);
  }

  // ---- What the table holds ----

  ghost predicate UniqueKeys(rows: seq<MutationRecord>) {
    forall i, j | 0 <= i < j < |rows| :: KeyOf(rows[i]) != KeyOf(rows[j])
  }

  /** The row came from message `i`, and no earlier stored message had its key. */
  ghost predicate FirstWith(moves: seq<Move>, row: MutationRecord, i: nat) {
    && Stores(moves, i, KeyOf(row)) && Sent(moves)[i].record == row
    && forall j | 0 <= j < i :: !Stores(moves, j, KeyOf(row))
  }

  /** Keys stay unique and a row never changes: one step only ever extends the table. */
  lemma {:induction false} RowsOnlyGrow(c: Channel, moves: seq<Move>)
    requires UniqueKeys(c.rows)
    ensures c.rows <= Run(c, moves).rows && UniqueKeys(Run(c, moves).rows)
    ensures c.acked <= Run(c, moves).acked
  {
    if moves != [] {
      RowsOnlyGrow(c, moves[..|moves| - 1]);
    }
  }

  /** What one more move adds to the stored messages. */
  lemma StoresStep(before: seq<Move>, m: Move, i: nat, k: Key)
    ensures var c := Run(EMPTY, before);
      var added := m.Take? && m.works && c.queue != [] && c.queue[0].Write? && KeyOf(c.queue[0].record) == k;
      Stores(before + [m], i, k) <==> (Stores(before, i, k) || (added && i == |Taken(before)|))
  {
    var moves := before + [m];
    assert moves[..|before|] == before;
    FirstInFirstOut(before);
  }

  /** A key is in the table exactly when some taken record with it was stored. */
  lemma {:induction false} KeysAreStored(moves: seq<Move>, k: Key)
    ensures HasKey(Run(EMPTY, moves).rows, k) <==> exists i :: Stores(moves, i, k)
  {
    if moves != [] {
      var before, m := moves[..|moves| - 1], moves[|moves| - 1];
      assert moves == before + [m];
      KeysAreStored(before, k);
      forall i: nat ensures Stores(moves, i, k) ==> Stores(before, i, k) || i == |Taken(before)| {
        StoresStep(before, m, i, k);
      }
      forall i: nat ensures Stores(before, i, k) ==> Stores(moves, i, k) {
        StoresStep(before, m, i, k);
      }
      StoresStep(before, m, |Taken(before)|, k);
      var c := Run(EMPTY, before);
      if m.Take? && c.queue != [] && c.queue[0].Write? {
        AppendAddsKey(c.rows, c.queue[0].record, m.works, k);
      }
    }
  }

  /** Message `i` is a record of these three, and the database worked when it was taken. */
  ghost predicate Records(moves: seq<Move>, i: nat, txid: int, op: Operation, path: Path) {
    && i < |Taken(moves)| && Taken(moves)[i] && i < |Sent(moves)| && Sent(moves)[i].Write?
    && var r := Sent(moves)[i].record; r.txid == txid && r.op == op && r.path == path
  }

  /**
   With the fields written out: a row of this transaction, operation and path is in the table exactly
   when a record of the three was taken while the database worked, and no two rows agree in all three.
   */
  lemma RowsAreTheStored(moves: seq<Move>, txid: int, op: Operation, path: Path)
    ensures (exists r :: r in Run(EMPTY, moves).rows && r.txid == txid && r.op == op && r.path == path) <==>
      exists i: nat :: Records(moves, i, txid, op, path)
    ensures var rows := Run(EMPTY, moves).rows;
      forall x, y | 0 <= x < y < |rows| ::
        rows[x].txid != rows[y].txid || rows[x].op != rows[y].op || rows[x].path != rows[y].path
  {
    var k := (txid, op, path);
    KeysAreStored(moves, k);
    RowsOnlyGrowFromNothing(moves);
    forall i: nat ensures Records(moves, i, txid, op, path) <==> Stores(moves, i, k) {
    }
    hide Run, Sent, Taken, Records, Stores;
    var rows := Run(EMPTY, moves).rows;
    if HasKey(rows, k) {
      var x :| 0 <= x < |rows| && KeyOf(rows[x]) == k;
      assert rows[x] in rows && rows[x].txid == txid && rows[x].op == op && rows[x].path == path;
    }
    if r :| r in rows && r.txid == txid && r.op == op && r.path == path {
      var x :| 0 <= x < |rows| && rows[x] == r;
      assert KeyOf(rows[x]) == k;
    }
  }

  lemma RowsOnlyGrowFromNothing(moves: seq<Move>)
    ensures UniqueKeys(Run(EMPTY, moves).rows)
  {
    RowsOnlyGrow(EMPTY, moves);
  }

  lemma AppendAddsKey(rows: seq<MutationRecord>, r: MutationRecord, works: bool, k: Key)
    ensures HasKey(Append(rows, r, works), k) <==> HasKey(rows, k) || (works && KeyOf(r) == k)
  {
    var rows' := Append(rows, r, works);
    if HasKey(rows, k) {
      var i :| 0 <= i < |rows| && KeyOf(rows[i]) == k;
      assert KeyOf(rows'[i]) == k;
    }
    if works && KeyOf(r) == k && !HasKey(rows, k) {
      assert KeyOf(rows'[|rows|]) == k;
    }
  }

  /** Every row is the first record with its key that was stored. */
  lemma {:induction false} FirstRecordWins(moves: seq<Move>, x: nat) returns (i: nat)
    requires x < |Run(EMPTY, moves).rows|
    ensures FirstWith(moves, Run(EMPTY, moves).rows[x], i)
  {
    var before, m := moves[..|moves| - 1], moves[|moves| - 1];
    assert moves == before + [m];
    var c := Run(EMPTY, before);
    var row := Run(EMPTY, moves).rows[x];
    assert Run(EMPTY, moves) == Apply(c, m);
    FirstInFirstOut(before);
    FirstInFirstOut(moves);
    if x < |c.rows| {
      i := FirstRecordWins(before, x);
      StoresLater(before, m, i, KeyOf(row));
      forall j: nat | j < i ensures !Stores(moves, j, KeyOf(row)) {
        StoresLater(before, m, j, KeyOf(row));
      }
    } else {
      i := |Taken(before)|;
      KeysAreStored(before, KeyOf(row));
      forall j: nat | j < i ensures !Stores(moves, j, KeyOf(row)) {
        StoresLater(before, m, j, KeyOf(row));
      }
    }
  }

  /** A flush is acknowledged exactly by being taken, whatever the database does. */
  lemma {:induction false} AckedExactly(moves: seq<Move>, ticket: nat)
    ensures ticket in Run(EMPTY, moves).acked <==>
      exists j | 0 <= j < |Taken(moves)| && j < |Sent(moves)| :: Sent(moves)[j] == Flush(ticket)
  {
    if moves != [] {
      var before, m := moves[..|moves| - 1], moves[|moves| - 1];
      assert moves == before + [m];
      FirstInFirstOut(before);
      FirstInFirstOut(moves);
      AckedExactly(before, ticket);
      var sent, taken := Sent(before), Taken(before);
      assert sent <= Sent(moves) && taken <= Taken(moves);
      assert forall j | 0 <= j < |taken| && j < |sent| :: Sent(moves)[j] == sent[j];
    }
  }

  lemma {:induction false} AckedWasTaken(moves: seq<Move>, ticket: nat) returns (j: nat)
    requires ticket in Run(EMPTY, moves).acked
    ensures j < |Taken(moves)| && j < |Sent(moves)| && Sent(moves)[j] == Flush(ticket)
  {
    var before, m := moves[..|moves| - 1], moves[|moves| - 1];
    assert moves == before + [m];
    FirstInFirstOut(before);
    if ticket in Run(EMPTY, before).acked {
      j := AckedWasTaken(before, ticket);
    } else {
      j := |Taken(before)|;
    }
  }

  /**
   The barrier: once the flush with `ticket` is acknowledged, every record sent before it has a row
   of its transaction, operation and path, unless the database failed when that very record was taken.
   */
  lemma FlushBarrier(moves: seq<Move>, ticket: nat, i: nat)
    requires ticket in Run(EMPTY, moves).acked && i < |Sent(moves)| && Sent(moves)[i].Write?
    requires forall j | 0 <= j < |Sent(moves)| && Sent(moves)[j] == Flush(ticket) :: i < j
    ensures i < |Taken(moves)|
    ensures var sent := Sent(moves)[i].record;
      Taken(moves)[i] ==>
        exists r :: r in Run(EMPTY, moves).rows && r.txid == sent.txid && r.op == sent.op && r.path == sent.path
  {
    hide Run, Sent, Taken;
    var j := AckedWasTaken(moves, ticket);
    var sent := Sent(moves)[i].record;
    RowsAreTheStored(moves, sent.txid, sent.op, sent.path);
    assert Taken(moves)[i] ==> Records(moves, i, sent.txid, sent.op, sent.path);
  }
}
