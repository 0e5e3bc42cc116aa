/** Batching in `HTTPSender`: lines are collected under the lock and handed over in batches. */
module Batching {
  /** A batch handed to a delivery goroutine; `bySend` when a full batch triggered it. */
  datatype Batch = Batch(lines: seq<string>, bySend: bool)

  datatype Outbox = Outbox(limit: nat, batch: seq<string>, dispatched: seq<Batch>) {
    /** Every dispatched batch has 1 to `limit` lines, a send-triggered one exactly `limit`, and
        the current one is not full. */
    ghost predicate Valid() {
      && |batch| < limit
      && forall i :: 0 <= i < |dispatched| ==> WellSized(limit, dispatched[i])
    }

    /** All lines accepted so far, in dispatch order. */
    function Contents(): seq<string> {
      BatchLines(dispatched) + batch
    }
  }

  predicate WellSized(limit: nat, b: Batch) {
    1 <= |b.lines| <= limit && (b.bySend ==> |b.lines| == limit)
  }

  function BatchLines(batches: seq<Batch>): seq<string> {
    if batches == [] then []
    else BatchLines(batches[..|batches| - 1]) + batches[|batches| - 1].lines
  }

  /** `flushLockedWithContext`. */
  function Flushed(o: Outbox, bySend: bool): Outbox {
    if o.batch == [] then o
    else o.(batch := [], dispatched := o.dispatched + [Batch(o.batch, bySend)])
  }

  /** `SendWithContext`. */
  function Sent(o: Outbox, line: string): Outbox {
    var o' := o.(batch := o.batch + [line]);
    if |o'.batch| >= o.limit then Flushed(o', true) else o'
  }

  datatype Op = Put(line: string) | Tick

  function After(o: Outbox, op: Op): Outbox {
    match op
    case Put(line) => Sent(o, line)
    case Tick => Flushed(o, false)
  }

  function Run(o: Outbox, ops: seq<Op>): Outbox
    decreases |ops|
  {
    if ops == [] then o else Run(After(o, ops[0]), ops[1..])
  }

  function Given(op: Op): seq<string> {
    if op.Put? then [op.line] else []
  }

  function PutLines(ops: seq<Op>): seq<string> {
    if ops == [] then [] else Given(ops[0]) + PutLines(ops[1..])
  }

  lemma BatchLinesPush(batches: seq<Batch>, b: Batch)
    ensures BatchLines(batches + [b]) == BatchLines(batches) + b.lines
  {
    assert (batches + [b])[..|batches|] == batches;
  }

  lemma FlushKeeps(o: Outbox, bySend: bool)
    requires forall i :: 0 <= i < |o.dispatched| ==> WellSized(o.limit, o.dispatched[i])
    requires if bySend then |o.batch| == o.limit else |o.batch| < o.limit
    requires o.limit >= 1
    ensures Flushed(o, bySend).Valid() && Flushed(o, bySend).batch == []
    ensures Flushed(o, bySend).Contents() == o.Contents() && o.dispatched <= Flushed(o, bySend).dispatched
    ensures BatchLines(Flushed(o, bySend).dispatched) == o.Contents()
  {
    BatchLinesPush(o.dispatched, Batch(o.batch, bySend));
  }

  lemma SendKeeps(o: Outbox, line: string)
    requires o.Valid()
    ensures Sent(o, line).Valid()
    ensures Sent(o, line).Contents() == o.Contents() + [line]
    ensures o.dispatched <= Sent(o, line).dispatched
  {
    var o' := o.(batch := o.batch + [line]);
    assert o'.Contents() == o.Contents() + [line];
    if |o'.batch| >= o.limit {
      FlushKeeps(o', true);
    }
  }

  /** Batch partition: for every interleaving of sends and flushes, the dispatched batches followed by
      the current batch are the accepted lines in lock order, and the sizes are as promised. */
  lemma {:induction false} BatchesPartition(o: Outbox, ops: seq<Op>)
    requires o.Valid()
    ensures Run(o, ops).Valid()
    ensures Run(o, ops).Contents() == o.Contents() + PutLines(ops)
    ensures o.dispatched <= Run(o, ops).dispatched
    decreases |ops|
  {
    if ops == [] {
      assert o.Contents() + [] == o.Contents();
    } else {
      OpKeeps(o, ops[0]);
      BatchesPartition(After(o, ops[0]), ops[1..]);
      PutFirst(o.Contents(), ops);
      hide BatchLines, After, PutLines, Outbox.Valid, Outbox.Contents;
    }
  }

  lemma PutFirst(before: seq<string>, ops: seq<Op>)
    requires ops != []
    ensures (before + Given(ops[0])) + PutLines(ops[1..]) == before + PutLines(ops)
  {
  }

  lemma OpKeeps(o: Outbox, op: Op)
    requires o.Valid()
    ensures After(o, op).Valid()
    ensures After(o, op).Contents() == o.Contents() + Given(op)
    ensures o.dispatched <= After(o, op).dispatched
  {
    hide BatchLines, Sent, Flushed;
    match op {
      case Put(line) => SendKeeps(o, line);
      case Tick =>
        FlushKeeps(o, false);
        assert o.Contents() + [] == o.Contents();
    }
  }

  /** The sender's batch as the code keeps it: a slice of a backing array that is truncated in place and
      reused, and the copies that delivery goroutines hold. */
  class HTTPSender {
    const batchSize: nat
    const backing: array<string>
    var len: nat
    var inFlight: seq<array<string>>
    ghost var outbox: Outbox

    /** The fields agree with the abstract outbox; in particular every copy handed out still holds
        the lines it was dispatched with. */
    ghost predicate Consistent()
      reads this, backing, inFlight
    {
      && 1 <= batchSize == backing.Length && len <= batchSize
      && outbox.limit == batchSize && outbox.batch == backing[..len]
      && |inFlight| == |outbox.dispatched|
      && (forall i :: 0 <= i < |inFlight| ==> inFlight[i] != backing)
      && (forall i :: 0 <= i < |inFlight| ==> inFlight[i][..] == outbox.dispatched[i].lines)
    }

    ghost predicate Valid()
      reads this, backing, inFlight
    {
      Consistent() && outbox.Valid()
    }

    /** `NewHTTPSender`: a non-positive batch size becomes 1. */
    constructor (size: int)
      ensures Valid() && fresh(backing) && inFlight == []
      ensures batchSize == if size <= 0 then 1 else size
      ensures outbox == Outbox(batchSize, [], [])
    {
      var limit: nat := if size <= 0 then 1 else size;
      batchSize := limit;
      backing := new string[limit](_ => "");
      len, inFlight, outbox := 0, [], Outbox(limit, [], []);
    }

    /** `SendWithContext`, a locked section. */
    method Send(line: string)
      requires Valid()
      modifies this, backing
      ensures Valid() && outbox == Sent(old(outbox), line)
      ensures old(inFlight) <= inFlight && fresh(inFlight[|old(inFlight)|..])
      ensures forall i :: 0 <= i < |old(inFlight)| ==> inFlight[i][..] == old(inFlight[i][..])
    {
      SendKeeps(outbox, line);
      backing[len] := line;
      len := len + 1;
      outbox := outbox.(batch := outbox.batch + [line]);
      if len >= batchSize {
        FlushLocked(true);
      }
    }

    /** `flush`, called by the ticker and once more on the way out. */
    method Flush()
      requires Valid()
      modifies this
      ensures Valid() && outbox == Flushed(old(outbox), false)
      ensures old(inFlight) <= inFlight && fresh(inFlight[|old(inFlight)|..])
      ensures forall i :: 0 <= i < |old(inFlight)| ==> inFlight[i][..] == old(inFlight[i][..])
    {
      FlushKeeps(outbox, false);
      FlushLocked(false);
    }

    method FlushLocked(ghost bySend: bool)
      requires Consistent()
      modifies this
      ensures Consistent() && outbox == Flushed(old(outbox), bySend)
      ensures old(inFlight) <= inFlight && fresh(inFlight[|old(inFlight)|..])
      ensures forall i :: 0 <= i < |old(inFlight)| ==> inFlight[i][..] == old(inFlight[i][..])
    {
      if len == 0 {
        return;
      }
      var toSend := new string[len](i requires 0 <= i < len <= backing.Length reads this, backing => backing[i]);
      assert toSend[..] == backing[..len];
      outbox := Flushed(outbox, bySend);
      len := 0;
      inFlight := inFlight + [toSend];
    }
  }

  method Perform(sender: HTTPSender, op: Op)
    requires sender.Valid()
    modifies sender, sender.backing
    ensures sender.Valid() && sender.outbox == After(old(sender.outbox), op)
  {
    match op {
      case Put(line) => sender.Send(line);
      case Tick => sender.Flush();
    }
  }

  /** Drives the array-based sender through any interleaving of sends and flushes and reads all handed-out
      copies only at the end: each still holds the batch it was dispatched with. */
  method Replay(size: int, ops: seq<Op>) returns (sent: seq<seq<string>>, batch: seq<string>)
    ensures var o := Run(Outbox(if size <= 0 then 1 else size, [], []), ops);
            && o.Valid() && o.Contents() == PutLines(ops)
            && |sent| == |o.dispatched| && (forall i :: 0 <= i < |sent| ==> sent[i] == o.dispatched[i].lines)
            && batch == o.batch
  {
    var sender := new HTTPSender(size);
    BatchesPartition(sender.outbox, ops);
    ghost var all := Run(sender.outbox, ops);
    var i := 0;
    while i < |ops|
      invariant i <= |ops| && sender.Valid() && fresh(sender) && fresh(sender.backing)
      invariant Run(sender.outbox, ops[i..]) == all
    {
      assert ops[i..][0] == ops[i] && ops[i..][1..] == ops[i + 1..];
      assert Run(After(sender.outbox, ops[i]), ops[i + 1..]) == all;
      hide Run, PutLines, Outbox.Valid, Outbox.Contents;
      Perform(sender, ops[i]);
      i := i + 1;
    }
    sent := [];
    while |sent| < |sender.inFlight|
      invariant |sent| <= |sender.inFlight|
      invariant forall j :: 0 <= j < |sent| ==> sent[j] == sender.outbox.dispatched[j].lines
    {
      sent := sent + [sender.inFlight[|sent|][..]];
    }
    batch := sender.backing[..sender.len];
  }
}
