/**
 The two readers that turn a channel of chunks back into a byte stream, and the store that
 consumes one: what comes out is what was sent, end of file means all of it, and a failed
 reader leaves the destination alone.
 */
module ChannelReaders {
  import opened Wrappers
  import opened Codecs

  type ByteMsg = Result<Bytes, string>

  /** One answer of a reader: bytes, end of file, the sender's error, or nothing yet. */
  datatype Answer = Got(data: Bytes) | Eof | Failed(error: string) | Waiting

  /** The chunk being handed out, the messages queued, and whether more may be sent. */
  datatype Channel = Channel(pending: Bytes, queue: seq<ByteMsg>, open: bool)

  function DataOf(queue: seq<ByteMsg>): Bytes {
    if queue == [] then [] else (if queue[0].Ok? then queue[0].value else []) + DataOf(queue[1..])
  }

  lemma NoData()
    ensures DataOf([]) == []
  {
  }

  predicate Clean(queue: seq<ByteMsg>) {
    forall i :: 0 <= i < |queue| ==> queue[i].Ok?
  }

  lemma {:induction false} DataOfAppend(a: seq<ByteMsg>, b: seq<ByteMsg>)
    ensures DataOf(a + b) == DataOf(a) + DataOf(b)
  {
    if a == [] {
      assert a + b == b;
    } else {
      assert (a + b)[1..] == a[1..] + b;
      DataOfAppend(a[1..], b);
    }
  }

  lemma CleanAppend(a: seq<ByteMsg>, b: seq<ByteMsg>)
    ensures Clean(a + b) <==> Clean(a) && Clean(b)
  {
    if Clean(a + b) {
      assert forall i :: 0 <= i < |a| ==> a[i] == (a + b)[i];
      assert forall i :: 0 <= i < |b| ==> b[i] == (a + b)[|a| + i];
    }
  }

  lemma CleanSmall(msg: ByteMsg)
    ensures Clean([]) && (Clean([msg]) <==> msg.Ok?)
  {
    assert [msg][0] == msg;
  }

  /** How many chunks a read takes in: empty ones are passed over. */
  function ReadFrom(c: Channel, capacity: nat): (r: (Answer, Channel))
    decreases |c.queue|
  {
    if capacity == 0 then (Got([]), c)
    else if c.pending != [] then
      var n := if capacity < |c.pending| then capacity else |c.pending|;
      (Got(c.pending[..n]), c.(pending := c.pending[n..]))
    else if c.queue == [] then (if c.open then Waiting else Eof, c)
    else
      match c.queue[0]
      case Ok(data) => ReadFrom(c.(pending := data, queue := c.queue[1..]), capacity)
      case Err(error) => (Failed(error), c.(queue := c.queue[1..]))
  }

  /** A read without capacity takes nothing; one with capacity delivers, or says why it cannot. */
  lemma {:induction false} ReadIsExact(c: Channel, capacity: nat)
    ensures var (answer, after) := ReadFrom(c, capacity);
            && after.open == c.open
            && (capacity == 0 ==> answer == Got([]) && after == c)
            && (Clean(c.queue) ==> Clean(after.queue))
            && match answer
               case Got(data) =>
                 && |data| <= capacity && (capacity > 0 ==> data != [])
                 && data + after.pending + DataOf(after.queue) == c.pending + DataOf(c.queue)
                 && (Clean(after.queue) ==> Clean(c.queue))
               case Eof => c.pending + DataOf(c.queue) == [] && Clean(c.queue) && !c.open && after.queue == [] && after.pending == []
               case Failed(_) => c.pending == [] && !Clean(c.queue)
               case Waiting => c.pending + DataOf(c.queue) == [] && Clean(c.queue) && c.open && after.queue == [] && after.pending == []
    decreases |c.queue|
  {
    if capacity == 0 {
    } else if c.pending != [] {
      var n := if capacity < |c.pending| then capacity else |c.pending|;
      assert c.pending[..n] + c.pending[n..] == c.pending;
    } else if c.queue != [] {
      assert c.queue == [c.queue[0]] + c.queue[1..];
      if c.queue[0].Ok? {
        ReadIsExact(c.(pending := c.queue[0].value, queue := c.queue[1..]), capacity);
      }
    }
  }

  /** An error is the first message behind the chunk at hand and empty ones, and is met once. */
  lemma {:induction false} ErrorIsNext(c: Channel, capacity: nat) returns (i: nat)
    requires ReadFrom(c, capacity).0.Failed?
    ensures var (answer, after) := ReadFrom(c, capacity);
            && i < |c.queue| && c.queue[i] == Err(answer.error) && after.queue == c.queue[i + 1..]
            && forall j :: 0 <= j < i ==> c.queue[j] == Ok([])
    decreases |c.queue|
  {
    if c.queue[0].Ok? {
      var rest := c.queue[1..];
      var k := ErrorIsNext(c.(pending := c.queue[0].value, queue := rest), capacity);
      i := k + 1;
      assert c.queue[0] == Ok([]);
      assert forall j :: 0 < j < i ==> c.queue[j] == rest[j - 1];
    } else {
      i := 0;
    }
  }

  // ----- Any interleaving of sends and reads -----

  datatype Op = Send(msg: ByteMsg) | Close | Read(capacity: nat)

  /** A session: what has been sent, and what the reader has been given. */
  datatype Session = Session(channel: Channel, sent: seq<ByteMsg>, delivered: Bytes, eof: bool, failed: bool)

  const FRESH: Session := Session(Channel([], [], true), [], [], false, false)

  function Apply(s: Session, op: Op): Session {
    match op
    case Send(msg) =>
      if s.channel.open then s.(channel := s.channel.(queue := s.channel.queue + [msg]), sent := s.sent + [msg]) else s
    case Close => s.(channel := s.channel.(open := false))
    case Read(capacity) =>
      var (answer, after) := ReadFrom(s.channel, capacity);
      var t := s.(channel := after);
      match answer
      case Got(data) => t.(delivered := s.delivered + data)
      case Eof => t.(eof := true)
      case Failed(_) => t.(failed := true)
      case Waiting => t
  }

  function ApplyAll(ops: seq<Op>): Session {
    if ops == [] then FRESH else Apply(ApplyAll(ops[..|ops| - 1]), ops[|ops| - 1])
  }

  predicate Conserves(s: Session) {
    && (!s.failed ==>
          && s.delivered + s.channel.pending + DataOf(s.channel.queue) == DataOf(s.sent)
          && (Clean(s.channel.queue) <==> Clean(s.sent)))
    && (s.eof && !s.failed ==> !s.channel.open && s.channel.queue == [] && s.channel.pending == [])
    && (s.failed ==> !Clean(s.sent))
  }

  lemma SendConserves(s: Session, msg: ByteMsg)
    requires Conserves(s)
    ensures Conserves(Apply(s, Send(msg)))
  {
    hide Clean, ReadFrom;
    DataOfAppend(s.sent, [msg]);
    DataOfAppend(s.channel.queue, [msg]);
    CleanSmall(msg);
    CleanAppend(s.sent, [msg]);
    CleanAppend(s.channel.queue, [msg]);
    var more, t := DataOf([msg]), Apply(s, Send(msg));
    assert s.delivered + s.channel.pending + (DataOf(s.channel.queue) + more)
        == s.delivered + s.channel.pending + DataOf(s.channel.queue) + more;
    if s.channel.open && !s.failed {
      assert DataOf(t.sent) == DataOf(s.sent) + more;
    }
  }

  lemma ReadConserves(s: Session, capacity: nat)
    requires Conserves(s)
    ensures Conserves(Apply(s, Read(capacity)))
  {
    hide DataOf, ReadFrom, Clean;
    ReadIsExact(s.channel, capacity);
    NoData();
    CleanSmall(Err(""));
    var (answer, after) := ReadFrom(s.channel, capacity);
    assert s.delivered + (s.channel.pending + DataOf(s.channel.queue)) == s.delivered + s.channel.pending + DataOf(s.channel.queue);
    if answer.Got? {
      assert s.delivered + (answer.data + after.pending + DataOf(after.queue))
          == s.delivered + answer.data + after.pending + DataOf(after.queue);
    }
  }

  lemma ApplyConserves(s: Session, op: Op)
    requires Conserves(s)
    ensures Conserves(Apply(s, op))
  {
    hide DataOf, ReadFrom, Clean;
    match op
    case Send(msg) => SendConserves(s, msg);
    case Close =>
    case Read(capacity) => ReadConserves(s, capacity);
  }

  lemma {:induction false} SessionsConserve(ops: seq<Op>)
    ensures Conserves(ApplyAll(ops))
  {
    if ops != [] {
      SessionsConserve(ops[..|ops| - 1]);
      ApplyConserves(ApplyAll(ops[..|ops| - 1]), ops[|ops| - 1]);
    }
  }

  /**
   However sends and reads interleave and whatever the capacities, the reader is given a prefix
   of what was sent; end of file without an error means every byte of it, and that no error was sent.
   And an error is met only if one was.
   */
  lemma EofMeansEverything(ops: seq<Op>)
    ensures var s := ApplyAll(ops);
            !s.failed ==> (s.delivered <= DataOf(s.sent) && (s.eof ==> s.delivered == DataOf(s.sent) && Clean(s.sent)))
    ensures ApplyAll(ops).failed ==> !Clean(ApplyAll(ops).sent)
  {
    SessionsConserve(ops);
    var s := ApplyAll(ops);
    if !s.failed {
      var rest := s.channel.pending + DataOf(s.channel.queue);
      assert DataOf(s.sent) == s.delivered + rest;
    }
  }

  // ----- The readers themselves -----

  /** The blocking reader: a receive waits, so `queue` is every message still to come. */
  class ChannelSyncRead {
    var pending: Bytes
    var queue: seq<ByteMsg>
    var transportError: Option<string>

    function View(): Channel
      reads this
    {
      Channel(pending, queue, false)
    }

    constructor (messages: seq<ByteMsg>)
      ensures View() == Channel([], messages, false) && transportError == None
    {
      pending, queue, transportError := [], messages, None;
    }

    method Read(buf: array<byte>) returns (n: Result<nat, string>)
      modifies this, buf
      ensures var (answer, after) := ReadFrom(old(View()), buf.Length);
              View() == after &&
              match answer
              case Got(data) =>
                n == Ok(|data|) && |data| <= buf.Length && buf[..|data|] == data && buf[|data|..] == old(buf[..])[|data|..]
              case Failed(error) => n == Err(error) && buf[..] == old(buf[..])
              case _ => n == Ok(0) && buf[..] == old(buf[..])
      ensures n.Err? ==> transportError == if old(transportError).Some? then old(transportError) else Some(n.error)
      ensures n.Ok? ==> transportError == old(transportError)
    {
      if buf.Length == 0 {
        return Ok(0);
      }
      while true
        invariant ReadFrom(View(), buf.Length) == ReadFrom(old(View()), buf.Length)
        invariant buf[..] == old(buf[..]) && transportError == old(transportError)
        decreases |queue|
      {
        if pending != [] {
          var k := if buf.Length < |pending| then buf.Length else |pending|;
          var chunk := pending[..k];
          pending := pending[k..];
          forall i | 0 <= i < k {
            buf[i] := chunk[i];
          }
          return Ok(k);
        }
        if queue == [] {
          return Ok(0);
        }
        var msg := queue[0];
        queue := queue[1..];
        match msg
        case Ok(data) => pending := data;
        case Err(error) =>
          transportError := if transportError.None? then Some(error) else transportError;
          return Err(error);
      }
    }
  }

  /** The polled reader: a receive on an empty open channel is pending. */
  class ChannelAsyncRead {
    var pending: Bytes
    var queue: seq<ByteMsg>
    var open: bool

    function View(): Channel
      reads this
    {
      Channel(pending, queue, open)
    }

    constructor ()
      ensures View() == Channel([], [], true)
    {
      pending, queue, open := [], [], true;
    }

    /** The sender's side. */
    method Arrive(msg: ByteMsg)
      modifies this
      ensures View() == old(View()).(queue := old(queue) + [msg])
    {
      queue := queue + [msg];
    }

    method SenderDropped()
      modifies this
      ensures View() == old(View()).(open := false)
    {
      open := false;
    }

    method PollRead(capacity: nat) returns (answer: Answer)
      modifies this
      ensures (answer, View()) == ReadFrom(old(View()), capacity)
    {
      if capacity == 0 {
        return Got([]);
      }
      while true
        invariant ReadFrom(View(), capacity) == ReadFrom(old(View()), capacity)
        decreases |queue|
      {
        if pending != [] {
          var k := if capacity < |pending| then capacity else |pending|;
          var chunk := pending[..k];
          pending := pending[k..];
          return Got(chunk);
        }
        if queue == [] {
          return if open then Waiting else Eof;
        }
        var msg := queue[0];
        queue := queue[1..];
        match msg
        case Ok(data) => pending := data;
        case Err(error) => return Failed(error);
      }
    }
  }

  // ----- The store's contract, as the in-memory store shows it -----

  /** One poll, seen with what the sender still has to send. */
  lemma PollIsExact(before: Channel, later: seq<ByteMsg>, capacity: nat)
    requires capacity > 0
    ensures var (answer, after) := ReadFrom(before, capacity);
            && after.open == before.open
            && match answer
               case Got(data) =>
                 && data != [] && data + (after.pending + DataOf(after.queue + later)) == before.pending + DataOf(before.queue + later)
                 && (Clean(after.queue + later) <==> Clean(before.queue + later))
               case Failed(_) => !Clean(before.queue + later)
               case _ =>
                 && after.pending == [] && after.queue == [] && Clean(before.queue)
                 && before.pending + DataOf(before.queue + later) == DataOf(later)
                 && (answer.Waiting? <==> before.open)
  {
    hide ReadFrom, Clean;
    ReadIsExact(before, capacity);
    var (answer, after) := ReadFrom(before, capacity);
    DataOfAppend(before.queue, later);
    DataOfAppend(after.queue, later);
    CleanAppend(before.queue, later);
    CleanAppend(after.queue, later);
    CleanSmall(Err(""));
    assert before.pending + DataOf(before.queue + later) == (before.pending + DataOf(before.queue)) + DataOf(later);
    if answer.Got? {
      assert answer.data + (after.pending + DataOf(after.queue + later))
          == (answer.data + after.pending + DataOf(after.queue)) + DataOf(later);
    }
  }

  const READ_CHUNK: nat := 64 * 1024

  class InMemoryStore {
    var objects: map<(string, string), Bytes>
    var putStreamProgress: nat

    constructor ()
      ensures objects == map[] && putStreamProgress == 0
    {
      objects, putStreamProgress := map[], 0;
    }

    method Put(bucket: string, key: string, body: Bytes)
      modifies this`objects
      ensures objects == old(objects)[(bucket, key) := body]
    {
      objects := objects[(bucket, key) := body];
    }

    /**
     Reads the body to its end and commits it whole; a reader error changes no object. While a
     read is pending the sender acts: `future` is what it still sends before dropping its end.
     */
    method PutStream(bucket: string, key: string, body: ChannelAsyncRead, future: seq<ByteMsg>) returns (ok: bool)
      requires body.open && body.pending == []
      modifies this, body
      ensures ok <==> Clean(old(body.queue) + future)
      ensures objects == if ok then old(objects)[(bucket, key) := DataOf(old(body.queue) + future)] else old(objects)
      ensures ok ==> putStreamProgress == |DataOf(old(body.queue) + future)|
    {
      hide Clean, DataOf, ReadFrom;
      putStreamProgress := 0;
      var buf: Bytes := [];
      ghost var sent := body.queue + future;
      var later := future;
      while true
        invariant objects == old(objects) && putStreamProgress == |buf|
        invariant buf + (body.pending + DataOf(body.queue + later)) == DataOf(sent)
        invariant Clean(body.queue + later) <==> Clean(sent)
        invariant !body.open ==> later == []
        decreases |DataOf(sent)| - |buf|, |later|, if body.open then 1 else 0
      {
        PollIsExact(body.View(), later, READ_CHUNK);
        CleanAppend(body.queue, later);
        var answer := body.PollRead(READ_CHUNK);
        match answer
        case Got(data) =>
          assert buf + data + (body.pending + DataOf(body.queue + later)) == buf + (data + (body.pending + DataOf(body.queue + later)));
          buf := buf + data;
          putStreamProgress := putStreamProgress + |data|;
        case Eof =>
          CleanSmall(Err(""));
          assert DataOf([]) == [] by { NoData(); }
          assert buf + [] == buf;
          break;
        case Failed(_) =>
          return false;
        case Waiting =>
          assert [] + later == later && [] + DataOf(later) == DataOf(later);
          if later == [] {
            body.SenderDropped();
          } else {
            assert [] + [later[0]] + later[1..] == later;
            body.Arrive(later[0]);
            later := later[1..];
          }
      }
      objects := objects[(bucket, key) := buf];
      ok := true;
    }
  }
}
