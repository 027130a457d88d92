/** Bounded retention of a process output stream: rust/src/capture.rs, and its use in front of the pipe. */
module Capture {
  import opened Bytes
  import opened Pipe
  import PipeBytes

  /** What `snapshot` returns. */
  datatype Captured = Captured(bytes: seq<Byte>, truncated: bool)

  /** One `retain` of a capture with the given limit. */
  function Retained(limit: nat, c: Captured, chunk: seq<Byte>): Captured {
    var amount := Min(Max(limit - |c.bytes|, 0), |chunk|);
    Captured(c.bytes + chunk[..amount], c.truncated || amount < |chunk|)
  }

  function RetainAll(limit: nat, chunks: seq<seq<Byte>>): Captured {
    if chunks == [] then Captured([], false)
    else Retained(limit, RetainAll(limit, chunks[..|chunks| - 1]), chunks[|chunks| - 1])
  }

  /** The first `limit` bytes of a stream, and whether there were more. */
  function FirstBytes(limit: nat, stream: seq<Byte>): Captured {
    Captured(stream[..Min(limit, |stream|)], |stream| > limit)
  }

  /** However the stream was cut, the capture holds its first `limit` bytes and knows whether it holds them all. */
  lemma {:induction false} RetainsFirstBytes(limit: nat, chunks: seq<seq<Byte>>)
    ensures RetainAll(limit, chunks) == FirstBytes(limit, Concat(chunks))
  {
    if chunks != [] {
      var n := |chunks| - 1;
      RetainsFirstBytes(limit, chunks[..n]);
      assert chunks == chunks[..n] + [chunks[n]];
      ConcatSnoc(chunks[..n], chunks[n]);
    }
  }

  /** A `CaptureHandle`; clones share its fields. */
  class CaptureHandle {
    const limit: nat
    var bytes: seq<Byte>
    var truncated: bool

    constructor (limit: nat)
      ensures this.limit == limit && Snapshot() == RetainAll(limit, [])
    {
      this.limit := limit;
      bytes, truncated := [], false;
    }

    function Snapshot(): Captured
      reads this
    {
      Captured(bytes, truncated)
    }

    method Retain(chunk: seq<Byte>)
      modifies this
      ensures Snapshot() == Retained(limit, old(Snapshot()), chunk)
    {
      var available := if |bytes| < limit then limit - |bytes| else 0;
      var amount := if available < |chunk| then available else |chunk|;
      bytes := bytes + chunk[..amount];
      if amount < |chunk| {
        truncated := true;
      }
    }

    /** `RetainedOutput::poll_write`: only what the pipe accepted is retained. */
    method AfterWrite(written: Option<nat>, data: seq<Byte>)
      requires written.Some? ==> written.value <= |data|
      modifies this
      ensures Snapshot() == if written.Some? then Retained(limit, old(Snapshot()), data[..written.value]) else old(Snapshot())
    {
      if written.Some? {
        Retain(data[..written.value]);
      }
    }
  }

  /** In every run with one producer, its capture is the first `limit` bytes the pipe carried, whatever was read or closed meanwhile. */
  lemma CapturesThePipe(capacity: nat, schedule: seq<Action>, i: nat, limit: nat)
    requires i < |Run(capacity, schedule).writers|
    requires forall m | m in Run(capacity, schedule).sent && m.Data? :: m.from == i
    ensures RetainAll(limit, PipeBytes.TakenAll(PipeBytes.Told(capacity, schedule, i)))
         == FirstBytes(limit, PipeBytes.Payload(Run(capacity, schedule).sent))
  {
    RetainsFirstBytes(limit, PipeBytes.TakenAll(PipeBytes.Told(capacity, schedule, i)));
    PipeBytes.SingleProducer(capacity, schedule, i);
  }

  /** And when the producer goes on with the rest of its text after every short write, it is the first bytes of what it has written of that. */
  lemma CapturesTheText(capacity: nat, schedule: seq<Action>, i: nat, limit: nat, text: seq<Byte>)
    requires i < |Run(capacity, schedule).writers|
    requires forall m | m in Run(capacity, schedule).sent && m.Data? :: m.from == i
    requires PipeBytes.Rewrites(text, PipeBytes.Told(capacity, schedule, i))
    ensures var n := PipeBytes.Written(PipeBytes.Told(capacity, schedule, i));
      n <= |text| && RetainAll(limit, PipeBytes.TakenAll(PipeBytes.Told(capacity, schedule, i))) == FirstBytes(limit, text[..n])
  {
    CapturesThePipe(capacity, schedule, i, limit);
    PipeBytes.TextGoesThrough(capacity, schedule, i, text);
  }
}
