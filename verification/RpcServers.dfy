/**
 * RpcServer as the object it is (code/rpc/rpc_server.cc): what the loop thread does with
 * one readable event's worth of requests, with no other thread between two of them.
 */
module RpcServers {
  import opened Basics
  import opened WireFormat
  import opened Envelope
  import opened ByteBuffer
  import opened Codec
  import opened TcpConnections
  import opened RpcCodec
  import opened ThreadPools
  import Pools = ThreadPools
  import opened ServerProtocol

  /** What the request loop works on: the pool behind its mutex, and what it sends on this connection. */
  datatype Front = Front(pool: Core<Job>, maxQueue: nat, stopped: bool, sent: seq<RpcResponse>)

  /** One turn of the request loop: the gate, then the pool. */
  function Handled(f: Front, job: Job): Front {
    if f.stopped then f.(sent := f.sent + [ShuttingDown(job.request.requestId)])
    else
      var (after, r) := Submitted(f.pool, job, f.maxQueue);
      if r == Accepted then f.(pool := after) else f.(sent := f.sent + [Busy(job.request.requestId)])
  }

  function HandledAll(f: Front, conn: Conn, msgs: seq<RpcRequest>): Front {
    if msgs == [] then f
    else Handled(HandledAll(f, conn, msgs[..|msgs| - 1]), Job(conn, msgs[|msgs| - 1]))
  }

  lemma HandledNone(f: Front, conn: Conn)
    ensures HandledAll(f, conn, []) == f
  {
  }

  lemma HandledNext(f: Front, conn: Conn, msgs: seq<RpcRequest>, m: RpcRequest)
    ensures HandledAll(f, conn, msgs + [m]) == Handled(HandledAll(f, conn, msgs), Job(conn, m))
  {
    assert (msgs + [m])[..|msgs|] == msgs;
  }

  class RpcServer {
    const pool: Pools.Pool<Job>
    const utf8: Utf8
    var stopped: bool
    /** Responses the loop thread sends itself, encoded or not. */
    ghost var sent: seq<RpcResponse>

    ghost function State(): Front
      reads this, pool
    {
      Front(pool.State(), pool.maxQueueSize, stopped, sent)
    }

    constructor (maxQueueSize: nat, utf8: Utf8)
      ensures fresh(pool) && this.utf8 == utf8
      ensures State() == Front(Core([], 0, false), maxQueueSize, false, [])
    {
      var p := new Pools.Pool<Job>(maxQueueSize);
      pool := p;
      this.utf8 := utf8;
      stopped, sent := false, [];
    }

    method HandleRequest(conn: Conn, request: RpcRequest)
      modifies this`sent, pool`tasks
      ensures State() == Handled(old(State()), Job(conn, request))
    {
      if stopped {
        sent := sent + [ShuttingDown(request.requestId)];
        return;
      }
      var ok := pool.TryAddTask(Job(conn, request));
      if !ok {
        sent := sent + [Busy(request.requestId)];
      }
    }

    /** `corrupt`: the loop met a corrupt frame, and the connection is closed. */
    method OnMessage(conn: Conn, buffer: Buffer) returns (corrupt: bool)
      requires buffer.Valid()
      modifies this`sent, pool`tasks, buffer`readPos, buffer`writePos
      ensures buffer.Valid()
      ensures var whole := DecodeAll(RequestParser(utf8), old(buffer.Contents()));
        && State() == HandledAll(old(State()), conn, whole.msgs)
        && buffer.Contents() == whole.rest
        && corrupt == whole.corrupt
    {
      hide Handled, HandledAll, Decode, DecodeAll;
      ghost var done: seq<RpcRequest> := [];
      HandledNone(State(), conn);
      var parse := RequestParser(utf8);
      while buffer.ReadableBytes() >= 4
        invariant buffer.Valid()
        invariant State() == HandledAll(old(State()), conn, done)
        invariant var later := DecodeAll(parse, buffer.Contents());
          DecodeAll(parse, old(buffer.Contents())) == Stream(done + later.msgs, later.rest, later.corrupt)
        decreases |buffer.Contents()|
      {
        StreamStep(parse, done, buffer.Contents());
        var d := TakeFrame(buffer, parse);
        assert done + [] == done;
        if !d.Ok? {
          return d.Corrupted?;
        }
        HandleRequest(conn, d.msg);
        HandledNext(old(State()), conn, done, d.msg);
        done := done + [d.msg];
      }
      StreamStep(parse, done, buffer.Contents());
      assert done + [] == done;
      return false;
    }
  }

  // ---------------------------------------------------------------- what this does, said without state

  function Jobs(conn: Conn, msgs: seq<RpcRequest>): seq<Job> {
    seq(|msgs|, i requires 0 <= i < |msgs| => Job(conn, msgs[i]))
  }

  function Refusal(f: Front, m: RpcRequest): RpcResponse {
    if f.stopped then ShuttingDown(m.requestId) else Busy(m.requestId)
  }

  function Refusals(f: Front, msgs: seq<RpcRequest>): seq<RpcResponse> {
    seq(|msgs|, i requires 0 <= i < |msgs| => Refusal(f, msgs[i]))
  }

  /** How many requests of a burst find room. */
  function Room(f: Front, n: nat): nat {
    if f.stopped || f.pool.closed || |f.pool.tasks| >= f.maxQueue then 0
    else if n <= f.maxQueue - |f.pool.tasks| then n
    else f.maxQueue - |f.pool.tasks|
  }

  /** The first requests that fit are queued, the others refused. */
  function Split(f: Front, conn: Conn, msgs: seq<RpcRequest>): Front {
    var room := Room(f, |msgs|);
    f.(pool := f.pool.(tasks := f.pool.tasks + Jobs(conn, msgs[..room])), sent := f.sent + Refusals(f, msgs[room..]))
  }

  lemma OneMoreFits(f: Front, conn: Conn, msgs: seq<RpcRequest>, m: RpcRequest)
    requires Room(f, |msgs| + 1) == |msgs| + 1
    ensures Handled(Split(f, conn, msgs), Job(conn, m)) == Split(f, conn, msgs + [m])
  {
    var n := |msgs|;
    assert Room(f, n) == n && msgs[..n] == msgs && (msgs + [m])[..n + 1] == msgs + [m];
    assert msgs[n..] == [] && (msgs + [m])[n + 1..] == [];
    assert Jobs(conn, msgs + [m]) == Jobs(conn, msgs) + [Job(conn, m)];
  }

  lemma OneMoreRefused(f: Front, conn: Conn, msgs: seq<RpcRequest>, m: RpcRequest)
    requires Room(f, |msgs| + 1) != |msgs| + 1
    ensures Handled(Split(f, conn, msgs), Job(conn, m)) == Split(f, conn, msgs + [m])
  {
    var room := Room(f, |msgs|);
    assert Room(f, |msgs| + 1) == room;
    assert (msgs + [m])[..room] == msgs[..room] && (msgs + [m])[room..] == msgs[room..] + [m];
    RefusalsAppend(f, msgs[room..], m);
    hide Refusals, Jobs;
    assert f.sent + (Refusals(f, msgs[room..]) + [Refusal(f, m)]) == f.sent + Refusals(f, msgs[room..]) + [Refusal(f, m)];
  }

  lemma RefusalsAppend(f: Front, msgs: seq<RpcRequest>, m: RpcRequest)
    ensures Refusals(f, msgs + [m]) == Refusals(f, msgs) + [Refusal(f, m)]
  {
  }

  /**
   * A burst of requests with no worker in between: as many as fit are queued, in order, each once;
   * every other one is refused, in order, with its own id and the reason; none is dropped or both
   * queued and refused, and the queue stays within its bound.
   */
  lemma {:induction false} BurstSplits(f: Front, conn: Conn, msgs: seq<RpcRequest>)
    ensures HandledAll(f, conn, msgs) == Split(f, conn, msgs)
    ensures |f.pool.tasks| <= f.maxQueue ==> |HandledAll(f, conn, msgs).pool.tasks| <= f.maxQueue
  {
    if msgs == [] {
      assert f.pool.tasks + [] == f.pool.tasks && f.sent + [] == f.sent;
    } else {
      var front, m := msgs[..|msgs| - 1], msgs[|msgs| - 1];
      assert msgs == front + [m];
      BurstSplits(f, conn, front);
      hide Handled;
      if Room(f, |msgs|) == |msgs| { OneMoreFits(f, conn, front, m); } else { OneMoreRefused(f, conn, front, m); }
    }
  }

  // ---------------------------------------------------------------- the same steps in the protocol

  /** The object's queue holds the jobs of the protocol's queued tasks. */
  ghost predicate FrontOf(f: Front, s: ServerState) {
    && f.pool.closed == s.pool.core.closed && f.maxQueue == s.pool.maxQueue && f.stopped == s.stopped
    && |f.pool.tasks| == |s.pool.core.tasks| && |s.pool.accepted| == |s.jobs|
    && forall i | 0 <= i < |f.pool.tasks| ::
        s.pool.core.tasks[i] < |s.jobs| && f.pool.tasks[i] == s.jobs[s.pool.core.tasks[i]]
  }

  lemma GateAgrees(f: Front, s: ServerState, job: Job)
    requires FrontOf(f, s) && Enabled(s, Receive(job)) && s.stopped
    ensures FrontOf(Handled(f, job), Next(s, Receive(job)))
    ensures Emitted(s, Receive(job)) == To(job.conn, Handled(f, job).sent[|f.sent|])
    ensures Handled(f, job).sent[..|f.sent|] == f.sent
  {
    hide Ascii;
  }

  lemma PassesGate(f: Front, s: ServerState, job: Job)
    requires FrontOf(f, s) && Enabled(s, Receive(job)) && !s.stopped
    ensures Emitted(s, Receive(job)) == Silence
    ensures FrontOf(f, Next(s, Receive(job))) && Next(s, Receive(job)).loop == PastGate(job) && !Next(s, Receive(job)).stopped
  {
    hide Ascii;
  }

  lemma PoolAgrees(f: Front, s: ServerState, job: Job)
    requires FrontOf(f, s) && s.loop == PastGate(job) && !f.stopped
    ensures FrontOf(Handled(f, job), Next(s, Submit))
    ensures if Handled(f, job).sent == f.sent then Emitted(s, Submit) == Silence
      else (
        && Handled(f, job).sent == f.sent + [Busy(job.request.requestId)]
        && Emitted(s, Submit) == To(job.conn, Busy(job.request.requestId)))
  {
    hide Ascii;
  }

  /** A request handled by the object is the protocol's gate and, past it, its submission, with the same refusal. */
  lemma HandledAgrees(f: Front, s: ServerState, job: Job)
    requires FrontOf(f, s) && Enabled(s, Receive(job))
    ensures var f', s1 := Handled(f, job), Next(s, Receive(job));
      if s.stopped then
        FrontOf(f', s1) && |f'.sent| == |f.sent| + 1 && Emitted(s, Receive(job)) == To(job.conn, f'.sent[|f.sent|])
      else
        && Emitted(s, Receive(job)) == Silence && Enabled(s1, Submit) && FrontOf(f', Next(s1, Submit))
        && (if |f'.sent| == |f.sent| then Emitted(s1, Submit) == Silence
            else |f'.sent| == |f.sent| + 1 && Emitted(s1, Submit) == To(job.conn, f'.sent[|f.sent|]))
  {
    if s.stopped {
      GateAgrees(f, s, job);
    } else {
      PassesGate(f, s, job);
      hide FrontOf, Ascii, Next, Emitted;
      PoolAgrees(f, Next(s, Receive(job)), job);
    }
  }
}
