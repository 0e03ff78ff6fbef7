/**
 * The dispatch controller of batchgen: a fixed pool of GPU workers, a
 * round-robin cursor over it, a table of client sessions with a five-minute
 * inactivity timeout, and the `/generate` endpoint that records the client
 * and forwards the job with one retry on the next worker.
 */
module BatchgenController {
  import opened Wrappers
  import opened Text

  /** Number of GPU workers launched at startup. */
  const NumGpus: nat := 4
  /** Worker i listens on port BasePort + i. */
  const BasePort: nat := 8001
  /** `generate` tries at most this many workers. */
  const MaxAttempts: nat := 2
  /** A session idle for more than this many seconds is pruned. */
  const SessionTimeout: int := 300
  /** The prune thread sleeps this many seconds between sweeps. */
  const SweepInterval: int := 60

  const UrlPrefix: string := "http://127.0.0.1:"
  const UrlSuffix: string := "/generate"

  /** A launched worker record; the process handle is not modelled. */
  datatype Worker = Worker(gpu: nat, port: nat, url: string)

  /** Reply of a worker to one attempt: a parsed JSON body, or any exception. */
  datatype Outcome = Ok(body: string) | Fail

  datatype Body = WorkerReply(json: string) | ErrorReply(error: string)

  /** An HTTP response of the controller: status code and JSON body. */
  datatype Response = Response(status: nat, body: Body)

  /** 500 Internal Server Error (section 15.6.1 of RFC 9110) after every attempt failed. */
  const AllFailed: Response := Response(500, ErrorReply("All workers failed"))

  // ---------------------------------------------------------------------
  // Worker registry

  function WorkerUrl(port: nat): (url: string)
  {
    UrlPrefix + DecimalString(port) + UrlSuffix
  }

  /** The port number read back out of a worker url. */
  function UrlPort(url: string): (port: nat)
  {
    if |url| < |UrlPrefix| + |UrlSuffix| then 0
    else ParseDecimal(url[|UrlPrefix|..|url| - |UrlSuffix|])
  }

  lemma UrlPortOfWorkerUrl(port: nat)
    ensures UrlPort(WorkerUrl(port)) == port
  {
    var url := WorkerUrl(port);
    assert url[|UrlPrefix|..|url| - |UrlSuffix|] == DecimalString(port);
    ParseDecimalString(port);
  }

  /** The record `launch_worker(i, port)` returns, without its process. */
  function LaunchWorker(i: nat, port: nat): (w: Worker)
  {
    Worker(i, port, WorkerUrl(port))
  }

  /** `PORTS = [8001 + i for i in range(NUM_GPUS)]`. */
  function Ports(): (ports: seq<nat>)
  {
    seq(NumGpus, i => BasePort + i)
  }

  /** `WORKERS`: one launched worker per entry of `PORTS`, in the same order. */
  function LaunchedWorkers(): (ws: seq<Worker>)
  {
    seq(|Ports()|, i requires 0 <= i < |Ports()| => LaunchWorker(i, Ports()[i]))
  }

  /**
   * The pool has NumGpus workers; worker i runs on gpu i, port 8001 + i and
   * the url built from that port, and no two workers share a url.
   */
  lemma PoolShape()
    ensures |LaunchedWorkers()| == NumGpus
    ensures forall i :: 0 <= i < NumGpus ==> LaunchedWorkers()[i] == Worker(i, BasePort + i, WorkerUrl(BasePort + i))
    ensures forall i, j :: 0 <= i < j < NumGpus ==> LaunchedWorkers()[i].url != LaunchedWorkers()[j].url
  {
    var ws := LaunchedWorkers();
    forall i | 0 <= i < NumGpus ensures ws[i] == Worker(i, BasePort + i, WorkerUrl(BasePort + i)) {
      assert Ports()[i] == BasePort + i;
    }
    forall i, j | 0 <= i < j < NumGpus ensures ws[i].url != ws[j].url {
      UrlPortOfWorkerUrl(BasePort + i);
      UrlPortOfWorkerUrl(BasePort + j);
      assert UrlPort(ws[i].url) != UrlPort(ws[j].url);
    }
  }

  // ---------------------------------------------------------------------
  // Round-robin scheduler

  /** The cursor after one pick: `(next_worker + 1) % NUM_GPUS`. */
  function Advance(c: nat): (c': nat)
    ensures c' < NumGpus
  {
    (c + 1) % NumGpus
  }

  /** The cursor values read by `k` successive picks that start at cursor `c`. */
  function Cursors(c: nat, k: nat): (cs: seq<nat>)
    decreases k
  {
    if k == 0 then [] else [c] + Cursors(Advance(c), k - 1)
  }

  /** From cursor `c`, pick number i reads slot (c + i) mod NumGpus. */
  lemma {:induction false} CursorsRotate(c: nat, k: nat)
    requires c < NumGpus
    ensures |Cursors(c, k)| == k
    ensures forall i :: 0 <= i < k ==> Cursors(c, k)[i] == (c + i) % NumGpus
    decreases k
  {
    if k > 0 {
      CursorsRotate(Advance(c), k - 1);
      forall i | 0 <= i < k ensures Cursors(c, k)[i] == (c + i) % NumGpus {
        if i > 0 {
          assert Cursors(c, k)[i] == Cursors(Advance(c), k - 1)[i - 1];
          ModShift(c, i - 1);
        }
      }
    }
  }

  lemma ModShift(c: nat, j: nat)
    ensures ((c + 1) % NumGpus + j) % NumGpus == (c + 1 + j) % NumGpus
  {
  }

  /** From a fresh controller, k picks read slots 0, 1, 2, 3, 0, 1, ... */
  lemma CursorsFromStart(k: nat)
    ensures |Cursors(0, k)| == k
    ensures forall i :: 0 <= i < k ==> Cursors(0, k)[i] == i % NumGpus
  {
    CursorsRotate(0, k);
  }

  // ---------------------------------------------------------------------
  // Client session table

  /** Whether a session last seen at `lastSeen` is older than the timeout at `now`. */
  predicate Stale(lastSeen: int, now: int)
  {
    now - lastSeen > SessionTimeout
  }

  /** The table after one sweep of `prune_clients` at time `now`. */
  function Swept(m: map<string, int>, now: int): (m': map<string, int>)
  {
    map k | k in m && !Stale(m[k], now) :: m[k]
  }

  /** A sweep keeps exactly the sessions at most 300 seconds old, with their timestamps. */
  lemma SweptExactly(m: map<string, int>, now: int)
    ensures Swept(m, now).Keys <= m.Keys
    ensures forall k :: k in m ==> (k in Swept(m, now) <==> now - m[k] <= 300)
    ensures forall k :: k in Swept(m, now) ==> Swept(m, now)[k] == m[k]
  {
  }

  /** A second sweep at the same time removes nothing. */
  lemma SweepIdempotent(m: map<string, int>, now: int)
    ensures Swept(Swept(m, now), now) == Swept(m, now)
  {
  }

  /** The table after the sweeps at the given times, in order, with no request in between. */
  function SweepAll(m: map<string, int>, times: seq<int>): (m': map<string, int>)
  {
    if times == [] then m else SweepAll(Swept(m, times[0]), times[1..])
  }

  /** A session no sweep finds stale is still present, with its timestamp. */
  lemma {:induction false} SurvivesSweeps(m: map<string, int>, k: string, times: seq<int>)
    requires k in m
    requires forall j :: 0 <= j < |times| ==> !Stale(m[k], times[j])
    ensures k in SweepAll(m, times) && SweepAll(m, times)[k] == m[k]
  {
    if times != [] {
      SurvivesSweeps(Swept(m, times[0]), k, times[1..]);
    }
  }

  /** Sweeps never add a session. */
  lemma {:induction false} SweepAllShrinks(m: map<string, int>, times: seq<int>)
    ensures SweepAll(m, times).Keys <= m.Keys
  {
    if times != [] {
      SweepAllShrinks(Swept(m, times[0]), times[1..]);
    }
  }

  /** Once any sweep finds a session stale, it is gone for good. */
  lemma {:induction false} EvictedBySweeps(m: map<string, int>, k: string, times: seq<int>)
    requires k in m
    requires exists j :: 0 <= j < |times| && Stale(m[k], times[j])
    ensures k !in SweepAll(m, times)
  {
    if Stale(m[k], times[0]) {
      SweepAllShrinks(Swept(m, times[0]), times[1..]);
    } else {
      var j :| 0 <= j < |times| && Stale(m[k], times[j]);
      assert times[1..][j - 1] == times[j];
      EvictedBySweeps(Swept(m, times[0]), k, times[1..]);
    }
  }

  /** The times of `count` sweeps of the prune thread, the first at `start`. */
  function SweepTimes(start: int, count: nat): (times: seq<int>)
  {
    seq(count, j => start + SweepInterval * j)
  }

  /**
   * A session last seen at T and not seen again is still listed after every
   * sweep up to T + 299, and is gone once the sweeps have run up to
   * T + 300 + 60 + 1, provided the prune thread was running by T + 301.
   */
  lemma SessionLifetime(m: map<string, int>, k: string, start: int, count: nat)
    requires k in m && start <= m[k] + SessionTimeout + 1
    ensures start + SweepInterval * (count - 1) <= m[k] + SessionTimeout - 1 ==>
      k in SweepAll(m, SweepTimes(start, count))
    ensures start + SweepInterval * (count - 1) <= m[k] + SessionTimeout + SweepInterval + 1
              < start + SweepInterval * count ==>
      k !in SweepAll(m, SweepTimes(start, count))
  {
    var times := SweepTimes(start, count);
    if start + SweepInterval * (count - 1) <= m[k] + SessionTimeout - 1 {
      SurvivesSweeps(m, k, times);
    }
    if start + SweepInterval * (count - 1) <= m[k] + SessionTimeout + SweepInterval + 1
         < start + SweepInterval * count {
      assert Stale(m[k], times[count - 1]);
      EvictedBySweeps(m, k, times);
    }
  }

  // ---------------------------------------------------------------------
  // Dispatch with failover

  /** `request.headers.get("X-Client-ID", str(uuid4()))`. */
  function ClientId(header: Option<string>, freshId: string): (id: string)
  {
    header.GetOr(freshId)
  }

  /**
   * The failover loop from attempt `i` on, with the cursor at `c`: the
   * response and the workers tried, in order.
   */
  function DispatchFrom(workers: seq<Worker>, c: nat, outcomes: seq<Outcome>, i: nat): (r: (Response, seq<Worker>))
    requires |workers| == NumGpus && c < NumGpus
    requires i <= MaxAttempts && |outcomes| == MaxAttempts
    decreases MaxAttempts - i
    ensures |r.1| <= MaxAttempts - i
    ensures forall j :: 0 <= j < |r.1| ==> r.1[j] == workers[(c + j) % NumGpus]
    ensures forall j :: i <= j < i + |r.1| - 1 ==> outcomes[j] == Fail
    ensures r.0.status == 200 <==> |r.1| > 0 && outcomes[i + |r.1| - 1].Ok?
    ensures r.0.status == 200 ==> r.0 == Response(200, WorkerReply(outcomes[i + |r.1| - 1].body))
    ensures r.0.status != 200 ==> r.0 == AllFailed && i + |r.1| == MaxAttempts
  {
    if i == MaxAttempts then (AllFailed, [])
    else match outcomes[i]
      case Ok(b) => (Response(200, WorkerReply(b)), [workers[c]])
      case Fail =>
        var rest := DispatchFrom(workers, Advance(c), outcomes, i + 1);
        forall j | 0 <= j < |rest.1|
          ensures rest.1[j] == workers[(c + (j + 1)) % NumGpus]
        {
          ModShift(c, j);
        }
        (rest.0, [workers[c]] + rest.1)
  }

  /**
   * `generate`'s retry loop from cursor `c`: one or two attempts on
   * consecutive workers; the first successful reply is returned unchanged,
   * and the 500 error only when every attempt failed.
   */
  function Dispatch(workers: seq<Worker>, c: nat, outcomes: seq<Outcome>): (r: (Response, seq<Worker>))
    requires |workers| == NumGpus && c < NumGpus && |outcomes| == MaxAttempts
    ensures 1 <= |r.1| <= MaxAttempts
    ensures forall j :: 0 <= j < |r.1| ==> r.1[j] == workers[(c + j) % NumGpus]
    ensures |r.1| == 1 <==> outcomes[0].Ok?
    ensures outcomes[0].Ok? ==> r.0 == Response(200, WorkerReply(outcomes[0].body))
    ensures outcomes[0] == Fail && outcomes[1].Ok? ==> r.0 == Response(200, WorkerReply(outcomes[1].body))
    ensures outcomes[0] == Fail && outcomes[1] == Fail ==> r.0 == AllFailed
  {
    DispatchFrom(workers, c, outcomes, 0)
  }

  /** With the launched pool, a retry goes to the next gpu, never the one that failed. */
  lemma RetryMovesOn(c: nat, outcomes: seq<Outcome>)
    requires c < NumGpus && |outcomes| == MaxAttempts
    ensures var tried := Dispatch(LaunchedWorkers(), c, outcomes).1;
      (|tried| == 2 <==> outcomes[0] == Fail)
      && (|tried| == 2 ==> tried[0].gpu == c && tried[1].gpu == (c + 1) % NumGpus
                           && tried[0].gpu != tried[1].gpu && tried[0].url != tried[1].url)
  {
    PoolShape();
  }

  /** The controller's process-wide state: the pool, the cursor and the session table. */
  class Controller {
    var workers: seq<Worker>
    var next: nat
    var clients: map<string, int>

    /** The cursor is always a valid index into the pool. */
    ghost predicate Valid()
      reads this
    {
      |workers| == NumGpus && next < NumGpus
    }

    /** Startup: the launched workers, cursor 0, no clients. */
    constructor ()
      ensures Valid()
      ensures workers == LaunchedWorkers() && next == 0 && clients == map[]
    {
      workers := LaunchedWorkers();
      next := 0;
      clients := map[];
    }

    /** `get_next_worker`: the worker under the cursor; the cursor moves on by one. */
    method NextWorker() returns (w: Worker)
      requires Valid()
      modifies this`next
      ensures Valid()
      ensures w == workers[old(next)]
      ensures next == Advance(old(next))
    {
      w := workers[next];
      next := Advance(next);
    }

    /** `CLIENTS[client_id] = {"last_seen": now}`: insert or refresh one session. */
    method Touch(id: string, now: int)
      modifies this`clients
      ensures clients == old(clients)[id := now]
    {
      clients := clients[id := now];
    }

    /** One sweep of `prune_clients` at time `now`, over a snapshot of the keys. */
    method Prune(now: int)
      modifies this`clients
      ensures clients == Swept(old(clients), now)
    {
      ghost var start := clients;
      var pending := clients.Keys;
      while pending != {}
        invariant pending <= start.Keys
        invariant clients == map k | k in start && (k in pending || !Stale(start[k], now)) :: start[k]
        decreases pending
      {
        var k :| k in pending;
        pending := pending - {k};
        if Stale(clients[k], now) {
          clients := clients - {k};
        }
      }
    }

    /** `list_clients`: every client id with its last-seen time. */
    method Snapshot() returns (s: map<string, int>)
      ensures s.Keys == clients.Keys
      ensures forall k :: k in s ==> s[k] == clients[k]
    {
      s := map k | k in clients :: clients[k];
    }

    /**
     * `generate`: record the client, then try workers from the cursor on,
     * at most twice. Returns the response and the workers tried.
     */
    method Generate(header: Option<string>, freshId: string, now: int, outcomes: seq<Outcome>)
      returns (resp: Response, tried: seq<Worker>)
      requires Valid() && |outcomes| == MaxAttempts
      modifies this`next, this`clients
      ensures Valid() && workers == old(workers)
      ensures clients == old(clients)[ClientId(header, freshId) := now]
      ensures (resp, tried) == Dispatch(old(workers), old(next), outcomes)
      ensures next == (old(next) + |tried|) % NumGpus
    {
      Touch(ClientId(header, freshId), now);
      tried := [];
      assert [] + Dispatch(workers, next, outcomes).1 == Dispatch(workers, next, outcomes).1;
      var i := 0;
      while i < MaxAttempts
        invariant 0 <= i <= MaxAttempts && |tried| == i
        invariant Valid() && workers == old(workers)
        invariant clients == old(clients)[ClientId(header, freshId) := now]
        invariant next == (old(next) + i) % NumGpus
        invariant forall j :: 0 <= j < i ==> outcomes[j] == Fail
        invariant Dispatch(workers, old(next), outcomes)
               == (DispatchFrom(workers, next, outcomes, i).0, tried + DispatchFrom(workers, next, outcomes, i).1)
      {
        ghost var c := next;
        var w := NextWorker();
        tried := tried + [w];
        match outcomes[i]
        case Ok(b) =>
          resp := Response(200, WorkerReply(b));
          return;
        case Fail =>
          ghost var rest := DispatchFrom(workers, next, outcomes, i + 1);
          assert DispatchFrom(workers, c, outcomes, i) == (rest.0, [w] + rest.1);
          assert (tried[..i] + [w]) + rest.1 == tried[..i] + ([w] + rest.1);
          ModShift(old(next), i);
          i := i + 1;
      }
      assert tried + [] == tried;
      resp := AllFailed;
    }
  }

  /**
   * Three jobs in a row with gpu 1 down: job 1 is served by gpu 0, job 2
   * fails on gpu 1 and is served by gpu 2, and job 3 continues the rotation
   * at gpu 3.
   */
  method FailoverScenario()
  {
    var ctl := new Controller();
    var r1, t1 := ctl.Generate(Some("a"), "u1", 10, [Ok("img0"), Fail]);
    assert r1 == Response(200, WorkerReply("img0")) && t1 == [ctl.workers[0]];
    var r2, t2 := ctl.Generate(None, "u2", 20, [Fail, Ok("img2")]);
    assert r2 == Response(200, WorkerReply("img2")) && t2 == [ctl.workers[1], ctl.workers[2]];
    var r3, t3 := ctl.Generate(Some("a"), "u3", 30, [Ok("img3"), Ok("unused")]);
    assert t3 == [ctl.workers[3]] && ctl.next == 0;
    assert ctl.clients == map["a" := 30, "u2" := 20];
  }
}
