/**
 * The module-level maps `ongoingProcesses` (job id to status) and
 * `ongoingSpawn` (job id to process handle) of
 * src/modules/stream/types.js, the events that update them, and the start
 * of a live-render job.
 */
module JobRegistry {
  import opened Wrappers
  import opened Lifecycle
  import opened Descriptor
  import opened Transcode
  import opened PoolGuard

  /**
   * A value stored in `ongoingProcesses`: either an object `{ status }` or,
   * on a zero exit, the bare string 'finished'.
   */
  datatype Entry = Record(status: string) | Bare(text: string)

  const PendingRecord := Record("pending")
  const FinishedRecord := Record("finished")

  /** What the pool's one-second poll makes of an entry. */
  datatype PollOutcome = Finished | NotFinished | TypeError

  /**
   * The poll as written, `ongoingProcesses.get(bid).status === 'finished'`:
   * a missing entry makes it read `.status` of `undefined`, which throws
   * inside the timer callback; a bare string has no `status`.
   */
  function PollEntryAsWritten(e: Option<Entry>): (r: PollOutcome)
    ensures r == TypeError <==> e.None?
    ensures r == Finished <==> e == Some(FinishedRecord)
  {
    match e
    case None => TypeError
    case Some(Record(s)) => if s == "finished" then Finished else NotFinished
    case Some(Bare(_)) => NotFinished
  }

  /** A bid without an entry (never started, or already delivered) throws. */
  lemma MissingEntryThrows()
    ensures PollEntryAsWritten(None) == TypeError
  {
  }

  /**
   * The poll corrected to treat a missing entry as "not finished"; it agrees
   * with the source wherever the source does not throw.
   */
  function PollEntry(e: Option<Entry>): (r: PollOutcome)
    ensures r != TypeError
    ensures r == Finished <==> e == Some(FinishedRecord)
    ensures e.Some? ==> r == PollEntryAsWritten(e)
  {
    if e.None? then NotFinished else PollEntryAsWritten(e)
  }

  /** What the pool's client-disconnect handler does. */
  datatype Disconnect = Disconnect(signals: seq<Signal>, removesFile: bool)

  /** What one poll tick does; `Throws` is the TypeError of the timer callback. */
  datatype Tick = Deliver | Wait | Throws

  class Registry {
    var processes: map<string, Entry>   // ongoingProcesses
    var spawns: map<string, Pid>        // ongoingSpawn

    /** Every job with a status has a process handle. */
    ghost predicate Valid()
      reads this
    {
      processes.Keys <= spawns.Keys
    }

    constructor ()
      ensures Valid() && processes == map[] && spawns == map[]
    {
      processes := map[];
      spawns := map[];
    }

    /** The poll of a job id as written: it throws for an id without an entry. */
    function PollAsWritten(id: string): (r: PollOutcome)
      reads this
      ensures r == TypeError <==> id !in processes
      ensures r == Finished <==> id in processes && processes[id] == FinishedRecord
    {
      PollEntryAsWritten(Get(processes, id))
    }

    /** The corrected poll of a job id: the as-written one, with "not finished" for a missing entry. */
    function Poll(id: string): (r: PollOutcome)
      reads this
      ensures r != TypeError
      ensures r == Finished <==> id in processes && processes[id] == FinishedRecord
      ensures id in processes ==> r == PollAsWritten(id)
    {
      PollEntry(Get(processes, id))
    }

    /** Lines 234-235: the spawned process and a pending status are registered. */
    method RegisterSpawn(id: string, pid: Pid)
      requires Valid()
      modifies this
      ensures Valid()
      ensures spawns == old(spawns)[id := pid]
      ensures processes == old(processes)[id := PendingRecord]
      ensures Poll(id) == NotFinished
    {
      spawns := spawns[id := pid];
      processes := processes[id := PendingRecord];
    }

    /** Lines 248-252: a process fault drops the status; the partial file is removed. */
    method ProcessErrored(id: string) returns (removesFile: bool)
      requires Valid()
      modifies this
      ensures Valid()
      ensures processes == old(processes) - {id} && spawns == old(spawns)
      ensures removesFile
    {
      processes := processes - {id};
      removesFile := true;
    }

    /**
     * Lines 254-266, the exit handler (`code` is `None` for an exit by
     * signal). A non-zero exit drops the status, answers 500 if nothing was
     * sent yet and removes the file; a zero exit stores the bare string
     * 'finished', which the poll does not recognise.
     */
    method ProcessExited(id: string, code: Option<int>, headersSent: bool)
      returns (reply: Option<Reply>, removesFile: bool)
      requires Valid() && id in spawns
      modifies this
      ensures Valid() && spawns == old(spawns)
      ensures code != Some(0) ==>
        && processes == old(processes) - {id}
        && removesFile
        && reply == (if headersSent then None
                     else Some(Reply(500, map["status" := "error", "text" := "process stopped."])))
      ensures code == Some(0) ==>
        && processes == old(processes)[id := Bare("finished")]
        && !removesFile && reply == None
        && Poll(id) == NotFinished
    {
      if code != Some(0) {
        processes := processes - {id};
        reply := if headersSent then None
                 else Some(Reply(500, map["status" := "error", "text" := "process stopped."]));
        removesFile := true;
      } else {
        processes := processes[id := Bare("finished")];
        reply := None;
        removesFile := false;
      }
    }

    /**
     * Lines 268-304, the close handler: with headers unsent the file is
     * streamed to the waiting client; otherwise the job is marked finished
     * so that a later poll can collect it.
     */
    method ProcessClosed(id: string, headersSent: bool) returns (deliver: bool)
      requires Valid() && id in spawns
      modifies this
      ensures Valid() && spawns == old(spawns)
      ensures deliver == !headersSent
      ensures headersSent ==> processes == old(processes)[id := FinishedRecord] && Poll(id) == Finished
      ensures !headersSent ==> processes == old(processes)
    {
      deliver := !headersSent;
      if headersSent {
        processes := processes[id := FinishedRecord];
      }
    }

    /** Lines 172-176 and 294-298: the read stream closed; the status is dropped and the file removed. */
    method ReadStreamClosed(id: string) returns (removesFile: bool)
      requires Valid()
      modifies this
      ensures Valid()
      ensures processes == old(processes) - {id} && spawns == old(spawns)
      ensures removesFile
      ensures Poll(id) == NotFinished
      ensures PollAsWritten(id) == TypeError
    {
      processes := processes - {id};
      removesFile := true;
    }

    /**
     * Lines 134-140: a pool client that leaves before any headers were sent
     * kills the job's process (if one is registered) and removes the file.
     */
    function PoolClientClosed(bid: string, headersSent: bool, exitCodeAtDeadline: Option<int>): (d: Disconnect)
      reads this
      ensures headersSent ==> d == Disconnect([], false)
      ensures !headersSent ==> d.removesFile
      ensures !headersSent ==> (d.signals != [] <==> bid in spawns)
      ensures !headersSent && bid in spawns ==> d.signals[0] == SIGTERM
      ensures !headersSent ==> d.signals == KillProcess(Get(spawns, bid), exitCodeAtDeadline)
      ensures Valid() && !headersSent && bid in processes ==> d.signals != []
    {
      if headersSent then Disconnect([], false)
      else Disconnect(KillProcess(Get(spawns, bid), exitCodeAtDeadline), true)
    }

    /**
     * Lines 143-183 as written: one poll tick throws for a bid without an
     * entry, and otherwise delivers once the job is finished and its file
     * exists.
     */
    function PoolTickAsWritten(bid: string, fileExists: bool): (t: Tick)
      reads this
      ensures t == Throws <==> bid !in processes
      ensures t == Deliver <==> bid in processes && processes[bid] == FinishedRecord && fileExists
    {
      match PollAsWritten(bid)
      case TypeError => Throws
      case Finished => if fileExists then Deliver else Wait
      case NotFinished => Wait
    }

    /**
     * The tick on the corrected poll: it never throws, and it agrees with
     * the tick as written wherever that one does not throw.
     */
    function PoolTick(bid: string, fileExists: bool): (t: Tick)
      reads this
      ensures t != Throws
      ensures t == Deliver <==> bid in processes && processes[bid] == FinishedRecord && fileExists
      ensures bid in processes ==> t == PoolTickAsWritten(bid, fileExists)
    {
      if Poll(bid) == Finished && fileExists then Deliver else Wait
    }
  }

  /**
   * A render job's pending status is never collected by a poll until its
   * process closes after headers went out.
   */
  method RenderJobLifecycle(id: string, pid: Pid) returns (before: PollOutcome, afterExit: PollOutcome, afterClose: PollOutcome)
    ensures before == NotFinished && afterExit == NotFinished && afterClose == Finished
  {
    var reg := new Registry();
    reg.RegisterSpawn(id, pid);
    before := reg.Poll(id);
    var reply, removes := reg.ProcessExited(id, Some(0), true);
    afterExit := reg.Poll(id);
    var deliver := reg.ProcessClosed(id, true);
    afterClose := reg.Poll(id);
  }

  /** How `streamLiveRender` starts. */
  datatype RenderStart =
    | NoRequest(response: Response)          // `res.sendStatus(500)`
    | WrongTrackCount(response: Response)    // `shutdown()`
    | Spawned(args: seq<string>, outputPath: string)

  /**
   * Lines 197-235: without a request, answer 500; without exactly two
   * tracks (or with no `urls` at all, whose `.length` throws into the same
   * shutdown), shut down; otherwise build the arguments, spawn, and
   * register the job. `hashId` is the digest of a random nonce and the
   * file name, and `pid` the handle `spawn` returns; both are inputs.
   */
  method StartLiveRender(reg: Registry, info: StreamInfo, hasRequest: bool, hashId: string, pid: Pid,
                         threads: string, table: ArgTable, metaArgs: MetadataArgs)
    returns (r: RenderStart)
    requires reg.Valid()
    modifies reg
    ensures reg.Valid()
    ensures !hasRequest ==> r == NoRequest(Response(true, [500], false))
    ensures hasRequest && UrlsLength(info.urls) != Some(2) ==> r == WrongTrackCount(CloseResponse(Unsent))
    ensures r.Spawned? <==> hasRequest && UrlsLength(info.urls) == Some(2)
    ensures r.Spawned? ==>
      && UrlsLength(info.urls) == Some(2)
      && r.outputPath == "./tmp/" + hashId + ".mp4"
      && r.args == LiveRenderArgs(info, threads, table, metaArgs, r.outputPath)
      && reg.spawns == old(reg.spawns)[hashId := pid]
      && reg.processes == old(reg.processes)[hashId := PendingRecord]
    ensures !r.Spawned? ==> reg.spawns == old(reg.spawns) && reg.processes == old(reg.processes)
  {
    if !hasRequest {
      return NoRequest(Response(true, [500], false));
    }
    var outputPath := "./tmp/" + hashId + ".mp4";
    if UrlsLength(info.urls) != Some(2) {
      // shutdown(): no outbound request to abort, `killProcess(undefined)` sends nothing
      return WrongTrackCount(CloseResponse(Unsent));
    }
    var args := BuildLiveRenderArgs(info, threads, table, metaArgs, outputPath);
    reg.RegisterSpawn(hashId, pid);
    r := Spawned(args, outputPath);
  }

  /**
   * Lines 244-246: the render job's 25-second timer answers 202 with the
   * generated id; unlike the pool's timer it does not look at
   * `headersSent` (the close handler clears it). Its reply is the pool's
   * pending reply for the same id, so a client can re-poll with it.
   */
  function RenderTimeout(hashId: string): (r: Reply)
    ensures PoolTimeout(false, hashId) == Some(r)
  {
    Reply(202, map["status" := "pending", "bid" := hashId])
  }

  /**
   * Lines 237-242: a render client leaving before headers went out runs
   * `shutdown`: the process is killed and the response closed. The status
   * entry and the file are left to the exit handler.
   */
  function RenderClientClosed(pid: Pid, exitCodeAtDeadline: Option<int>, res: Response)
    : (r: (seq<Signal>, Response))
    ensures res.headersSent ==> r == ([], res)
    ensures !res.headersSent ==> |r.0| >= 1 && r.0[0] == SIGTERM && r.1 == CloseResponse(res)
    ensures !res.headersSent ==> (SIGKILL in r.0 <==> exitCodeAtDeadline.None?)
    ensures !res.headersSent ==> r.1.destroyed && r.1.statuses == res.statuses + [500]
    ensures !res.headersSent ==> r.0 == KillProcess(Some(pid), exitCodeAtDeadline)
  {
    if res.headersSent then ([], res)
    else (KillProcess(Some(pid), exitCodeAtDeadline), CloseResponse(res))
  }
}
