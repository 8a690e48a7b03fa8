/** Benchmark runs: the row store, the gateway keys, and the four operations of the
    runner (Launch, PollOnce, Cancel, Delete) over them.

    Every call into the store, the key service or the provider has its outcome passed
    in, so one step covers success and every failure. Calls are atomic. */
module Runs {
  import Text
  import opened Options

  // ----- Statuses

  datatype Status = Pending | Running | Completed | Failed | Cancelled

  function NormalizeStatus(vendor: string): Status
  {
    match vendor
    case "PENDING" => Pending
    case "COMPLETED" => Completed
    case "FAILED" => Failed
    case "TIMEOUT" => Failed
    case "CANCELLED" => Cancelled
    case _ => Running
  }

  predicate Settled(s: Status)
  {
    s.Completed? || s.Failed? || s.Cancelled?
  }

  // ----- The world

  /** A row of benchmark_runs. */
  datatype Run = Run(
    model: string,
    externalId: string,
    vkey: string,
    status: Status,
    externalStatus: string,
    avgScore: Option<real>,
    metrics: Option<string>,
    viewerUrl: string,
    error: string,
    completedAt: Option<int>)

  /** What one progress update writes. */
  datatype Progress = Progress(
    externalId: string,
    status: Status,
    externalStatus: string,
    avgScore: Option<real>,
    metrics: Option<string>,
    viewerUrl: string,
    error: string,
    completedAt: Option<int>)

  /** The rows and the live keys, with the history the claims are about.
      `order` lists the row ids by updated_at, oldest first. The last five fields record
      what has happened: keys whose revocation was refused, runs whose create call came
      back already settled, run ids handed to the drift observer, external ids the provider
      agreed to cancel, ids ever used. */
  datatype World = World(
    rows: map<string, Run>,
    order: seq<string>,
    live: set<string>,
    minted: set<string>,
    refused: set<string>,
    bornSettled: set<string>,
    observed: seq<string>,
    stopped: set<string>,
    used: set<string>)

  const EMPTY: World := World(map[], [], {}, {}, {}, {}, [], {}, {})

  function Without(ids: seq<string>, id: string): seq<string>
  {
    if ids == [] then []
    else if ids[0] == id then Without(ids[1..], id)
    else [ids[0]] + Without(ids[1..], id)
  }

  // ----- Store calls

  function Touched(w: World, id: string, row: Run): World
  {
    w.(rows := w.rows[id := row], order := Without(w.order, id) + [id])
  }

  function Create(w: World, id: string, row: Run): World
  {
    Touched(w, id, row).(used := w.used + {id})
  }

  function Or<T>(a: Option<T>, b: Option<T>): Option<T>
  {
    if a.Some? then a else b
  }

  function Applied(r: Run, p: Progress): Run
  {
    r.(externalId := if p.externalId == "" then r.externalId else p.externalId,
       status := p.status,
       externalStatus := p.externalStatus,
       avgScore := p.avgScore,
       metrics := Or(p.metrics, r.metrics),
       viewerUrl := if p.viewerUrl == "" then r.viewerUrl else p.viewerUrl,
       error := p.error,
       completedAt := Or(p.completedAt, r.completedAt))
  }

  function UpdateProgress(w: World, id: string, p: Progress, ok: bool): World
  {
    if ok && id in w.rows then Touched(w, id, Applied(w.rows[id], p)) else w
  }

  function ClearVKey(w: World, id: string, ok: bool): World
  {
    if ok && id in w.rows then Touched(w, id, w.rows[id].(vkey := "")) else w
  }

  function DeleteRow(w: World, id: string, ok: bool): World
  {
    if ok then w.(rows := w.rows - {id}, order := Without(w.order, id)) else w
  }

  // ----- Key calls

  function Mint(w: World, k: string): World
  {
    w.(live := w.live + {k}, minted := w.minted + {k})
  }

  /** Best effort: a refused revocation leaves the key live and is only logged. */
  function Revoke(w: World, k: string, ok: bool): World
  {
    if k == "" then w
    else if ok then w.(live := w.live - {k})
    else w.(refused := w.refused + {k})
  }

  // ----- Launch

  const MAX_TOTAL_SAMPLES: int := 2000

  datatype LaunchSpec = LaunchSpec(
    environments: seq<string>,
    model: string,
    numExamples: int,
    rollouts: int,
    timeoutMinutes: int,
    viaGateway: bool)

  /** Two's complement wrap-around of a 64-bit int. */
  function Wrap64(x: int): int
  {
    (x + 0x8000_0000_0000_0000) % 0x1_0000_0000_0000_0000 - 0x8000_0000_0000_0000
  }

  function TotalSamples(s: LaunchSpec): int
  {
    Wrap64(s.numExamples * s.rollouts)
  }

  predicate Validate(s: LaunchSpec)
  {
    && s.environments != []
    && "" !in s.environments
    && s.model != ""
    && s.numExamples >= 1
    && s.rollouts >= 1
    && TotalSamples(s) <= MAX_TOTAL_SAMPLES
    && (s.timeoutMinutes != 0 ==> 120 <= s.timeoutMinutes <= 1440)
  }

  /** The provider's answer to a create call. */
  datatype CreateReply =
    | Refused(evaluationId: string, message: string)
    | Started(evaluationId: string, vendorStatus: string, vendorError: string)

  /** token: None when the lookup failed, Some("") when no token is configured. */
  datatype LaunchEnv = LaunchEnv(
    token: Option<string>,
    teamOk: bool,
    runId: string,
    gatewayUrl: string,
    key: Option<string>,
    createOk: bool,
    reply: CreateReply,
    updateOk: bool,
    revokeOk: bool)

  predicate HasToken(token: Option<string>)
  {
    token.Some? && token.value != ""
  }

  function NewRun(model: string, vkey: string): Run
  {
    Run(model, "", vkey, Pending, "", None, None, "", "", None)
  }

  function StartedProgress(reply: CreateReply): Progress
    requires reply.Started?
  {
    var status := NormalizeStatus(reply.vendorStatus);
    var error := if status == Failed then Text.TrimSpace(reply.vendorError) else "";
    Progress(reply.evaluationId, status, reply.vendorStatus, None, None, "", error, None)
  }

  function RefusedProgress(reply: CreateReply): Progress
    requires reply.Refused?
  {
    Progress(reply.evaluationId, Failed, "", None, None, "", reply.message, None)
  }

  /** Whether Launch gets as far as minting (or not needing) a key. */
  predicate Admitted(s: LaunchSpec, e: LaunchEnv)
  {
    && HasToken(e.token) && e.teamOk && Validate(s)
    && (s.viaGateway ==> e.gatewayUrl != "" && e.key.Some?)
  }

  /** num_examples and rollouts are INTEGER columns: the insert fails on what does not fit. */
  predicate Fits32(x: int)
  {
    -0x8000_0000 <= x < 0x8000_0000
  }

  predicate Recorded(s: LaunchSpec, e: LaunchEnv)
  {
    e.createOk && Fits32(s.numExamples) && Fits32(s.rollouts)
  }

  /** From the row insert on, with key vkey ("" for none). */
  function LaunchRow(w: World, s: LaunchSpec, vkey: string, e: LaunchEnv): World
  {
    if !Recorded(s, e) then Revoke(w, vkey, e.revokeOk)
    else
      var w1 := Create(w, e.runId, NewRun(s.model, vkey));
      match e.reply
      case Refused(_, _) =>
        Revoke(UpdateProgress(w1, e.runId, RefusedProgress(e.reply), e.updateOk), vkey, e.revokeOk)
      case Started(_, _, _) =>
        var p := StartedProgress(e.reply);
        var w2 := UpdateProgress(w1, e.runId, p, e.updateOk);
        if e.updateOk && Settled(p.status) then w2.(bornSettled := w2.bornSettled + {e.runId}) else w2
  }

  function Launch(w: World, s: LaunchSpec, e: LaunchEnv): World
  {
    if !Admitted(s, e) then w
    else if s.viaGateway then LaunchRow(Mint(w, e.key.value), s, e.key.value, e)
    else LaunchRow(w, s, "", e)
  }

  // ----- PollOnce

  const POLL_BATCH: nat := 50

  datatype Evaluation = Evaluation(
    status: string,
    avgScore: Option<real>,
    metrics: Option<string>,
    viewerUrl: string,
    error: string,
    completedAt: Option<int>)

  /** The provider's zero time. */
  const ZERO_TIME: int := 0

  datatype Reading = Unreachable | Read(ev: Evaluation, revokeOk: bool, clearOk: bool, updateOk: bool)

  predicate Pollable(w: World, id: string)
  {
    id in w.rows && !Settled(w.rows[id].status) && w.rows[id].externalId != ""
  }

  function PollableOf(w: World, ids: seq<string>): (q: seq<string>)
    ensures forall id :: id in q <==> id in ids && Pollable(w, id)
  {
    if ids == [] then []
    else (if Pollable(w, ids[0]) then [ids[0]] else []) + PollableOf(w, ids[1..])
  }

  /** The unsettled runs with an external id, oldest update first. */
  function Queue(w: World): seq<string>
  {
    PollableOf(w, w.order)
  }

  function Batch(w: World): seq<string>
  {
    var q := Queue(w);
    if |q| <= POLL_BATCH then q else q[..POLL_BATCH]
  }

  function PollProgress(run: Run, ev: Evaluation): Progress
  {
    Progress(run.externalId, NormalizeStatus(ev.status), ev.status, ev.avgScore, ev.metrics,
             ev.viewerUrl, ev.error, ev.completedAt)
  }

  predicate Scored(ev: Evaluation)
  {
    ev.avgScore.Some? && ev.completedAt.Some? && ev.completedAt.value != ZERO_TIME
  }

  function ReadingOf(readings: map<string, Reading>, id: string): Reading
  {
    if id in readings then readings[id] else Unreachable
  }

  /** Whether folding this reading calls the drift observer: the row is there to be
      written, and the reading settles a run that was listed as unsettled. */
  predicate Observes(w: World, id: string, run: Run, reading: Reading, watching: bool)
  {
    && reading.Read? && reading.updateOk && id in w.rows && watching
    && Settled(NormalizeStatus(reading.ev.status)) && !Settled(run.status) && Scored(reading.ev)
  }

  /** Folds one provider reading into row id, given the run as it was when listed:
      applyStatus and the observer call. */
  function ApplyStatus(w: World, id: string, run: Run, reading: Reading, watching: bool): World
  {
    if reading.Unreachable? then w
    else
      var next := PollProgress(run, reading.ev);
      var w1 := if Settled(next.status) && run.vkey != ""
                then ClearVKey(Revoke(w, run.vkey, reading.revokeOk), id, reading.clearOk)
                else w;
      var w2 := UpdateProgress(w1, id, next, reading.updateOk);
      if Observes(w, id, run, reading, watching) then w2.(observed := w2.observed + [id]) else w2
  }

  /** A poll with nothing between listing and writing. */
  function PollRun(w: World, id: string, reading: Reading, watching: bool): World
  {
    if id in w.rows then ApplyStatus(w, id, w.rows[id], reading, watching) else w
  }

  function PollAll(w: World, ids: seq<string>, readings: map<string, Reading>, watching: bool): World
  {
    if ids == [] then w
    else PollRun(PollAll(w, ids[..|ids|-1], readings, watching), ids[|ids|-1],
                 ReadingOf(readings, ids[|ids|-1]), watching)
  }

  /** token: as for Launch; without one nothing is polled. */
  function PollOnce(w: World, token: Option<string>, readings: map<string, Reading>, watching: bool): World
  {
    if HasToken(token) then PollAll(w, Batch(w), readings, watching) else w
  }

  // ----- Cancel and Delete

  datatype CancelEnv = CancelEnv(
    getOk: bool, token: Option<string>, vendorOk: bool, revokeOk: bool, updateOk: bool, clearOk: bool)

  datatype DeleteEnv = DeleteEnv(getOk: bool, cancel: CancelEnv, revokeOk: bool, deleteOk: bool)

  /** Whether Cancel reaches the point of settling the row. */
  predicate CanCancel(w: World, id: string, e: CancelEnv)
  {
    && e.getOk && id in w.rows && !Settled(w.rows[id].status)
    && (w.rows[id].externalId != "" ==> HasToken(e.token))
  }

  function CancelProgress(run: Run): Progress
  {
    Progress("", Cancelled, run.externalStatus, None, None, "", "", None)
  }

  /** Asks the provider to stop a run; a refusal is only logged. */
  function Stop(w: World, externalId: string, ok: bool): World
  {
    if externalId != "" && ok then w.(stopped := w.stopped + {externalId}) else w
  }

  function Cancel(w: World, id: string, e: CancelEnv): World
  {
    if !CanCancel(w, id, e) then w
    else
      var run := w.rows[id];
      var w0 := Revoke(Stop(w, run.externalId, e.vendorOk), run.vkey, e.revokeOk);
      var w1 := UpdateProgress(w0, id, CancelProgress(run), e.updateOk);
      if e.updateOk then ClearVKey(w1, id, e.clearOk) else w1
  }

  function Delete(w: World, id: string, e: DeleteEnv): World
  {
    if !e.getOk || id !in w.rows then w
    else
      var run := w.rows[id];
      var w1 := if Settled(run.status) then w else Cancel(w, id, e.cancel);
      DeleteRow(Revoke(w1, run.vkey, e.revokeOk), id, e.deleteOk)
  }

  // ----- Histories

  datatype Event =
    | LaunchEvent(spec: LaunchSpec, launch: LaunchEnv)
    | PollEvent(token: Option<string>, readings: map<string, Reading>, watching: bool)
    | CancelEvent(id: string, cancel: CancelEnv)
    | DeleteEvent(id: string, delete: DeleteEnv)

  function Step(w: World, e: Event): World
  {
    match e
    case LaunchEvent(spec, env) => Launch(w, spec, env)
    case PollEvent(token, readings, watching) => PollOnce(w, token, readings, watching)
    case CancelEvent(id, env) => Cancel(w, id, env)
    case DeleteEvent(id, env) => Delete(w, id, env)
  }

  /** Launch draws a run id and a key id that were never used before. */
  predicate FreshIds(w: World, e: Event)
  {
    e.LaunchEvent? ==>
      && e.launch.runId != "" && e.launch.runId !in w.used
      && (e.launch.key.Some? ==> e.launch.key.value != "" && e.launch.key.value !in w.minted)
  }

  function After(w: World, events: seq<Event>): World
  {
    if events == [] then w else Step(After(w, events[..|events|-1]), events[|events|-1])
  }

  predicate AllFresh(w: World, events: seq<Event>)
  {
    events == [] ||
    (AllFresh(w, events[..|events|-1]) && FreshIds(After(w, events[..|events|-1]), events[|events|-1]))
  }
}
