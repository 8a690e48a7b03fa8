/** Several replicas polling at once. A replica lists runs in one step and writes what the
    provider said about each in a later one, from the row as it was when listed; any other
    step may come in between. */
module RunReplicas {
  import opened Options
  import opened Runs
  import opened RunSafety

  /** A run some replica has listed and not yet written back. */
  datatype Snapshot = Snapshot(id: string, run: Run)

  datatype Fleet = Fleet(world: World, pending: seq<Snapshot>)

  const START: Fleet := Fleet(EMPTY, [])

  datatype Move =
    | List
    | Apply(i: nat, reading: Reading, watching: bool)
    | Other(e: Event)

  function Snapshots(w: World, ids: seq<string>): seq<Snapshot>
  {
    if ids == [] then []
    else Snapshots(w, ids[..|ids|-1])
         + (if ids[|ids|-1] in w.rows then [Snapshot(ids[|ids|-1], w.rows[ids[|ids|-1]])] else [])
  }

  function FleetStep(f: Fleet, m: Move): Fleet
  {
    match m
    case List => f.(pending := f.pending + Snapshots(f.world, Batch(f.world)))
    case Apply(i, reading, watching) =>
      if i >= |f.pending| then f
      else Fleet(ApplyStatus(f.world, f.pending[i].id, f.pending[i].run, reading, watching),
                 f.pending[..i] + f.pending[i + 1..])
    case Other(e) => f.(world := Step(f.world, e))
  }

  /** Polls go through List and Apply; the other operations are atomic. */
  predicate Permitted(f: Fleet, m: Move)
  {
    m.Other? ==> !m.e.PollEvent? && FreshIds(f.world, m.e)
  }

  function FleetRun(f: Fleet, moves: seq<Move>): Fleet
  {
    if moves == [] then f else FleetStep(FleetRun(f, moves[..|moves|-1]), moves[|moves|-1])
  }

  predicate AllPermitted(f: Fleet, moves: seq<Move>)
  {
    moves == [] ||
    (AllPermitted(f, moves[..|moves|-1]) && Permitted(FleetRun(f, moves[..|moves|-1]), moves[|moves|-1]))
  }

  lemma RunSnoc(f: Fleet, moves: seq<Move>, m: Move)
    ensures FleetRun(f, moves + [m]) == FleetStep(FleetRun(f, moves), m)
    ensures AllPermitted(f, moves + [m]) <==> AllPermitted(f, moves) && Permitted(FleetRun(f, moves), m)
  {
    assert (moves + [m])[..|moves|] == moves;
  }

  // ----- Key safety under any interleaving

  /** Rows only ever lose their key reference; ids and keys are never reused. */
  ghost predicate Grows(w: World, w2: World)
  {
    && w.used <= w2.used && w.minted <= w2.minted
    && forall x :: x in w2.rows && x in w.used ==>
         x in w.rows && (w2.rows[x].vkey == w.rows[x].vkey || w2.rows[x].vkey == "")
  }

  ghost predicate SnapshotOk(w: World, s: Snapshot)
  {
    && s.id in w.used && !Settled(s.run.status) && SameKey(w, s.id, s.run)
    && (s.run.vkey != "" ==> s.run.vkey in w.minted)
  }

  ghost predicate FleetOk(f: Fleet)
  {
    && TableOk(f.world) && KeyRefsOk(f.world) && NoStrayKey(f.world)
    && forall i :: 0 <= i < |f.pending| ==> SnapshotOk(f.world, f.pending[i])
  }

  lemma ApplyGrows(w: World, s: Snapshot, reading: Reading, watching: bool)
    ensures Grows(w, ApplyStatus(w, s.id, s.run, reading, watching))
  {
    hide NormalizeStatus, ApplyStatus, Observes, Settled;
    ApplyEffect(w, s.id, s.run, reading, watching);
  }

  lemma OtherGrows(w: World, e: Event)
    requires TableOk(w) && KeyRefsOk(w) && NoStrayKey(w) && FreshIds(w, e) && !e.PollEvent?
    ensures Grows(w, Step(w, e))
  {
    hide Validate, NormalizeStatus, Without, NoDup, LaunchRow, KeyRefsOk, NoStrayKey, Cancel;
    match e
    case LaunchEvent(s, env) =>
      if Admitted(s, env) {
        var vkey := if s.viaGateway then env.key.value else "";
        var w1 := if s.viaGateway then Mint(w, env.key.value) else w;
        LaunchRowEffect(w1, s, vkey, env);
        LaunchUses(w1, s, vkey, env);
      }
    case CancelEvent(id, env) =>
      CancelKeys(w, id, env);
      CancelOthers(w, id, env);
    case DeleteEvent(id, env) =>
      CancelKeys(w, id, env.cancel);
      CancelOthers(w, id, env.cancel);
  }

  lemma OtherKeeps(w: World, e: Event)
    requires TableOk(w) && KeyRefsOk(w) && NoStrayKey(w) && FreshIds(w, e) && !e.PollEvent?
    ensures TableOk(Step(w, e)) && KeyRefsOk(Step(w, e)) && NoStrayKey(Step(w, e))
  {
    hide TableOk, KeyRefsOk, NoStrayKey, Launch, Cancel, Delete, FreshIds;
    match e
    case LaunchEvent(s, env) => LaunchTable(w, s, env); LaunchKeys(w, s, env);
    case CancelEvent(id, env) => CancelTable(w, id, env); CancelKeys(w, id, env);
    case DeleteEvent(id, env) => DeleteTable(w, id, env); DeleteKeys(w, id, env);
  }

  /** Listing runs takes each of them once, as its row is now. */
  lemma {:induction false} SnapshotsAre(w: World, ids: seq<string>)
    requires forall i :: 0 <= i < |ids| ==> ids[i] in w.rows
    ensures |Snapshots(w, ids)| == |ids|
    ensures forall i :: 0 <= i < |ids| ==> Snapshots(w, ids)[i] == Snapshot(ids[i], w.rows[ids[i]])
  {
    if ids != [] {
      SnapshotsAre(w, ids[..|ids|-1]);
    }
  }

  lemma ListTakes(w: World)
    requires TableOk(w)
    ensures var ids := Batch(w);
            && NoDup(ids) && |Snapshots(w, ids)| == |ids|
            && (forall i :: 0 <= i < |ids| ==>
                  Pollable(w, ids[i]) && Snapshots(w, ids)[i] == Snapshot(ids[i], w.rows[ids[i]]))
  {
    hide Batch, Snapshots, TableOk, NoDup;
    BatchOk(w);
    SnapshotsAre(w, Batch(w));
  }

  lemma FleetStepOk(f: Fleet, m: Move)
    requires FleetOk(f) && Permitted(f, m)
    ensures FleetOk(FleetStep(f, m))
  {
    hide KeyRefsOk, NoStrayKey, ApplyStatus, Step, Batch, FreshIds, Snapshots, NoDup;
    var w := f.world;
    match m
    case List =>
      ListTakes(w);
      forall i | 0 <= i < |Batch(w)| ensures SnapshotOk(w, Snapshots(w, Batch(w))[i]) {
        KeyMinted(w, Batch(w)[i]);
      }
    case Apply(i, reading, watching) =>
      if i < |f.pending| {
        var s := f.pending[i];
        ApplyTable(w, s.id, s.run, reading, watching);
        ApplyKeys(w, s.id, s.run, reading, watching);
        ApplyGrows(w, s, reading, watching);
      }
    case Other(e) =>
      OtherKeeps(w, e);
      OtherGrows(w, e);
  }

  /** However many replicas poll and however their steps interleave with launches, cancels
      and deletes, a live key is held by a row or was refused revocation. */
  lemma {:induction false} ReplicasLeaveNoStrayKey(moves: seq<Move>)
    requires AllPermitted(START, moves)
    ensures FleetOk(FleetRun(START, moves))
    ensures NoStrayKey(FleetRun(START, moves).world)
  {
    hide FleetStep, Permitted, NoStrayKey;
    if moves == [] {
      assert NoStrayKey(EMPTY) by { NoKeys(); }
    } else {
      ReplicasLeaveNoStrayKey(moves[..|moves|-1]);
      FleetStepOk(FleetRun(START, moves[..|moves|-1]), moves[|moves|-1]);
    }
  }

  lemma NoKeys()
    ensures NoStrayKey(EMPTY)
  {
  }

  // ----- What the writes in flight can break, exactly

  /** The runs settled in w are settled in w2. */
  ghost predicate StaySettled(w: World, w2: World)
  {
    forall x :: x in w.rows && Settled(w.rows[x].status) ==> x in w2.rows && Settled(w2.rows[x].status)
  }

  /** Readings that say a run is still going, and that it has completed with a score. */
  const ONGOING: Reading := Read(Evaluation("RUNNING", None, None, "", "", None), true, true, true)
  const FINAL: Reading := Read(Evaluation("COMPLETED", Some(1.0), None, "", "", Some(1)), true, true, true)

  lemma FinalAndOngoing()
    ensures NormalizeStatus(ONGOING.ev.status) == Running
    ensures NormalizeStatus(FINAL.ev.status) == Completed && Scored(FINAL.ev)
  {
  }

  /** The status and key reference of the row a write goes to. */
  lemma AppliedStatus(row: Run, run: Run, reading: Reading)
    ensures var r := AppliedRow(row, run, reading);
            && r.status == (if reading.Read? && reading.updateOk then NormalizeStatus(reading.ev.status)
                            else row.status)
            && (row.vkey == "" ==> r.vkey == "")
  {
    hide NormalizeStatus;
  }

  /** A write reports the status it read, whatever the row says by then. */
  lemma ApplyAt(f: Fleet, i: nat, reading: Reading, watching: bool)
    requires i < |f.pending|
    ensures var s, f2 := f.pending[i], FleetStep(f, Apply(i, reading, watching));
            && f2.pending == f.pending[..i] + f.pending[i + 1..]
            && f2.world.rows == (if s.id in f.world.rows
                                 then f.world.rows[s.id := AppliedRow(f.world.rows[s.id], s.run, reading)]
                                 else f.world.rows)
            && f2.world.observed == f.world.observed
                 + (if Observes(f.world, s.id, s.run, reading, watching) then [s.id] else [])
  {
    hide NormalizeStatus, ApplyStatus, Observes, AppliedRow, Settled;
    ApplyEffect(f.world, f.pending[i].id, f.pending[i].run, reading, watching);
  }

  /** A replica holds the run of a row that has settled since it was listed. */
  ghost predicate HoldsSettled(f: Fleet, i: int)
  {
    && 0 <= i < |f.pending| && f.pending[i].id in f.world.rows
    && Settled(f.world.rows[f.pending[i].id].status)
  }

  /** The next write keeps every settled run settled, whichever write it is and whatever it
      read, exactly when no replica holds a run that has settled meanwhile. */
  lemma NextWriteKeepsSettledIff(f: Fleet)
    ensures (forall i, reading, watching :: StaySettled(f.world, FleetStep(f, Apply(i, reading, watching)).world))
            <==> !exists i :: HoldsSettled(f, i)
  {
    hide NormalizeStatus, FleetStep, AppliedRow, Settled, Observes;
    if i :| HoldsSettled(f, i) {
      ApplyAt(f, i, ONGOING, false);
      AppliedStatus(f.world.rows[f.pending[i].id], f.pending[i].run, ONGOING);
      FinalAndOngoing();
      NotSettled(Running);
      assert !StaySettled(f.world, FleetStep(f, Apply(i, ONGOING, false)).world);
    } else {
      forall i: nat, reading, watching
        ensures StaySettled(f.world, FleetStep(f, Apply(i, reading, watching)).world)
      {
        if i < |f.pending| {
          assert !HoldsSettled(f, i);
          ApplyAt(f, i, reading, watching);
        } else {
          NothingToApply(f, i, reading, watching);
        }
      }
    }
  }

  lemma NothingToApply(f: Fleet, i: nat, reading: Reading, watching: bool)
    requires i >= |f.pending|
    ensures FleetStep(f, Apply(i, reading, watching)) == f
  {
  }

  lemma NotSettled(s: Status)
    ensures s == Running ==> !Settled(s)
    ensures s == Completed ==> Settled(s)
  {
  }

  /** So a cancel that comes between listing and writing is undone, with the key gone. */
  lemma CancelUndone(w: World, id: string, e: CancelEnv, reading: Reading, watching: bool)
    requires CanCancel(w, id, e) && e.updateOk && e.clearOk
    requires reading.Read? && reading.updateOk && !Settled(NormalizeStatus(reading.ev.status))
    ensures var w1 := Cancel(w, id, e);
            var w2 := ApplyStatus(w1, id, w.rows[id], reading, watching);
            && id in w1.rows && w1.rows[id].status == Cancelled
            && id in w2.rows && !Settled(w2.rows[id].status) && w2.rows[id].vkey == ""
  {
    hide NormalizeStatus, ApplyStatus, Cancel, AppliedRow;
    var w1 := Cancel(w, id, e);
    CancelEffect(w, id, e);
    ApplyEffect(w1, id, w.rows[id], reading, watching);
    AppliedStatus(w1.rows[id], w.rows[id], reading);
  }

  // ----- Who calls the observer twice

  /** The moves only write back what is held already. */
  predicate OnlyWrites(moves: seq<Move>)
  {
    forall m :: m in moves ==> m.Apply?
  }

  /** Each run that is held and has a row is held once and was not observed yet. */
  ghost predicate HeldOnce(f: Fleet)
  {
    && (forall i, j :: 0 <= i < j < |f.pending| && f.pending[i].id in f.world.rows ==>
          f.pending[i].id != f.pending[j].id)
    && (forall i :: 0 <= i < |f.pending| && f.pending[i].id in f.world.rows ==>
          f.pending[i].id !in f.world.observed)
  }

  lemma WriteKeepsHeldOnce(f: Fleet, i: nat, reading: Reading, watching: bool)
    requires NoDup(f.world.observed) && HeldOnce(f)
    ensures var f2 := FleetStep(f, Apply(i, reading, watching));
            NoDup(f2.world.observed) && HeldOnce(f2)
  {
    hide NormalizeStatus, FleetStep, AppliedRow, NoDup, Settled;
    if i < |f.pending| {
      ApplyAt(f, i, reading, watching);
      var s := f.pending[i];
      assert f.world.observed + [] == f.world.observed;
      if Observes(f.world, s.id, s.run, reading, watching) {
        NoDupSnoc(f.world.observed, s.id);
      }
    } else {
      NothingToApply(f, i, reading, watching);
    }
  }

  lemma {:induction false} WritesObserveOnce(f: Fleet, moves: seq<Move>)
    requires NoDup(f.world.observed) && HeldOnce(f) && OnlyWrites(moves)
    ensures NoDup(FleetRun(f, moves).world.observed) && HeldOnce(FleetRun(f, moves))
  {
    hide FleetStep, HeldOnce, NoDup;
    if moves != [] {
      var n := |moves| - 1;
      WritesObserveOnce(f, moves[..n]);
      assert moves[n] in moves;
      WriteKeepsHeldOnce(FleetRun(f, moves[..n]), moves[n].i, moves[n].reading, moves[n].watching);
    }
  }

  /** A final reading of a run that has a row and was listed unsettled calls the observer. */
  lemma FinalObserved(f: Fleet, i: nat)
    requires i < |f.pending| && f.pending[i].id in f.world.rows && !Settled(f.pending[i].run.status)
    ensures var f2 := FleetStep(f, Apply(i, FINAL, true));
            && f2.world.observed == f.world.observed + [f.pending[i].id]
            && f2.world.rows.Keys == f.world.rows.Keys && f2.pending == f.pending[..i] + f.pending[i + 1..]
  {
    hide FleetStep, NormalizeStatus, AppliedRow;
    FinalAndOngoing();
    ApplyAt(f, i, FINAL, true);
  }

  lemma SeenAgain(ids: seq<string>, id: string)
    requires id in ids
    ensures !NoDup(ids + [id])
  {
    var k :| 0 <= k < |ids| && ids[k] == id;
    assert (ids + [id])[k] == (ids + [id])[|ids|];
  }

  lemma ObservedAndHeld(f: Fleet, i: nat) returns (moves: seq<Move>)
    requires i < |f.pending| && f.pending[i].id in f.world.rows && !Settled(f.pending[i].run.status)
    requires f.pending[i].id in f.world.observed
    ensures OnlyWrites(moves) && !NoDup(FleetRun(f, moves).world.observed)
  {
    hide FleetStep, NoDup, Settled;
    moves := [Apply(i, FINAL, true)];
    RunSnoc(f, [], moves[0]);
    FinalObserved(f, i);
    SeenAgain(f.world.observed, f.pending[i].id);
  }

  lemma HeldByTwo(f: Fleet, i: nat, j: nat) returns (moves: seq<Move>)
    requires i < j < |f.pending| && f.pending[i].id == f.pending[j].id && f.pending[i].id in f.world.rows
    requires !Settled(f.pending[i].run.status) && !Settled(f.pending[j].run.status)
    ensures OnlyWrites(moves) && !NoDup(FleetRun(f, moves).world.observed)
  {
    hide FleetStep, NoDup, Settled, FleetRun;
    var m := Apply(i, FINAL, true);
    var f1 := FleetStep(f, m);
    assert FleetRun(f, [m]) == f1 by { RunOne(f, m); }
    FinalObserved(f, i);
    assert f1.pending[j - 1] == f.pending[j];
    FinalObserved(f1, j - 1);
    SeenAgain(f1.world.observed, f.pending[i].id);
    RunSnoc(f, [m], Apply(j - 1, FINAL, true));
    moves := [m] + [Apply(j - 1, FINAL, true)];
  }

  lemma RunOne(f: Fleet, m: Move)
    ensures FleetRun(f, [m]) == FleetStep(f, m)
  {
    assert [m][..0] == [];
  }

  /** A run held twice, or held after it was observed, can be observed again by the writes
      in flight alone. */
  lemma HeldTwiceObservedTwice(f: Fleet) returns (moves: seq<Move>)
    requires FleetOk(f) && !HeldOnce(f)
    ensures OnlyWrites(moves) && !NoDup(FleetRun(f, moves).world.observed)
  {
    hide FleetRun, OnlyWrites, TableOk, KeyRefsOk, NoStrayKey, NoDup, Settled;
    if i :| 0 <= i < |f.pending| && f.pending[i].id in f.world.rows && f.pending[i].id in f.world.observed {
      moves := ObservedAndHeld(f, i);
    } else {
      var i, j :| 0 <= i < j < |f.pending| && f.pending[i].id in f.world.rows && f.pending[i].id == f.pending[j].id;
      moves := HeldByTwo(f, i, j);
    }
  }

  /** The writes in flight call the observer at most once per run, in whatever order they
      land and whatever they read, exactly when each run is held once and not observed yet. */
  lemma WritesObserveOnceIff(f: Fleet)
    requires FleetOk(f) && NoDup(f.world.observed)
    ensures (forall moves :: OnlyWrites(moves) ==> NoDup(FleetRun(f, moves).world.observed)) <==> HeldOnce(f)
  {
    hide FleetOk, HeldOnce, FleetStep, NoDup, OnlyWrites;
    if HeldOnce(f) {
      forall moves | OnlyWrites(moves) ensures NoDup(FleetRun(f, moves).world.observed) {
        WritesObserveOnce(f, moves);
      }
    } else {
      var moves := HeldTwiceObservedTwice(f);
    }
  }

  // ----- Both happen

  const RACE_SPEC: LaunchSpec := LaunchSpec(["gsm8k"], "m", 1, 1, 0, false)
  const RACE_ENV: LaunchEnv :=
    LaunchEnv(Some("t"), true, "r", "", None, true, Started("x", "RUNNING", ""), true, true)

  /** One launch, and two replicas that list the run. */
  const RACE: seq<Move> := [Other(LaunchEvent(RACE_SPEC, RACE_ENV))] + [List] + [List]

  lemma RaceLaunched()
    ensures var w := Launch(EMPTY, RACE_SPEC, RACE_ENV);
            && w.rows.Keys == {"r"} && w.rows["r"].status == Running && w.rows["r"].externalId == "x"
            && w.order == ["r"] && w.observed == []
  {
    assert TotalSamples(RACE_SPEC) == 1;
    assert Validate(RACE_SPEC) && Admitted(RACE_SPEC, RACE_ENV) && Recorded(RACE_SPEC, RACE_ENV);
    var w1 := Create(EMPTY, "r", NewRun("m", ""));
    assert w1.order == ["r"] && Without(w1.order, "r") == [];
  }

  lemma RaceReached()
    ensures AllPermitted(START, RACE)
    ensures var f := FleetRun(START, RACE);
            && f.world.rows.Keys == {"r"} && f.world.observed == []
            && !Settled(f.world.rows["r"].status)
            && f.pending == [Snapshot("r", f.world.rows["r"]), Snapshot("r", f.world.rows["r"])]
  {
    var m := Other(LaunchEvent(RACE_SPEC, RACE_ENV));
    var w := Launch(EMPTY, RACE_SPEC, RACE_ENV);
    RaceLaunched();
    hide Launch, Validate;
    RunSnoc(START, [], m);
    assert [] + [m] == [m];
    RunSnoc(START, [m], List);
    RunSnoc(START, [m] + [List], List);
    var s := Snapshot("r", w.rows["r"]);
    assert Queue(w) == ["r"] by {
      assert w.order[1..] == [];
      assert PollableOf(w, w.order[1..]) == [];
    }
    assert Snapshots(w, ["r"]) == [s] by { SnapshotsAre(w, ["r"]); }
    assert FleetRun(START, RACE) == Fleet(w, [] + [s] + [s]);
  }

  /** Two replicas that both list a run can report it to the observer twice. */
  lemma ObservedTwiceReached()
    ensures var moves := RACE + [Apply(0, FINAL, true)] + [Apply(0, FINAL, true)];
            AllPermitted(START, moves) && FleetRun(START, moves).world.observed == ["r", "r"]
  {
    hide FleetStep;
    RaceReached();
    var f, m := FleetRun(START, RACE), Apply(0, FINAL, true);
    RunSnoc(START, RACE, m);
    RunSnoc(START, RACE + [m], m);
    FinalObserved(f, 0);
    FinalObserved(FleetStep(f, m), 0);
  }

  /** They can also put a completed run back to running. */
  lemma UnsettledReached()
    ensures var moves := RACE + [Apply(0, FINAL, true)];
            var f1, f2 := FleetRun(START, moves), FleetRun(START, moves + [Apply(0, ONGOING, true)]);
            && AllPermitted(START, moves + [Apply(0, ONGOING, true)])
            && "r" in f1.world.rows && f1.world.rows["r"].status == Completed
            && "r" in f2.world.rows && f2.world.rows["r"].status == Running
  {
    hide FleetStep, AppliedRow;
    RaceReached();
    FinalAndOngoing();
    var f, m1, m2 := FleetRun(START, RACE), Apply(0, FINAL, true), Apply(0, ONGOING, true);
    RunSnoc(START, RACE, m1);
    RunSnoc(START, RACE + [m1], m2);
    ApplyAt(f, 0, FINAL, true);
    AppliedStatus(f.world.rows["r"], f.pending[0].run, FINAL);
    var f1 := FleetStep(f, m1);
    ApplyAt(f1, 0, ONGOING, true);
    AppliedStatus(f1.world.rows["r"], f1.pending[0].run, ONGOING);
  }

  // ----- One replica at a time per run

  /** No run is held twice, and none that is held was observed. */
  ghost predicate Exclusive(f: Fleet)
  {
    && (forall i, j :: 0 <= i < j < |f.pending| ==> f.pending[i].id != f.pending[j].id)
    && (forall i :: 0 <= i < |f.pending| ==> f.pending[i].id !in f.world.observed)
  }

  /** List takes only runs that no replica holds. */
  ghost predicate Leased(f: Fleet, m: Move)
  {
    m.List? ==> forall i :: 0 <= i < |f.pending| ==> f.pending[i].id !in Batch(f.world)
  }

  ghost predicate AllLeased(f: Fleet, moves: seq<Move>)
  {
    moves == [] ||
    (AllLeased(f, moves[..|moves|-1]) && Leased(FleetRun(f, moves[..|moves|-1]), moves[|moves|-1]))
  }

  lemma ListExclusive(f: Fleet)
    requires TableOk(f.world) && ObservedOnce(f.world) && Exclusive(f) && Leased(f, List)
    ensures Exclusive(FleetStep(f, List))
  {
    hide Batch, Snapshots, TableOk;
    var w := f.world;
    ListTakes(w);
    forall i | 0 <= i < |Batch(w)| ensures Snapshots(w, Batch(w))[i].id !in w.observed {
      assert Pollable(w, Batch(w)[i]);
    }
  }

  lemma ApplyObservedOnce(w: World, s: Snapshot, reading: Reading, watching: bool)
    requires ObservedOnce(w) && s.id in w.used && s.id !in w.observed
    ensures ObservedOnce(ApplyStatus(w, s.id, s.run, reading, watching))
  {
    hide NormalizeStatus, ApplyStatus, NoDup, AppliedRow;
    ApplyEffect(w, s.id, s.run, reading, watching);
    NoDupSnoc(w.observed, s.id);
    if s.id in w.rows {
      AppliedStatus(w.rows[s.id], s.run, reading);
    }
  }

  lemma OtherObserved(w: World, e: Event)
    requires !e.PollEvent?
    ensures Step(w, e).observed == w.observed
  {
    hide Validate, NormalizeStatus, LaunchRow, Cancel;
    match e
    case LaunchEvent(s, env) =>
      if Admitted(s, env) {
        var vkey := if s.viaGateway then env.key.value else "";
        LaunchRowEffect(if s.viaGateway then Mint(w, vkey) else w, s, vkey, env);
      }
    case CancelEvent(id, env) => CancelOthers(w, id, env);
    case DeleteEvent(id, env) => CancelOthers(w, id, env.cancel);
  }

  lemma LeasedStep(f: Fleet, m: Move)
    requires FleetOk(f) && ObservedOnce(f.world) && Exclusive(f) && Permitted(f, m) && Leased(f, m)
    ensures ObservedOnce(FleetStep(f, m).world) && Exclusive(FleetStep(f, m))
  {
    hide TableOk, KeyRefsOk, NoStrayKey, ObservedOnce, ApplyStatus, Step, Batch, Observes;
    match m
    case List => ListExclusive(f);
    case Apply(i, reading, watching) =>
      if i < |f.pending| {
        ApplyObservedOnce(f.world, f.pending[i], reading, watching);
        ApplyAt(f, i, reading, watching);
      }
    case Other(e) =>
      StepInv(f.world, e);
      OtherObserved(f.world, e);
  }

  /** If no two replicas hold the same run at once, the observer sees each run at most once,
      cancels and deletes in between or not. */
  lemma {:induction false} LeasedReplicasObserveOnce(moves: seq<Move>)
    requires AllPermitted(START, moves) && AllLeased(START, moves)
    ensures ObservedOnce(FleetRun(START, moves).world) && Exclusive(FleetRun(START, moves))
  {
    hide FleetStep, Permitted, Leased;
    if moves != [] {
      var before := moves[..|moves|-1];
      LeasedReplicasObserveOnce(before);
      ReplicasLeaveNoStrayKey(before);
      LeasedStep(FleetRun(START, before), moves[|moves|-1]);
    }
  }

  // ----- When settled is for good

  ghost predicate Held(f: Fleet, id: string)
  {
    exists i :: 0 <= i < |f.pending| && f.pending[i].id == id
  }

  /** No run is cancelled or deleted while a replica holds it. */
  ghost predicate Undisturbed(f: Fleet, m: Move)
  {
    m.Other? && (m.e.CancelEvent? || m.e.DeleteEvent?) ==> !Held(f, m.e.id)
  }

  ghost predicate AllUndisturbed(f: Fleet, moves: seq<Move>)
  {
    moves == [] ||
    (AllUndisturbed(f, moves[..|moves|-1]) && Undisturbed(FleetRun(f, moves[..|moves|-1]), moves[|moves|-1]))
  }

  /** Every run that is held is held once and has an unsettled row. */
  ghost predicate HeldUnsettled(f: Fleet)
  {
    && (forall i, j :: 0 <= i < j < |f.pending| ==> f.pending[i].id != f.pending[j].id)
    && (forall i :: 0 <= i < |f.pending| ==>
          f.pending[i].id in f.world.rows && !Settled(f.world.rows[f.pending[i].id].status))
  }

  /** The rows an operation that is not a poll leaves as they are. */
  lemma OtherRows(w: World, e: Event, id: string)
    requires TableOk(w) && FreshIds(w, e) && !e.PollEvent? && id in w.rows
    requires (e.CancelEvent? || e.DeleteEvent?) && e.id == id ==> Settled(w.rows[id].status) && e.CancelEvent?
    ensures id in Step(w, e).rows && Step(w, e).rows[id] == w.rows[id]
  {
    hide Validate, NormalizeStatus, NoDup, LaunchRow, Cancel;
    match e
    case LaunchEvent(s, env) =>
      if Admitted(s, env) {
        var vkey := if s.viaGateway then env.key.value else "";
        LaunchRowEffect(if s.viaGateway then Mint(w, vkey) else w, s, vkey, env);
      }
    case CancelEvent(x, env) => CancelEffect(w, x, env);
    case DeleteEvent(x, env) => CancelOthers(w, x, env.cancel);
  }

  lemma UndisturbedStep(f: Fleet, m: Move)
    requires TableOk(f.world) && HeldUnsettled(f)
    requires Permitted(f, m) && Leased(f, m) && Undisturbed(f, m)
    ensures HeldUnsettled(FleetStep(f, m))
  {
    hide TableOk, ApplyStatus, Step, Batch, Snapshots, NoDup, FreshIds, NormalizeStatus, Settled, Observes;
    match m
    case List =>
      ListTakes(f.world);
      forall i | 0 <= i < |Batch(f.world)| ensures !Settled(f.world.rows[Batch(f.world)[i]].status) {
        assert Pollable(f.world, Batch(f.world)[i]);
      }
      ListDistinct(f);
    case Apply(i, reading, watching) =>
      if i < |f.pending| {
        ApplyAt(f, i, reading, watching);
      }
    case Other(e) =>
      forall i | 0 <= i < |f.pending|
        ensures f.pending[i].id in Step(f.world, e).rows
                && Step(f.world, e).rows[f.pending[i].id] == f.world.rows[f.pending[i].id]
      {
        OtherRows(f.world, e, f.pending[i].id);
      }
  }

  lemma ListDistinct(f: Fleet)
    requires TableOk(f.world) && Leased(f, List)
    requires forall i, j :: 0 <= i < j < |f.pending| ==> f.pending[i].id != f.pending[j].id
    ensures var p := FleetStep(f, List).pending;
            forall i, j :: 0 <= i < j < |p| ==> p[i].id != p[j].id
  {
    hide TableOk, Batch, Snapshots;
    ListTakes(f.world);
  }

  /** A step that disturbs no held run leaves every settled row as it is, but for the one
      it deletes. */
  lemma UndisturbedKeepsRow(f: Fleet, m: Move, id: string)
    requires TableOk(f.world) && HeldUnsettled(f) && Permitted(f, m)
    requires id in f.world.rows && Settled(f.world.rows[id].status)
    requires !(m.Other? && m.e.DeleteEvent? && m.e.id == id)
    ensures id in FleetStep(f, m).world.rows && FleetStep(f, m).world.rows[id] == f.world.rows[id]
  {
    hide TableOk, ApplyStatus, Step, Batch, Snapshots, FreshIds, NormalizeStatus, Settled, Observes;
    match m
    case List =>
    case Apply(i, reading, watching) =>
      if i < |f.pending| {
        ApplyAt(f, i, reading, watching);
      }
    case Other(e) => OtherRows(f.world, e, id);
  }

  lemma {:induction false} UndisturbedHeld(moves: seq<Move>)
    requires AllPermitted(START, moves) && AllLeased(START, moves) && AllUndisturbed(START, moves)
    ensures HeldUnsettled(FleetRun(START, moves))
  {
    hide FleetStep, Permitted, Leased, Undisturbed;
    if moves != [] {
      var before := moves[..|moves|-1];
      UndisturbedHeld(before);
      ReplicasLeaveNoStrayKey(before);
      UndisturbedStep(FleetRun(START, before), moves[|moves|-1]);
    }
  }

  /** If no two replicas hold a run at once and no run is cancelled or deleted while held,
      a settled row stays as it is until its own Delete. */
  lemma {:induction false} SettledForGoodWhenUndisturbed(before: nat, moves: seq<Move>, id: string)
    requires AllPermitted(START, moves) && AllLeased(START, moves) && AllUndisturbed(START, moves)
    requires before <= |moves|
    requires var w := FleetRun(START, moves[..before]).world; id in w.rows && Settled(w.rows[id].status)
    requires forall k :: before <= k < |moves| && moves[k].Other? && moves[k].e.DeleteEvent? ==> moves[k].e.id != id
    ensures var w := FleetRun(START, moves).world;
            id in w.rows && w.rows[id] == FleetRun(START, moves[..before]).world.rows[id]
  {
    hide FleetStep, Permitted, Leased, Undisturbed;
    if before == |moves| {
      assert moves[..before] == moves;
    } else {
      var n := |moves| - 1;
      var init := moves[..n];
      assert init[..before] == moves[..before];
      SettledForGoodWhenUndisturbed(before, init, id);
      UndisturbedHeld(init);
      ReplicasLeaveNoStrayKey(init);
      UndisturbedKeepsRow(FleetRun(START, init), moves[n], id);
    }
  }
}
