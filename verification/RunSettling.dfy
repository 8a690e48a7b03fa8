/** When a settled run stays settled, with the calls of all operations interleaved. */
module RunSettling {
  import opened Options
  import opened Runs
  import opened RunSafety
  import opened RunCalls
  import opened RunInterleaving

  /** A call that puts run id back among the unsettled if it has a row. */
  predicate Unsettles(c: Call, id: string)
  {
    c.WriteRow? && c.id == id && c.ok && !Settled(c.p.status)
  }

  ghost predicate MayUnsettle(cs: seq<Call>, id: string)
  {
    exists i :: 0 <= i < |cs| && Unsettles(cs[i], id)
  }

  ghost predicate InFlightUnsettling(s: System, id: string)
  {
    exists j :: 0 <= j < |s.flights| && MayUnsettle(s.flights[j], id)
  }

  /** The run is gone or settled. */
  ghost predicate Rests(w: World, id: string)
  {
    id in w.rows ==> Settled(w.rows[id].status)
  }

  /** A call that neither reads what comes next nor removes a row. */
  predicate Plain(c: Call)
  {
    !c.ReadToCancel? && !c.ReadToDelete? && !c.ListToPoll? && !c.RemoveRow?
  }

  /** Nothing but plain calls comes before a write. */
  ghost predicate WritesEarly(cs: seq<Call>)
  {
    forall i, j :: 0 <= i < j < |cs| && cs[j].WriteRow? ==> Plain(cs[i])
  }

  lemma {:induction false} PollCallsPlain(w: World, ids: seq<string>, readings: map<string, Reading>, watching: bool)
    ensures forall i :: 0 <= i < |PollCalls(w, ids, readings, watching)| ==>
              && Plain(PollCalls(w, ids, readings, watching)[i])
              && (PollCalls(w, ids, readings, watching)[i].WriteRow? ==>
                    PollCalls(w, ids, readings, watching)[i].id in ids)
  {
    hide NormalizeStatus, ReadingOf;
    if ids != [] {
      PollCallsPlain(w, ids[..|ids|-1], readings, watching);
      assert forall x :: x in ids[..|ids|-1] ==> x in ids;
    }
  }

  lemma NextWritesEarly(w: World, c: Call)
    ensures WritesEarly(Next(w, c)) && (Plain(c) ==> Next(w, c) == [])
  {
    hide PollCalls, Batch, CanCancel;
    match c
    case ListToPoll(_, readings, watching) => PollCallsPlain(w, Batch(w), readings, watching);
    case _ =>
  }

  lemma StepWritesEarly(s: System, m: Move)
    requires forall j :: 0 <= j < |s.flights| ==> WritesEarly(s.flights[j])
    ensures forall j :: 0 <= j < |SystemStep(s, m).flights| ==> WritesEarly(SystemStep(s, m).flights[j])
  {
    hide Do, Next, Minted, LaunchCalls, Plain;
    match m
    case Begin(e) => CallsWriteEarly(e);
    case Advance(j) =>
      if j < |s.flights| && s.flights[j] != [] {
        var cs := s.flights[j];
        NextWritesEarly(s.world, cs[0]);
        var more := Next(s.world, cs[0]);
        assert WritesEarly(more + cs[1..]) by {
          forall a, b | 0 <= a < b < |more + cs[1..]| && (more + cs[1..])[b].WriteRow?
            ensures Plain((more + cs[1..])[a])
          {
            if b >= |more| {
              assert cs[b - |more| + 1].WriteRow?;
              assert a >= |more| ==> Plain(cs[a - |more| + 1]);
            }
          }
        }
      }
  }

  lemma CallsWriteEarly(e: Event)
    ensures WritesEarly(Calls(e))
  {
    hide Validate, Recorded, StartedProgress;
  }

  lemma {:induction false} RunWritesEarly(moves: seq<Move>)
    ensures forall j :: 0 <= j < |SystemRun(moves).flights| ==> WritesEarly(SystemRun(moves).flights[j])
  {
    hide SystemStep, WritesEarly;
    if moves != [] {
      RunWritesEarly(moves[..|moves|-1]);
      StepWritesEarly(SystemRun(moves[..|moves|-1]), moves[|moves|-1]);
    }
  }

  // ----- It does, unless a write in flight says otherwise

  /** What is read of a run at rest leads to no write that unsettles it. */
  lemma NextRests(w: World, c: Call, id: string)
    requires Rests(w, id)
    ensures !MayUnsettle(Next(w, c), id)
  {
    hide PollCalls, CanCancel, NormalizeStatus;
    match c
    case ListToPoll(_, readings, watching) =>
      PollCallsPlain(w, Batch(w), readings, watching);
      assert id !in Batch(w) by { NotPolled(w, id); }
    case _ =>
  }

  lemma NotPolled(w: World, id: string)
    requires Rests(w, id)
    ensures id !in Batch(w)
  {
    assert id !in Queue(w);
  }

  lemma DoRests(w: World, c: Call, id: string)
    requires Rests(w, id) && !Unsettles(c, id) && !(c.InsertRow? && c.id == id)
    ensures Rests(Do(w, c), id)
  {
    hide Without, Applied, UpdateProgress, ClearVKey;
    match c
    case WriteRow(x, p, ok, _) => WriteFrame(w, x, p, ok, true); AppliedKey(w, x, p);
    case ClearRef(x, ok) => ClearFrame(w, x, ok);
    case _ =>
  }

  /** The run is at rest for good: its id is used up and nothing in flight unsettles it. */
  ghost predicate AtRest(s: System, id: string)
  {
    id in s.world.used && Rests(s.world, id) && !InFlightUnsettling(s, id)
  }

  lemma MayUnsettleApp(a: seq<Call>, b: seq<Call>, id: string)
    ensures MayUnsettle(a + b, id) <==> MayUnsettle(a, id) || MayUnsettle(b, id)
  {
    hide Unsettles;
    if i :| 0 <= i < |a| && Unsettles(a[i], id) {
      assert (a + b)[i] == a[i];
    }
    if i :| 0 <= i < |b| && Unsettles(b[i], id) {
      assert (a + b)[|a| + i] == b[i];
    }
  }

  lemma AdvanceRests(s: System, j: nat, id: string)
    requires SystemOk(s) && AtRest(s, id) && j < |s.flights| && s.flights[j] != []
    ensures AtRest(SystemStep(s, Advance(j)), id)
  {
    hide Do, Next, KeysHeld, Unsettles, Rests, Evolves, Guarded;
    var w, cs, s2 := s.world, s.flights[j], SystemStep(s, Advance(j));
    HeadFresh(w, cs);
    DoEvolves(w, cs[0]);
    assert !Unsettles(cs[0], id) by { assert !MayUnsettle(cs, id); }
    DoRests(w, cs[0], id);
    NextRests(w, cs[0], id);
    assert cs == [cs[0]] + cs[1..];
    MayUnsettleApp([cs[0]], cs[1..], id);
    MayUnsettleApp(Next(w, cs[0]), cs[1..], id);
    forall i | 0 <= i < |s2.flights| ensures !MayUnsettle(s2.flights[i], id) {
      assert i != j ==> s2.flights[i] == s.flights[i];
    }
  }

  lemma BeginRests(s: System, e: Event, id: string)
    requires AtRest(s, id) && FreshIds(s.world, e)
    ensures AtRest(SystemStep(s, Begin(e)), id)
  {
    hide MayUnsettle, Calls, Minted;
    MintRows(s.world, e);
    BeginUnsettles(s.world, e, id);
  }

  lemma MintRows(w: World, e: Event)
    ensures Minted(w, e).rows == w.rows && Minted(w, e).used == w.used
  {
    hide Validate;
  }

  lemma BeginUnsettles(w: World, e: Event, id: string)
    requires FreshIds(w, e) && id in w.used
    ensures !MayUnsettle(Calls(e), id)
  {
    hide Validate, Recorded, NormalizeStatus;
  }

  lemma {:induction false} RestsForGood(moves: seq<Move>, more: seq<Move>, id: string)
    requires AllFreshBegins(moves + more) && AtRest(SystemRun(moves), id)
    ensures AtRest(SystemRun(moves + more), id)
  {
    hide SystemStep, AtRest, FreshBegin, SystemOk;
    if more == [] {
      assert moves + more == moves;
    } else {
      var n := |more| - 1;
      var all, m := moves + more, more[n];
      assert all[..|all|-1] == moves + more[..n] && all[|all|-1] == m;
      RestsForGood(moves, more[..n], id);
      InterleavedCallsLoseNoKey(moves + more[..n]);
      var s := SystemRun(moves + more[..n]);
      if m.Begin? {
        assert FreshIds(s.world, m.e) by { FreshIdsOf(s, m); }
        BeginRests(s, m.e, id);
      } else if m.j < |s.flights| && s.flights[m.j] != [] {
        AdvanceRests(s, m.j, id);
      } else {
        NothingToDo(s, m.j);
      }
    }
  }

  lemma FreshIdsOf(s: System, m: Move)
    requires FreshBegin(s, m) && m.Begin?
    ensures FreshIds(s.world, m.e)
  {
  }

  // ----- And if one does, it can

  predicate OnlyAdvances(more: seq<Move>)
  {
    forall m :: m in more ==> m.Advance?
  }

  lemma RunSnoc(moves: seq<Move>, m: Move)
    ensures SystemRun(moves + [m]) == SystemStep(SystemRun(moves), m)
    ensures AllFreshBegins(moves + [m]) <==> AllFreshBegins(moves) && FreshBegin(SystemRun(moves), m)
  {
    assert (moves + [m])[..|moves|] == moves;
  }

  lemma PlainKeepsRow(w: World, c: Call, id: string)
    requires Plain(c) && id in w.rows
    ensures id in Do(w, c).rows
  {
    hide Without, Applied, UpdateProgress, ClearVKey;
    match c
    case WriteRow(x, p, ok, _) => WriteFrame(w, x, p, ok, true);
    case ClearRef(x, ok) => ClearFrame(w, x, ok);
    case _ =>
  }

  lemma WriteUnsettles(s: System, j: nat, id: string)
    requires id in s.world.rows && j < |s.flights| && s.flights[j] != [] && Unsettles(s.flights[j][0], id)
    ensures !Rests(SystemStep(s, Advance(j)).world, id)
  {
    hide Do, Next, Applied;
    WroteRow(s.world, s.flights[j][0]);
    AppliedKey(s.world, id, s.flights[j][0].p);
  }

  lemma WriteNears(s: System, j: nat, i: nat, id: string)
    requires id in s.world.rows && j < |s.flights| && WritesEarly(s.flights[j])
    requires 0 < i < |s.flights[j]| && Unsettles(s.flights[j][i], id)
    ensures var s2 := SystemStep(s, Advance(j));
            && id in s2.world.rows && j < |s2.flights| && |s2.flights[j]| == |s.flights[j]| - 1
            && Unsettles(s2.flights[j][i - 1], id)
  {
    hide Do, Next, Plain;
    var cs := s.flights[j];
    assert Plain(cs[0]);
    PlainKeepsRow(s.world, cs[0], id);
    NextWritesEarly(s.world, cs[0]);
    assert [] + cs[1..] == cs[1..];
  }

  /** Letting flight j go on until it unsettles the run. */
  lemma {:induction false} FlightUnsettles(moves: seq<Move>, j: nat, i: nat, id: string) returns (more: seq<Move>)
    requires AllFreshBegins(moves) && id in SystemRun(moves).world.rows
    requires j < |SystemRun(moves).flights| && i < |SystemRun(moves).flights[j]|
    requires Unsettles(SystemRun(moves).flights[j][i], id)
    ensures OnlyAdvances(more) && AllFreshBegins(moves + more) && !Rests(SystemRun(moves + more).world, id)
    decreases i
  {
    hide SystemRun, AllFreshBegins, SystemStep, Unsettles, Rests, WritesEarly;
    var s, m := SystemRun(moves), Advance(j);
    RunSnoc(moves, m);
    if i == 0 {
      more := [m];
      WriteUnsettles(s, j, id);
    } else {
      RunWritesEarly(moves);
      WriteNears(s, j, i, id);
      var rest := FlightUnsettles(moves + [m], j, i - 1, id);
      more := [m] + rest;
      assert moves + more == moves + [m] + rest;
    }
  }

  /** After any history, call by call, a settled run stays settled or is deleted, whatever
      begins and goes on from there, exactly when no operation in flight is about to write
      an ongoing status to it; the operations in flight alone decide it. */
  lemma SettledLastsIff(moves: seq<Move>, id: string)
    requires AllFreshBegins(moves)
    requires id in SystemRun(moves).world.rows && Settled(SystemRun(moves).world.rows[id].status)
    ensures (forall more :: AllFreshBegins(moves + more) ==> Rests(SystemRun(moves + more).world, id))
            <==> !InFlightUnsettling(SystemRun(moves), id)
    ensures (forall more :: OnlyAdvances(more) ==> Rests(SystemRun(moves + more).world, id))
            <==> !InFlightUnsettling(SystemRun(moves), id)
  {
    hide SystemRun, AllFreshBegins, SystemOk, OnlyAdvances;
    var s := SystemRun(moves);
    if InFlightUnsettling(s, id) {
      var j :| 0 <= j < |s.flights| && MayUnsettle(s.flights[j], id);
      var i :| 0 <= i < |s.flights[j]| && Unsettles(s.flights[j][i], id);
      var more := FlightUnsettles(moves, j, i, id);
      assert !Rests(SystemRun(moves + more).world, id);
    } else {
      InterleavedCallsLoseNoKey(moves);
      assert AtRest(s, id) by { RowUsed(s, id); }
      forall more | AllFreshBegins(moves + more) ensures Rests(SystemRun(moves + more).world, id) {
        RestsForGood(moves, more, id);
      }
      forall more | OnlyAdvances(more) ensures Rests(SystemRun(moves + more).world, id) {
        AdvancesFresh(moves, more);
        RestsForGood(moves, more, id);
      }
    }
  }

  lemma RowUsed(s: System, id: string)
    requires SystemOk(s) && id in s.world.rows
    ensures id in s.world.used
  {
  }

  lemma {:induction false} AdvancesFresh(moves: seq<Move>, more: seq<Move>)
    requires AllFreshBegins(moves) && OnlyAdvances(more)
    ensures AllFreshBegins(moves + more)
  {
    hide SystemRun;
    if more == [] {
      assert moves + more == moves;
    } else {
      var n := |more| - 1;
      assert more[n] in more;
      AdvancesFresh(moves, more[..n]);
      RunSnoc(moves + more[..n], more[n]);
      assert moves + more == (moves + more[..n]) + [more[n]];
    }
  }

  // ----- Both ways of losing a cancel

  /** A cancel between a launch's insert and its write of the provider's answer is undone
      by that write, the key gone and the provider never asked to stop. */
  lemma CancelDuringLaunchUndone(w: World, s: LaunchSpec, e: LaunchEnv, c: CancelEnv)
    requires Admitted(s, e) && Recorded(s, e) && e.reply.Started? && e.updateOk
    requires !Settled(NormalizeStatus(e.reply.vendorStatus))
    requires c.getOk && c.updateOk && c.clearOk
    ensures var cs := LaunchCalls(s, e);
            var w1 := Do(Minted(w, LaunchEvent(s, e)), cs[0]);
            var w2 := Alone(w1, [ReadToCancel(e.runId, c)]);
            var w3 := Do(w2, cs[1]);
            && |cs| == 2 && e.runId in w2.rows && w2.rows[e.runId].status == Cancelled
            && w2.stopped == w.stopped
            && e.runId in w3.rows && !Settled(w3.rows[e.runId].status) && w3.rows[e.runId].vkey == ""
  {
    hide Alone, Validate, NormalizeStatus, Recorded, UpdateProgress, Cancel, Do;
    var cs := LaunchCalls(s, e);
    var w0 := Minted(w, LaunchEvent(s, e));
    var w1, p := Do(w0, cs[0]), StartedProgress(e.reply);
    InsertedRow(w0, cs[0]);
    InsertStops(w0, cs[0]);
    CancelAlone(w1, e.runId, c);
    CancelEffect(w1, e.runId, c);
    var w2 := Cancel(w1, e.runId, c);
    WroteRow(w2, cs[1]);
  }

  lemma InsertStops(w: World, c: Call)
    requires c.InsertRow?
    ensures Do(w, c).stopped == w.stopped
  {
  }

  lemma WroteRow(w: World, c: Call)
    requires c.WriteRow? && c.ok && c.id in w.rows
    ensures Do(w, c).rows == w.rows[c.id := Applied(w.rows[c.id], c.p)]
  {
    hide UpdateProgress, Applied;
    WriteFrame(w, c.id, c.p, true, true);
  }

  const RACE_SPEC: LaunchSpec := LaunchSpec(["gsm8k"], "m", 1, 1, 0, false)
  const RACE_ENV: LaunchEnv :=
    LaunchEnv(Some("t"), true, "r", "", None, true, Started("x", "RUNNING", ""), true, true)
  const RACE_CANCEL: CancelEnv := CancelEnv(true, None, true, true, true, true)

  const RACE_LAUNCH: Event := LaunchEvent(RACE_SPEC, RACE_ENV)
  const RACE_INSERT: Call := InsertRow("r", NewRun("m", ""))
  const RACE_WRITE: Call := WriteRow("r", StartedProgress(RACE_ENV.reply), true, Quiet)

  lemma RaceCalls()
    ensures Calls(RACE_LAUNCH) == [RACE_INSERT, RACE_WRITE] && Unsettles(RACE_WRITE, "r")
  {
    assert TotalSamples(RACE_SPEC) == 1;
    assert Admitted(RACE_SPEC, RACE_ENV) && Recorded(RACE_SPEC, RACE_ENV);
  }

  lemma RaceBegins()
    ensures AllFreshBegins([Begin(RACE_LAUNCH)])
    ensures SystemRun([Begin(RACE_LAUNCH)]) == System(EMPTY, [[RACE_INSERT, RACE_WRITE]])
  {
    RaceCalls();
    hide Calls, Unsettles, Validate;
    var m := Begin(RACE_LAUNCH);
    RunSnoc([], m);
    assert [] + [m] == [m];
  }

  /** The first call of flight j, which leads to no others. */
  lemma FirstCall(s: System, j: nat, c: Call, rest: seq<Call>)
    requires j < |s.flights| && s.flights[j] == [c] + rest && Next(s.world, c) == []
    ensures SystemStep(s, Advance(j)) == System(Do(s.world, c), s.flights[j := rest])
  {
    hide Do, Next;
    assert ([c] + rest)[1..] == rest && [] + rest == rest;
  }

  lemma RaceInserts()
    ensures var moves := [Begin(RACE_LAUNCH)] + [Advance(0)];
            AllFreshBegins(moves) && SystemRun(moves) == System(Create(EMPTY, "r", NewRun("m", "")), [[RACE_WRITE]])
  {
    RaceBegins();
    RunSnoc([Begin(RACE_LAUNCH)], Advance(0));
    var s := System(EMPTY, [[RACE_INSERT, RACE_WRITE]]);
    assert s.flights[0] == [RACE_INSERT] + [RACE_WRITE];
    hide SystemRun, SystemStep, AllFreshBegins, Create, StartedProgress;
    FirstCall(s, 0, RACE_INSERT, [RACE_WRITE]);
    assert FreshBegin(s, Advance(0));
  }

  /** From an empty system: a launch whose row is in, and a cancel that has written to it. */
  lemma LaunchRaceReached() returns (moves: seq<Move>)
    ensures AllFreshBegins(moves)
    ensures var s := SystemRun(moves);
            && "r" in s.world.rows && s.world.rows["r"].status == Cancelled
            && InFlightUnsettling(s, "r")
  {
    hide Unsettles, AllFreshBegins, SystemRun, Without, StartedProgress;
    var w := Create(EMPTY, "r", NewRun("m", ""));
    var a, m, cancel := [Begin(RACE_LAUNCH)] + [Advance(0)], Begin(CancelEvent("r", RACE_CANCEL)), Advance(1);
    RaceInserts();
    RunSnoc(a, m);
    assert SystemRun(a + [m]) == System(w, [[RACE_WRITE], [ReadToCancel("r", RACE_CANCEL)]]);
    assert Unsettles(RACE_WRITE, "r") by { RaceCalls(); }
    CancelGoesOn(w, RACE_WRITE, a + [m]);
    moves := a + [m] + [cancel] + [cancel] + [cancel] + [cancel];
  }

  lemma CancelGoesOn(w: World, write: Call, b: seq<Move>)
    requires AllFreshBegins(b) && SystemRun(b) == System(w, [[write], [ReadToCancel("r", RACE_CANCEL)]])
    requires "r" in w.rows && w.rows["r"] == NewRun("m", "") && Unsettles(write, "r")
    ensures var moves := b + [Advance(1)] + [Advance(1)] + [Advance(1)] + [Advance(1)];
            && AllFreshBegins(moves)
            && "r" in SystemRun(moves).world.rows && SystemRun(moves).world.rows["r"].status == Cancelled
            && InFlightUnsettling(SystemRun(moves), "r")
  {
    hide SystemRun, AllFreshBegins, Unsettles, UpdateProgress;
    var m, run := Advance(1), w.rows["r"];
    var cs := CancelCalls("r", run, RACE_CANCEL);
    assert CanCancel(w, "r", RACE_CANCEL) && |cs| == 4;
    RunSnoc(b, m);
    assert SystemRun(b + [m]) == System(w, [[write], cs]) by {
      assert cs + [ReadToCancel("r", RACE_CANCEL)][1..] == cs;
    }
    RunSnoc(b + [m], m);
    assert SystemRun(b + [m] + [m]) == System(w, [[write], cs[1..]]) by { assert [] + cs[1..] == cs[1..]; }
    RunSnoc(b + [m] + [m], m);
    assert SystemRun(b + [m] + [m] + [m]) == System(w, [[write], cs[2..]]) by {
      assert [] + cs[1..][1..] == cs[2..];
    }
    RunSnoc(b + [m] + [m] + [m], m);
    var s := SystemRun(b + [m] + [m] + [m] + [m]);
    assert cs[2..][0] == cs[2];
    WroteRow(w, cs[2]);
    AppliedKey(w, "r", cs[2].p);
    assert s.world == Do(w, cs[2]) && s.flights[0] == [write];
    assert Unsettles(s.flights[0][0], "r");
    assert MayUnsettle(s.flights[0], "r");
  }
}
