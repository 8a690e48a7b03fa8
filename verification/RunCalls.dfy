/** The runner's operations as sequences of store, key and provider calls. */
module RunCalls {
  import opened Options
  import opened Runs
  import opened RunSafety

  /** What a write of a row means for the history: nothing, a call of the drift observer, a
      run that came back settled from its own create call. */
  datatype Note = Quiet | Observing | Born

  datatype Call =
    | InsertRow(id: string, run: Run)
    | WriteRow(id: string, p: Progress, ok: bool, note: Note)
    | ClearRef(id: string, ok: bool)
    | RemoveRow(id: string, ok: bool)
    | RevokeKey(key: string, ok: bool)
    | StopJob(externalId: string, ok: bool)
    | ReadToCancel(id: string, cancel: CancelEnv)
    | ReadToDelete(id: string, delete: DeleteEnv)
    | ListToPoll(token: Option<string>, readings: map<string, Reading>, watching: bool)

  /** The effect of a call on the store and the keys. */
  function Do(w: World, c: Call): World
  {
    match c
    case InsertRow(id, run) => Create(w, id, run)
    case WriteRow(id, p, ok, note) => Noted(UpdateProgress(w, id, p, ok), id, ok && id in w.rows, note)
    case ClearRef(id, ok) => ClearVKey(w, id, ok)
    case RemoveRow(id, ok) => DeleteRow(w, id, ok)
    case RevokeKey(key, ok) => Revoke(w, key, ok)
    case StopJob(externalId, ok) => Stop(w, externalId, ok)
    case _ => w
  }

  function Noted(w: World, id: string, written: bool, note: Note): World
  {
    if written && note.Observing? then w.(observed := w.observed + [id])
    else if written && note.Born? then w.(bornSettled := w.bornSettled + {id})
    else w
  }

  /** The calls that what was read leads to, in front of those still to come. */
  function Next(w: World, c: Call): seq<Call>
  {
    match c
    case ReadToCancel(id, e) => if CanCancel(w, id, e) then CancelCalls(id, w.rows[id], e) else []
    case ReadToDelete(id, e) => if e.getOk && id in w.rows then DeleteCalls(id, w.rows[id], e) else []
    case ListToPoll(token, readings, watching) =>
      if HasToken(token) then PollCalls(w, Batch(w), readings, watching) else []
    case _ => []
  }

  function CancelCalls(id: string, run: Run, e: CancelEnv): seq<Call>
  {
    [StopJob(run.externalId, e.vendorOk), RevokeKey(run.vkey, e.revokeOk),
     WriteRow(id, CancelProgress(run), e.updateOk, Quiet)]
    + if e.updateOk then [ClearRef(id, e.clearOk)] else []
  }

  function DeleteCalls(id: string, run: Run, e: DeleteEnv): seq<Call>
  {
    (if Settled(run.status) then [] else [ReadToCancel(id, e.cancel)])
    + [RevokeKey(run.vkey, e.revokeOk), RemoveRow(id, e.deleteOk)]
  }

  function ApplyCalls(id: string, run: Run, reading: Reading, watching: bool): seq<Call>
  {
    if reading.Unreachable? then []
    else
      var next := PollProgress(run, reading.ev);
      var observing := watching && Settled(next.status) && !Settled(run.status) && Scored(reading.ev);
      (if Settled(next.status) && run.vkey != ""
       then [RevokeKey(run.vkey, reading.revokeOk), ClearRef(id, reading.clearOk)] else [])
      + [WriteRow(id, next, reading.updateOk, if observing then Observing else Quiet)]
  }

  function PollCalls(w: World, ids: seq<string>, readings: map<string, Reading>, watching: bool): seq<Call>
  {
    if ids == [] then []
    else
      var id := ids[|ids|-1];
      PollCalls(w, ids[..|ids|-1], readings, watching)
      + if id in w.rows then ApplyCalls(id, w.rows[id], ReadingOf(readings, id), watching) else []
  }

  /** A launch once its key is minted. */
  function LaunchCalls(s: LaunchSpec, e: LaunchEnv): seq<Call>
  {
    if !Admitted(s, e) then []
    else
      var vkey := if s.viaGateway then e.key.value else "";
      if !Recorded(s, e) then [RevokeKey(vkey, e.revokeOk)]
      else
        [InsertRow(e.runId, NewRun(s.model, vkey))]
        + if e.reply.Refused?
          then [WriteRow(e.runId, RefusedProgress(e.reply), e.updateOk, Quiet), RevokeKey(vkey, e.revokeOk)]
          else
            var p := StartedProgress(e.reply);
            [WriteRow(e.runId, p, e.updateOk, if Settled(p.status) then Born else Quiet)]
  }

  /** The first call of a launch that changes anything. */
  function Minted(w: World, e: Event): World
  {
    if e.LaunchEvent? && Admitted(e.spec, e.launch) && e.spec.viaGateway then Mint(w, e.launch.key.value) else w
  }

  function Calls(e: Event): seq<Call>
  {
    match e
    case LaunchEvent(s, env) => LaunchCalls(s, env)
    case PollEvent(token, readings, watching) => [ListToPoll(token, readings, watching)]
    case CancelEvent(id, env) => [ReadToCancel(id, env)]
    case DeleteEvent(id, env) => [ReadToDelete(id, env)]
  }

  // ----- An operation alone is the operation

  function Weight(c: Call): nat
  {
    match c
    case ReadToCancel(_, _) => 5
    case ReadToDelete(_, _) => 8
    case ListToPoll(_, _, _) => 3 * POLL_BATCH + 1
    case _ => 1
  }

  function Total(cs: seq<Call>): nat
  {
    if cs == [] then 0 else Weight(cs[0]) + Total(cs[1..])
  }

  lemma {:induction false} TotalApp(a: seq<Call>, b: seq<Call>)
    ensures Total(a + b) == Total(a) + Total(b)
  {
    if a == [] {
      assert a + b == b;
    } else {
      TotalApp(a[1..], b);
      assert (a + b)[1..] == a[1..] + b;
    }
  }

  lemma {:induction false} PollTotal(w: World, ids: seq<string>, readings: map<string, Reading>, watching: bool)
    ensures Total(PollCalls(w, ids, readings, watching)) <= 3 * |ids|
  {
    if ids != [] {
      var n := |ids| - 1;
      var id := ids[n];
      PollTotal(w, ids[..n], readings, watching);
      if id in w.rows {
        ApplyTotal(id, w.rows[id], ReadingOf(readings, id), watching);
        TotalApp(PollCalls(w, ids[..n], readings, watching),
                 ApplyCalls(id, w.rows[id], ReadingOf(readings, id), watching));
      } else {
        assert PollCalls(w, ids, readings, watching) == PollCalls(w, ids[..n], readings, watching);
      }
    }
  }

  lemma {:induction false} PlainTotal(cs: seq<Call>)
    requires forall i :: 0 <= i < |cs| ==> Weight(cs[i]) == 1
    ensures Total(cs) == |cs|
  {
    if cs != [] {
      PlainTotal(cs[1..]);
    }
  }

  lemma ApplyTotal(id: string, run: Run, reading: Reading, watching: bool)
    ensures Total(ApplyCalls(id, run, reading, watching)) <= 3
  {
    hide NormalizeStatus;
    PlainTotal(ApplyCalls(id, run, reading, watching));
  }

  lemma NextLighter(w: World, c: Call)
    ensures Total(Next(w, c)) < Weight(c)
  {
    hide Batch, PollCalls;
    match c
    case ReadToCancel(_, _) => PlainTotal(Next(w, c));
    case ReadToDelete(id, e) =>
      if e.getOk && id in w.rows {
        var cs := DeleteCalls(id, w.rows[id], e);
        var n := |cs| - 2;
        assert cs == cs[..n] + cs[n..];
        TotalApp(cs[..n], cs[n..]);
        PlainTotal(cs[n..]);
        assert n == 0 || cs[..n] == [ReadToCancel(id, e.cancel)];
      }
    case ListToPoll(_, readings, watching) =>
      BatchSize(w);
      PollTotal(w, Batch(w), readings, watching);
    case _ =>
  }

  lemma BatchSize(w: World)
    ensures |Batch(w)| <= POLL_BATCH
  {
  }

  /** The calls run to the end with nothing in between. */
  function Alone(w: World, cs: seq<Call>): World
    decreases Total(cs)
  {
    if cs == [] then w
    else
      NextLighter(w, cs[0]);
      TotalApp(Next(w, cs[0]), cs[1..]);
      Alone(Do(w, cs[0]), Next(w, cs[0]) + cs[1..])
  }

  lemma {:induction false} AloneApp(w: World, a: seq<Call>, b: seq<Call>)
    ensures Alone(w, a + b) == Alone(Alone(w, a), b)
    decreases Total(a)
  {
    hide Do, Next, Weight;
    if a == [] {
      assert a + b == b;
    } else {
      var c, more := a[0], Next(w, a[0]);
      NextLighter(w, c);
      TotalApp(more, a[1..]);
      assert (a + b)[0] == c && more + (a + b)[1..] == (more + a[1..]) + b;
      AloneApp(Do(w, c), more + a[1..], b);
    }
  }

  /** A call that reads nothing. */
  lemma AloneOne(w: World, c: Call)
    ensures Alone(w, [c]) == Alone(Do(w, c), Next(w, c))
    ensures !(c.ReadToCancel? || c.ReadToDelete? || c.ListToPoll?) ==> Alone(w, [c]) == Do(w, c)
  {
    hide Do;
    assert [c][1..] == [];
    assert Next(w, c) + [] == Next(w, c);
  }

  lemma AloneTwo(w: World, a: Call, b: Call)
    ensures Alone(w, [a, b]) == Alone(Alone(w, [a]), [b])
  {
    assert [a, b] == [a] + [b];
    AloneApp(w, [a], [b]);
  }

  lemma CancelAlone(w: World, id: string, e: CancelEnv)
    ensures Alone(w, [ReadToCancel(id, e)]) == Cancel(w, id, e)
  {
    hide Alone, UpdateProgress, ClearVKey, Revoke, Stop, CancelProgress;
    AloneOne(w, ReadToCancel(id, e));
    if CanCancel(w, id, e) {
      var run := w.rows[id];
      var stop, revoke := StopJob(run.externalId, e.vendorOk), RevokeKey(run.vkey, e.revokeOk);
      var write, clear := WriteRow(id, CancelProgress(run), e.updateOk, Quiet), ClearRef(id, e.clearOk);
      var tail := if e.updateOk then [clear] else [];
      assert Next(w, ReadToCancel(id, e)) == [stop, revoke] + ([write] + tail);
      var w1 := Revoke(Stop(w, run.externalId, e.vendorOk), run.vkey, e.revokeOk);
      AloneApp(w, [stop, revoke], [write] + tail);
      AloneTwo(w, stop, revoke);
      AloneOne(w, stop);
      AloneOne(Do(w, stop), revoke);
      AloneApp(w1, [write], tail);
      AloneOne(w1, write);
      AloneOne(Do(w1, write), clear);
      assert Alone(Do(w1, write), []) == Do(w1, write) by { AloneNone(Do(w1, write)); }
    } else {
      AloneNone(w);
    }
  }

  lemma AloneNone(w: World)
    ensures Alone(w, []) == w
  {
  }

  lemma DeleteAlone(w: World, id: string, e: DeleteEnv)
    ensures Alone(w, [ReadToDelete(id, e)]) == Delete(w, id, e)
  {
    hide Alone, Cancel, Revoke, DeleteRow;
    AloneOne(w, ReadToDelete(id, e));
    if e.getOk && id in w.rows {
      var run := w.rows[id];
      var cancel := if Settled(run.status) then [] else [ReadToCancel(id, e.cancel)];
      var revoke, remove := RevokeKey(run.vkey, e.revokeOk), RemoveRow(id, e.deleteOk);
      AloneApp(w, cancel, [revoke, remove]);
      CancelAlone(w, id, e.cancel);
      AloneNone(w);
      var w1 := if Settled(run.status) then w else Cancel(w, id, e.cancel);
      AloneTwo(w1, revoke, remove);
      AloneOne(w1, revoke);
      AloneOne(Do(w1, revoke), remove);
    } else {
      AloneNone(w);
    }
  }

  lemma ApplyAlone(w: World, id: string, run: Run, reading: Reading, watching: bool)
    ensures Alone(w, ApplyCalls(id, run, reading, watching)) == ApplyStatus(w, id, run, reading, watching)
  {
    hide Alone, UpdateProgress, ClearVKey, Revoke, NormalizeStatus, Settled;
    if reading.Unreachable? {
      AloneNone(w);
    } else {
      var next := PollProgress(run, reading.ev);
      var revoke, clear := RevokeKey(run.vkey, reading.revokeOk), ClearRef(id, reading.clearOk);
      var cs := ApplyCalls(id, run, reading, watching);
      var write := cs[|cs|-1];
      var freeing := if Settled(next.status) && run.vkey != "" then [revoke, clear] else [];
      assert cs == freeing + [write];
      AloneApp(w, freeing, [write]);
      AloneNone(w);
      AloneTwo(w, revoke, clear);
      AloneOne(w, revoke);
      AloneOne(Do(w, revoke), clear);
      var w1 := if Settled(next.status) && run.vkey != "" then Do(Do(w, revoke), clear) else w;
      AloneOne(w1, write);
      assert id in w1.rows <==> id in w.rows by {
        WriteFrame(Revoke(w, run.vkey, reading.revokeOk), id, next, true, reading.clearOk);
        RevokeFrame(w, run.vkey, reading.revokeOk);
      }
    }
  }

  lemma RevokeFrame(w: World, k: string, ok: bool)
    ensures Revoke(w, k, ok).rows == w.rows && Revoke(w, k, ok).used == w.used
  {
  }

  lemma {:induction false} PollAlone(
    w: World, ids: seq<string>, readings: map<string, Reading>, watching: bool)
    requires Inv(w) && NoDup(ids)
    requires forall i :: 0 <= i < |ids| ==> Pollable(w, ids[i])
    ensures Alone(w, PollCalls(w, ids, readings, watching)) == PollAll(w, ids, readings, watching)
  {
    hide Alone, Inv, ApplyCalls, ApplyStatus, PolledRow, Settled, ReadingOf;
    if ids == [] {
      AloneNone(w);
    } else {
      var n := |ids| - 1;
      var id, before := ids[n], PollAll(w, ids[..n], readings, watching);
      var reading := ReadingOf(readings, id);
      PollAlone(w, ids[..n], readings, watching);
      PollAllInv(w, ids[..n], readings, watching);
      assert id !in ids[..n] && before.rows[id] == w.rows[id];
      AloneApp(w, PollCalls(w, ids[..n], readings, watching), ApplyCalls(id, w.rows[id], reading, watching));
      ApplyAlone(before, id, w.rows[id], reading, watching);
    }
  }

  lemma LaunchAlone(w: World, s: LaunchSpec, e: LaunchEnv)
    ensures Alone(Minted(w, LaunchEvent(s, e)), LaunchCalls(s, e)) == Launch(w, s, e)
  {
    hide Alone, UpdateProgress, Revoke, Validate, StartedProgress, RefusedProgress, Create, Recorded;
    var w0 := Minted(w, LaunchEvent(s, e));
    AloneNone(w0);
    if Admitted(s, e) {
      var vkey := if s.viaGateway then e.key.value else "";
      var revoke, insert := RevokeKey(vkey, e.revokeOk), InsertRow(e.runId, NewRun(s.model, vkey));
      AloneOne(w0, revoke);
      if Recorded(s, e) {
        var cs := LaunchCalls(s, e);
        var w1 := Do(w0, insert);
        assert cs == [insert] + cs[1..];
        AloneApp(w0, [insert], cs[1..]);
        AloneOne(w0, insert);
        AloneOne(w1, cs[1]);
        assert e.runId in w1.rows by { Inserted(w0, e.runId, NewRun(s.model, vkey)); }
        if e.reply.Refused? {
          assert cs[1..] == [cs[1], revoke];
          AloneTwo(w1, cs[1], revoke);
          AloneOne(Do(w1, cs[1]), revoke);
        } else {
          assert cs[1..] == [cs[1]];
        }
      }
    }
  }

  lemma Inserted(w: World, id: string, run: Run)
    ensures id in Create(w, id, run).rows
  {
  }

  /** With nothing in between, the calls of an operation do what the operation does. */
  lemma CallsAloneAreTheOperation(w: World, e: Event)
    requires Inv(w)
    ensures Alone(Minted(w, e), Calls(e)) == Step(w, e)
  {
    hide Alone, Launch, Cancel, Delete, Inv, LaunchCalls, Batch, PollCalls, PollAll;
    match e
    case LaunchEvent(s, env) => LaunchAlone(w, s, env);
    case CancelEvent(id, env) => CancelAlone(w, id, env);
    case DeleteEvent(id, env) => DeleteAlone(w, id, env);
    case PollEvent(token, readings, watching) =>
      AloneOne(w, ListToPoll(token, readings, watching));
      AloneNone(w);
      if HasToken(token) {
        assert TableOk(w) by { InvTable(w); }
        BatchOk(w);
        PollAlone(w, Batch(w), readings, watching);
      }
  }

  // ----- The key goes first

  /** The call settles or removes row id, or makes it forget its key. */
  ghost predicate Closes(c: Call, id: string)
  {
    || (c.WriteRow? && c.id == id && Settled(c.p.status))
    || (c.ClearRef? && c.id == id)
    || (c.RemoveRow? && c.id == id)
  }

  ghost predicate Tries(cs: seq<Call>, k: string)
  {
    exists i :: 0 <= i < |cs| && cs[i].RevokeKey? && cs[i].key == k
  }

  /** Before a call that closes a row comes the revocation of the key it had when read. */
  ghost predicate KeyFirst(w: World, cs: seq<Call>)
  {
    forall i, id :: 0 <= i < |cs| && Closes(cs[i], id) && id in w.rows && w.rows[id].vkey != "" ==>
      Tries(cs[..i], w.rows[id].vkey)
  }

  lemma TriesMore(a: seq<Call>, b: seq<Call>, k: string)
    requires Tries(a, k) || Tries(b, k)
    ensures Tries(a + b, k)
  {
    if i :| 0 <= i < |a| && a[i].RevokeKey? && a[i].key == k {
      assert (a + b)[i] == a[i];
    } else {
      var i :| 0 <= i < |b| && b[i].RevokeKey? && b[i].key == k;
      assert (a + b)[|a| + i] == b[i];
    }
  }

  lemma KeyFirstApp(w: World, a: seq<Call>, b: seq<Call>)
    requires KeyFirst(w, a) && KeyFirst(w, b)
    ensures KeyFirst(w, a + b)
  {
    hide Closes, Tries;
    var cs := a + b;
    forall i, id | 0 <= i < |cs| && Closes(cs[i], id) && id in w.rows && w.rows[id].vkey != ""
      ensures Tries(cs[..i], w.rows[id].vkey)
    {
      if i < |a| {
        assert cs[..i] == a[..i] && Closes(a[i], id);
      } else {
        assert cs[..i] == a + b[..i - |a|] && Closes(b[i - |a|], id);
        TriesMore(a, b[..i - |a|], w.rows[id].vkey);
      }
    }
  }

  lemma ApplyKeyFirst(w: World, id: string, reading: Reading, watching: bool)
    requires id in w.rows
    ensures KeyFirst(w, ApplyCalls(id, w.rows[id], reading, watching))
  {
    hide NormalizeStatus;
    var cs := ApplyCalls(id, w.rows[id], reading, watching);
    forall i, x | 0 <= i < |cs| && Closes(cs[i], x) && x in w.rows && w.rows[x].vkey != ""
      ensures Tries(cs[..i], w.rows[x].vkey)
    {
      assert cs[..i][0] == RevokeKey(w.rows[id].vkey, reading.revokeOk);
    }
  }

  lemma {:induction false} PollKeyFirst(w: World, ids: seq<string>, readings: map<string, Reading>, watching: bool)
    ensures KeyFirst(w, PollCalls(w, ids, readings, watching))
  {
    hide KeyFirst, ApplyCalls;
    if ids == [] {
      NoneKeyFirst(w);
    } else {
      var n := |ids| - 1;
      var before := PollCalls(w, ids[..n], readings, watching);
      PollKeyFirst(w, ids[..n], readings, watching);
      if ids[n] in w.rows {
        ApplyKeyFirst(w, ids[n], ReadingOf(readings, ids[n]), watching);
        KeyFirstApp(w, before, ApplyCalls(ids[n], w.rows[ids[n]], ReadingOf(readings, ids[n]), watching));
      } else {
        assert before + [] == before;
      }
    }
  }

  lemma NoneKeyFirst(w: World)
    ensures KeyFirst(w, [])
  {
  }

  /** Polls, cancels and deletes revoke a run's key before they settle or remove its row or
      make it forget the key, so that stopping after any call leaves no closed row whose
      key was not tried; and a cancel asks the provider to stop before all that. */
  lemma KeyGoesFirst(w: World, c: Call)
    ensures KeyFirst(w, Next(w, c))
    ensures c.ReadToCancel? && Next(w, c) != [] ==>
              c.id in w.rows && Next(w, c)[0] == StopJob(w.rows[c.id].externalId, c.cancel.vendorOk)
  {
    hide PollCalls, Batch, KeyFirst, CanCancel;
    NoneKeyFirst(w);
    match c
    case ReadToCancel(id, e) =>
      if CanCancel(w, id, e) {
        Cancellable(w, id, e);
        CancelKeyFirst(w, id, e);
      }
    case ReadToDelete(id, e) =>
      if e.getOk && id in w.rows {
        DeleteKeyFirst(w, id, e);
      }
    case ListToPoll(_, readings, watching) => PollKeyFirst(w, Batch(w), readings, watching);
    case _ =>
  }

  lemma CancelKeyFirst(w: World, id: string, e: CancelEnv)
    requires id in w.rows
    ensures KeyFirst(w, CancelCalls(id, w.rows[id], e))
  {
    var cs := CancelCalls(id, w.rows[id], e);
    forall i, x | 0 <= i < |cs| && Closes(cs[i], x) && x in w.rows && w.rows[x].vkey != ""
      ensures Tries(cs[..i], w.rows[x].vkey)
    {
      assert cs[..i][1] == RevokeKey(w.rows[id].vkey, e.revokeOk);
    }
  }

  lemma DeleteKeyFirst(w: World, id: string, e: DeleteEnv)
    requires id in w.rows
    ensures KeyFirst(w, DeleteCalls(id, w.rows[id], e))
  {
    var cs := DeleteCalls(id, w.rows[id], e);
    forall i, x | 0 <= i < |cs| && Closes(cs[i], x) && x in w.rows && w.rows[x].vkey != ""
      ensures Tries(cs[..i], w.rows[x].vkey)
    {
      assert i == |cs| - 1 && cs[..i][i - 1] == RevokeKey(w.rows[id].vkey, e.revokeOk);
    }
  }
}
