/** The runner's operations as they run, call by call, against their specification. */
module Runner {
  import opened Options
  import opened Runs
  import opened RunSafety
  import opened RunRows

  datatype Outcome =
    | Done
    | TokenLookupFailed
    | NoToken
    | TeamLookupFailed
    | InvalidRequest
    | MintFailed
    | RecordFailed
    | ProviderRefused
    | NotFound
    | Conflict
    | WriteFailed

  /** How many rows a pass over ids writes. */
  function Written(ids: seq<string>, readings: map<string, Reading>): nat
  {
    if ids == [] then 0
    else
      var r := ReadingOf(readings, ids[|ids|-1]);
      Written(ids[..|ids|-1], readings) + (if r.Read? && r.updateOk then 1 else 0)
  }

  /** The runs among ids whose reading came and could be written. */
  function WrittenRuns(ids: seq<string>, readings: map<string, Reading>): set<string>
  {
    set id | id in ids && id in readings && readings[id].Read? && readings[id].updateOk
  }

  lemma {:induction false} WrittenCounts(ids: seq<string>, readings: map<string, Reading>)
    requires NoDup(ids)
    ensures Written(ids, readings) == |WrittenRuns(ids, readings)|
  {
    if ids != [] {
      var n := |ids| - 1;
      var id, before := ids[n], WrittenRuns(ids[..n], readings);
      WrittenCounts(ids[..n], readings);
      assert ids == ids[..n] + [id] && id !in before;
      var now := WrittenRuns(ids, readings);
      if id in readings && readings[id].Read? && readings[id].updateOk {
        assert now == before + {id};
      } else {
        assert now == before;
      }
    }
  }

  class Runner {
    var world: World

    constructor ()
      ensures world == EMPTY && Inv(world)
    {
      world := EMPTY;
    }

    method Launch(s: LaunchSpec, e: LaunchEnv) returns (r: Outcome)
      modifies this
      ensures world == Runs.Launch(old(world), s, e)
      ensures r == TokenLookupFailed <==> e.token.None?
      ensures r == NoToken <==> e.token == Some("")
      ensures var token := e.token.Some? && e.token.value != "";
              && (r == TeamLookupFailed <==> token && !e.teamOk)
              && (r == InvalidRequest <==>
                    token && e.teamOk && (BadRequest(s) || (s.viaGateway && e.gatewayUrl == "")))
              && (r == MintFailed <==>
                    token && e.teamOk && !BadRequest(s) && s.viaGateway && e.gatewayUrl != "" && e.key.None?)
      ensures r == RecordFailed <==> Passes(s, e) && !Inserted(s, e)
      ensures r == ProviderRefused <==> Inserted(s, e) && e.reply.Refused?
      ensures r == Done <==> Inserted(s, e) && e.reply.Started?
      ensures !Passes(s, e) ==> world == old(world)
    {
      hide Validate, BadRequest;
      ValidateIsExact(s);
      InsertedIs(s, e);
      if e.token.None? {
        return TokenLookupFailed;
      }
      if e.token.value == "" {
        return NoToken;
      }
      if !e.teamOk {
        return TeamLookupFailed;
      }
      if !Validate(s) {
        return InvalidRequest;
      }
      var vkey := "";
      if s.viaGateway {
        if e.gatewayUrl == "" {
          return InvalidRequest;
        }
        if e.key.None? {
          return MintFailed;
        }
        vkey := e.key.value;
        world := Mint(world, vkey);
      }
      if !Recorded(s, e) {
        world := Revoke(world, vkey, e.revokeOk);
        return RecordFailed;
      }
      world := Create(world, e.runId, NewRun(s.model, vkey));
      if e.reply.Refused? {
        world := UpdateProgress(world, e.runId, RefusedProgress(e.reply), e.updateOk);
        world := Revoke(world, vkey, e.revokeOk);
        return ProviderRefused;
      }
      var p := StartedProgress(e.reply);
      world := UpdateProgress(world, e.runId, p, e.updateOk);
      if e.updateOk && Settled(p.status) {
        world := world.(bornSettled := world.bornSettled + {e.runId});
      }
      return Done;
    }

    /** One reading, of a run as it was listed: the key is revoked and its reference
        cleared before the row is written, so a failed write leaves an unsettled row
        without a key. The row may have changed or gone meanwhile. */
    method ApplyStatus(id: string, run: Run, ev: Evaluation, revokeOk: bool, clearOk: bool, updateOk: bool,
                       watching: bool)
      returns (written: bool)
      modifies this
      ensures world == Runs.ApplyStatus(old(world), id, run, Read(ev, revokeOk, clearOk, updateOk), watching)
      ensures written <==> updateOk && id in old(world).rows
    {
      hide NormalizeStatus, Applied;
      var next := PollProgress(run, ev);
      if Settled(next.status) && run.vkey != "" {
        world := Revoke(world, run.vkey, revokeOk);
        world := ClearVKey(world, id, clearOk);
      }
      if !updateOk || id !in world.rows {
        return false;
      }
      world := UpdateProgress(world, id, next, true);
      if watching && Settled(next.status) && !Settled(run.status) && Scored(ev) {
        world := world.(observed := world.observed + [id]);
      }
      return true;
    }

    method PollOnce(token: Option<string>, readings: map<string, Reading>, watching: bool)
      returns (changed: nat)
      requires Inv(world)
      modifies this
      ensures world == Runs.PollOnce(old(world), token, readings, watching)
      ensures Inv(world)
      ensures changed == if HasToken(token) then Written(Batch(old(world)), readings) else 0
      ensures changed == if token.Some? && token.value != "" then |WrittenRuns(Batch(old(world)), readings)| else 0
    {
      hide Inv, Runs.ApplyStatus, PolledRow, Batch, Pollable, NoDup;
      ghost var w := world;
      var runs, listed := Batch(world), world.rows;
      changed := 0;
      PollOnceInv(w, token, readings, watching);
      assert TableOk(w) by { InvTable(w); }
      BatchOk(w);
      if runs == [] || token.None? || token.value == "" {
        return;
      }
      for i := 0 to |runs|
        invariant world == PollAll(w, runs[..i], readings, watching)
        invariant changed == Written(runs[..i], readings)
      {
        var id := runs[i];
        assert runs[..i + 1][..i] == runs[..i];
        var reading := ReadingOf(readings, id);
        match reading
        case Unreachable =>
          assert PollRun(world, id, reading, watching) == world by { PollRunUnreachable(world, id, watching); }
        case Read(ev, revokeOk, clearOk, updateOk) =>
          assert id in world.rows && world.rows[id] == listed[id] by { StillThere(w, runs, i, readings, watching); }
          var written := ApplyStatus(id, listed[id], ev, revokeOk, clearOk, updateOk, watching);
          if written {
            changed := changed + 1;
          }
      }
      assert runs[..|runs|] == runs;
      WrittenCounts(runs, readings);
    }

    method Cancel(id: string, e: CancelEnv) returns (r: Outcome)
      modifies this
      ensures world == Runs.Cancel(old(world), id, e)
      ensures r == NotFound <==> !e.getOk || id !in old(world).rows
      ensures e.getOk && id in old(world).rows ==>
                var run := old(world).rows[id];
                var over := run.status == Completed || run.status == Failed || run.status == Cancelled;
                && (r == Conflict <==> over)
                && (r == TokenLookupFailed <==> !over && run.externalId != "" && e.token.None?)
                && (r == NoToken <==> !over && run.externalId != "" && e.token == Some(""))
      ensures r == WriteFailed <==> CanCancel(old(world), id, e) && !e.updateOk
      ensures r == Done <==> CanCancel(old(world), id, e) && e.updateOk
    {
      if !e.getOk || id !in world.rows {
        return NotFound;
      }
      var run := world.rows[id];
      if Settled(run.status) {
        return Conflict;
      }
      if run.externalId != "" {
        if e.token.None? {
          return TokenLookupFailed;
        }
        if e.token.value == "" {
          return NoToken;
        }
      }
      world := Stop(world, run.externalId, e.vendorOk);
      world := Revoke(world, run.vkey, e.revokeOk);
      if !e.updateOk {
        return WriteFailed;
      }
      world := UpdateProgress(world, id, CancelProgress(run), true);
      world := ClearVKey(world, id, e.clearOk);
      return Done;
    }

    method Delete(id: string, e: DeleteEnv) returns (r: Outcome)
      modifies this
      ensures world == Runs.Delete(old(world), id, e)
      ensures r == NotFound <==> !e.getOk || id !in old(world).rows
      ensures r == WriteFailed <==> e.getOk && id in old(world).rows && !e.deleteOk
      ensures r == Done <==> e.getOk && id in old(world).rows && e.deleteOk
      ensures r == Done ==> id !in world.rows
    {
      hide Runs.Cancel;
      if !e.getOk || id !in world.rows {
        return NotFound;
      }
      var run := world.rows[id];
      if !Settled(run.status) {
        var _ := Cancel(id, e.cancel);
      }
      world := Revoke(world, run.vkey, e.revokeOk);
      world := DeleteRow(world, id, e.deleteOk);
      return if e.deleteOk then Done else WriteFailed;
    }
  }

  lemma StillThere(w: World, ids: seq<string>, i: nat, readings: map<string, Reading>, watching: bool)
    requires Inv(w) && NoDup(ids) && i < |ids|
    requires forall j :: 0 <= j < |ids| ==> Pollable(w, ids[j])
    ensures var w2 := PollAll(w, ids[..i], readings, watching);
            ids[i] in w.rows && ids[i] in w2.rows && w2.rows[ids[i]] == w.rows[ids[i]]
  {
    hide Inv, PollAll, PolledRow, ReadingOf;
    PollAllInv(w, ids[..i], readings, watching);
  }
}
