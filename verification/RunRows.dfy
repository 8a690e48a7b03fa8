/** What each operation leaves in the row of its run, field by field, and what it does to
    the run's key, said of the provider's answers and the request. */
module RunRows {
  import Text
  import opened Options
  import opened Runs
  import opened RunSafety

  // ----- A reading

  /** The provider's word for how a run stands is one of these, or anything else. */
  const KNOWN: set<string> := {"PENDING", "COMPLETED", "FAILED", "TIMEOUT", "CANCELLED"}
  const OVER: set<string> := {"COMPLETED", "FAILED", "TIMEOUT", "CANCELLED"}

  /** status is what the provider's word stands for. */
  ghost predicate Means(vendor: string, status: Status)
  {
    && (vendor == "COMPLETED" ==> status == Completed)
    && (vendor == "FAILED" ==> status == Failed)
    && (vendor == "TIMEOUT" ==> status == Failed)
    && (vendor == "CANCELLED" ==> status == Cancelled)
    && (vendor == "PENDING" ==> status == Pending)
    && (vendor !in KNOWN ==> status == Running)
  }

  lemma StatusMeans(vendor: string)
    ensures Means(vendor, NormalizeStatus(vendor))
    ensures Settled(NormalizeStatus(vendor)) <==> vendor in OVER
  {
  }

  /** What is new if it says anything, else what was there. */
  ghost predicate NewOr<T>(now: Option<T>, told: Option<T>, was: Option<T>)
  {
    now == if told.Some? then told else was
  }

  /** The row after a reading was written: status, vendor status, score and error are the
      reading's; metrics, viewer and completion time are its where it has them; the model
      is what it was, and so is the external id if the run was listed with it. */
  ghost predicate Reported(row: Run, run: Run, ev: Evaluation, now: Run)
  {
    && Means(ev.status, now.status)
    && now.externalStatus == ev.status && now.avgScore == ev.avgScore && now.error == ev.error
    && NewOr(now.metrics, ev.metrics, row.metrics) && NewOr(now.completedAt, ev.completedAt, row.completedAt)
    && now.viewerUrl == (if ev.viewerUrl == "" then row.viewerUrl else ev.viewerUrl)
    && now.model == row.model
    && now.externalId == (if run.externalId == "" then row.externalId else run.externalId)
  }

  lemma AppliedRowIs(row: Run, run: Run, reading: Reading)
    requires reading.Read?
    ensures var now := AppliedRow(row, run, reading);
            && (reading.updateOk ==> Reported(row, run, reading.ev, now))
            && (!reading.updateOk ==> now == row.(vkey := now.vkey))
            && now.vkey == (if reading.ev.status in OVER && run.vkey != "" && reading.clearOk then "" else row.vkey)
  {
    hide NormalizeStatus;
    StatusMeans(reading.ev.status);
  }

  /** Folding in a reading of a run as it was listed: what becomes of its row, if it still
      has one, of its key, and whether the observer is told. No other row changes. */
  lemma ApplyIsExact(w: World, id: string, run: Run, ev: Evaluation, revokeOk: bool, clearOk: bool, updateOk: bool,
                     watching: bool)
    ensures var w2 := ApplyStatus(w, id, run, Read(ev, revokeOk, clearOk, updateOk), watching);
            && w2.rows.Keys == w.rows.Keys
            && (forall x :: x in w.rows && x != id ==> w2.rows[x] == w.rows[x])
            && (id in w.rows && updateOk ==> Reported(w.rows[id], run, ev, w2.rows[id]))
            && (id in w.rows && !updateOk ==> w2.rows[id] == w.rows[id].(vkey := w2.rows[id].vkey))
            && (id in w.rows ==>
                  w2.rows[id].vkey == if ev.status in OVER && run.vkey != "" && clearOk then "" else w.rows[id].vkey)
            && w2.live == (if ev.status in OVER && revokeOk && run.vkey != "" then w.live - {run.vkey} else w.live)
            && w2.observed == w.observed + (if Told(w, id, run, ev, updateOk, watching) then [id] else [])
  {
    hide NormalizeStatus, AppliedRow, ApplyStatus;
    var reading := Read(ev, revokeOk, clearOk, updateOk);
    ApplyEffect(w, id, run, reading, watching);
    StatusMeans(ev.status);
    assert w.observed + [] == w.observed;
    if id in w.rows {
      AppliedRowIs(w.rows[id], run, reading);
    }
  }

  /** The reading is final and scored, the run was listed as going on, and its row could be
      written. */
  predicate Told(w: World, id: string, run: Run, ev: Evaluation, updateOk: bool, watching: bool)
  {
    && watching && updateOk && id in w.rows && ev.status in OVER
    && (run.status == Pending || run.status == Running)
    && ev.avgScore.Some? && ev.completedAt.Some? && ev.completedAt.value != ZERO_TIME
  }

  // ----- A pass

  /** The runs waiting to be polled: those pending or running that have an external id. */
  lemma QueueIsExact(w: World, id: string)
    requires TableOk(w)
    ensures id in Queue(w) <==>
            && id in w.rows && (w.rows[id].status == Pending || w.rows[id].status == Running)
            && w.rows[id].externalId != ""
  {
  }

  /** x comes before y. */
  ghost predicate Before(ids: seq<string>, x: string, y: string)
  {
    exists m, n :: 0 <= m < n < |ids| && ids[m] == x && ids[n] == y
  }

  /** A pass polls the first fifty of them, those updated longest ago. */
  lemma BatchIsExact(w: World)
    ensures |Batch(w)| == if |Queue(w)| < 50 then |Queue(w)| else 50
    ensures Batch(w) <= Queue(w)
    ensures forall i, j :: 0 <= i < j < |Queue(w)| ==> Before(w.order, Queue(w)[i], Queue(w)[j])
  {
    hide Pollable, Before;
    forall i, j | 0 <= i < j < |Queue(w)| ensures Before(w.order, Queue(w)[i], Queue(w)[j]) {
      QueueInOrder(w, w.order, i, j);
    }
  }

  lemma BeforeCons(x: string, ids: seq<string>, a: string, b: string)
    requires Before(ids, a, b) || (a == x && b in ids)
    ensures Before([x] + ids, a, b)
  {
    var all := [x] + ids;
    if Before(ids, a, b) {
      var m, n :| 0 <= m < n < |ids| && ids[m] == a && ids[n] == b;
      assert all[m + 1] == a && all[n + 1] == b;
    } else {
      var n :| 0 <= n < |ids| && ids[n] == b;
      assert all[0] == a && all[n + 1] == b;
    }
  }

  lemma {:induction false} QueueInOrder(w: World, ids: seq<string>, i: nat, j: nat)
    requires i < j < |PollableOf(w, ids)|
    ensures Before(ids, PollableOf(w, ids)[i], PollableOf(w, ids)[j])
  {
    hide Pollable, Before;
    var rest, q := PollableOf(w, ids[1..]), PollableOf(w, ids);
    var d := if Pollable(w, ids[0]) then 1 else 0;
    assert ids == [ids[0]] + ids[1..] && q[j] == rest[j - d] && q[j] in rest;
    if d == 0 || i > 0 {
      QueueInOrder(w, ids[1..], i - d, j - d);
    }
    BeforeCons(ids[0], ids[1..], q[i], q[j]);
  }

  /** One pass, run by run: without a token nothing changes; a run of the batch whose
      reading was written has what it reported; one that could not be read, or is not in
      the batch, is as it was. */
  lemma PollIsExact(w: World, token: Option<string>, readings: map<string, Reading>, watching: bool, id: string)
    requires Inv(w) && id in w.rows
    ensures var w2 := PollOnce(w, token, readings, watching);
            var polled := token.Some? && token.value != "" && id in Batch(w) && id in readings && readings[id].Read?;
            && id in w2.rows
            && (token.None? || token.value == "" ==> w2 == w)
            && (!polled ==> w2.rows[id] == w.rows[id])
            && (polled && readings[id].updateOk ==>
                  && Reported(w.rows[id], w.rows[id], readings[id].ev, w2.rows[id])
                  && w2.rows[id].externalId == w.rows[id].externalId)
            && (polled && readings[id].ev.status in OVER && readings[id].clearOk ==> w2.rows[id].vkey == "")
            && (polled && !(readings[id].ev.status in OVER && readings[id].clearOk) ==>
                  w2.rows[id].vkey == w.rows[id].vkey)
            && (polled && !readings[id].updateOk ==> w2.rows[id] == w.rows[id].(vkey := w2.rows[id].vkey))
  {
    hide Inv, PollAll, Batch, AppliedRow, Reported;
    if token.Some? && token.value != "" {
      assert TableOk(w) by { InvTable(w); }
      BatchOk(w);
      PollAllInv(w, Batch(w), readings, watching);
      if id in readings && readings[id].Read? {
        AppliedRowIs(w.rows[id], w.rows[id], readings[id]);
        KeepsId(w.rows[id], readings[id].ev, PolledRow(w.rows[id], readings[id]));
      } else {
        assert PolledRow(w.rows[id], ReadingOf(readings, id)) == w.rows[id] by { UnreadRow(w.rows[id]); }
      }
    }
  }

  lemma KeepsId(row: Run, ev: Evaluation, now: Run)
    ensures Reported(row, row, ev, now) ==> now.externalId == row.externalId
  {
  }

  lemma UnreadRow(row: Run)
    ensures AppliedRow(row, row, Unreachable) == row
  {
  }

  // ----- A launch

  /** The wrapped value is the one 64-bit value that differs by a multiple of 2^64. */
  lemma WrapIs(x: int)
    ensures -0x8000_0000_0000_0000 <= Wrap64(x) < 0x8000_0000_0000_0000
    ensures exists q :: x == Wrap64(x) + q * 0x1_0000_0000_0000_0000
  {
    var m := 0x1_0000_0000_0000_0000;
    var y := x + 0x8000_0000_0000_0000;
    assert y == y % m + (y / m) * m;
    assert x == Wrap64(x) + (y / m) * m;
  }

  /** The request is refused for one of its fields, as the check reads it. */
  predicate BadRequest(s: LaunchSpec)
  {
    || s.environments == [] || (exists i :: 0 <= i < |s.environments| && s.environments[i] == "")
    || s.model == ""
    || s.numExamples < 1 || s.rollouts < 1
    || Wrap64(s.numExamples * s.rollouts) > 2000
    || (s.timeoutMinutes != 0 && (s.timeoutMinutes < 120 || s.timeoutMinutes > 1440))
  }

  lemma ValidateIsExact(s: LaunchSpec)
    ensures Validate(s) <==> !BadRequest(s)
  {
  }

  /** A launch gets past its checks. */
  predicate Passes(s: LaunchSpec, e: LaunchEnv)
  {
    && e.token.Some? && e.token.value != "" && e.teamOk && !BadRequest(s)
    && (s.viaGateway ==> e.gatewayUrl != "" && e.key.Some?)
  }

  /** And its row is inserted: both counts fit their INTEGER columns. */
  predicate Inserted(s: LaunchSpec, e: LaunchEnv)
  {
    Passes(s, e) && e.createOk && s.numExamples < 0x8000_0000 && s.rollouts < 0x8000_0000
  }

  lemma InsertedIs(s: LaunchSpec, e: LaunchEnv)
    ensures Admitted(s, e) <==> Passes(s, e)
    ensures Admitted(s, e) && Recorded(s, e) <==> Inserted(s, e)
  {
    hide Wrap64;
    ValidateIsExact(s);
  }

  /** The row a launch leaves. If the answer was written: a refused one is failed with the
      provider's message, a started one stands as the provider says, with its word for it
      and, if it failed, the error it gave; either has the external id the provider gave.
      If the answer was not written the row is pending, without an external id. */
  ghost predicate Launched(s: LaunchSpec, e: LaunchEnv, row: Run)
  {
    && row.model == s.model && row.vkey == (if s.viaGateway && e.key.Some? then e.key.value else "")
    && row.avgScore.None? && row.metrics.None? && row.viewerUrl == "" && row.completedAt.None?
    && (!e.updateOk ==> row.status == Pending && row.externalId == "" && row.externalStatus == "" && row.error == "")
    && (e.updateOk ==> row.externalId == e.reply.evaluationId)
    && (e.updateOk && e.reply.Refused? ==>
          row.status == Failed && row.error == e.reply.message && row.externalStatus == "")
    && (e.updateOk && e.reply.Started? ==>
          && Means(e.reply.vendorStatus, row.status) && row.externalStatus == e.reply.vendorStatus
          && row.error == if row.status == Failed then Text.TrimSpace(e.reply.vendorError) else "")
  }

  lemma LaunchedRowIs(s: LaunchSpec, vkey: string, e: LaunchEnv)
    requires vkey == if s.viaGateway && e.key.Some? then e.key.value else ""
    ensures Launched(s, e, LaunchedRow(s.model, vkey, e))
  {
    hide NormalizeStatus, Text.TrimSpace;
    if e.reply.Started? {
      StatusMeans(e.reply.vendorStatus);
    }
  }

  /** A launch leaves its row exactly if it gets that far, and changes no other; its key is
      left live exactly if the provider started the run or revoking it failed. */
  lemma LaunchIsExact(w: World, s: LaunchSpec, e: LaunchEnv)
    requires Inv(w) && FreshIds(w, LaunchEvent(s, e))
    ensures var w2 := Launch(w, s, e);
            && (e.runId in w2.rows <==> Inserted(s, e))
            && (Inserted(s, e) ==> Launched(s, e, w2.rows[e.runId]))
            && (forall x :: x in w.rows ==> x in w2.rows && w2.rows[x] == w.rows[x])
            && (forall x :: x in w2.rows && x != e.runId ==> x in w.rows)
            && (!Passes(s, e) ==> w2 == w)
            && w2.live ==
               w.live + (if Passes(s, e) && s.viaGateway && ((Inserted(s, e) && e.reply.Started?) || !e.revokeOk)
                         then {e.key.value} else {})
  {
    hide Validate, LaunchRow, Launched, LaunchedRow, Passes, Inserted, Recorded, NoDup, NoStrayKey, ObservedOnce;
    InsertedIs(s, e);
    if Admitted(s, e) {
      var vkey := if s.viaGateway then e.key.value else "";
      LaunchRowEffect(if s.viaGateway then Mint(w, vkey) else w, s, vkey, e);
      LaunchedRowIs(s, vkey, e);
    }
  }

  /** A launched run waits to be polled exactly if the provider's id was written and the
      provider did not say that it is over. */
  lemma LaunchedQueuedIff(w: World, s: LaunchSpec, e: LaunchEnv)
    requires Inv(w) && FreshIds(w, LaunchEvent(s, e))
    ensures e.runId in Queue(Launch(w, s, e)) <==>
            && Inserted(s, e) && e.updateOk && e.reply.Started? && e.reply.evaluationId != ""
            && e.reply.vendorStatus !in OVER
  {
    hide Inv, Launch, Queue, Inserted, FreshIds, NormalizeStatus;
    LaunchIsExact(w, s, e);
    LaunchInv(w, s, e);
    assert TableOk(Launch(w, s, e)) by { InvTable(Launch(w, s, e)); }
    QueueIsExact(Launch(w, s, e), e.runId);
  }

  // ----- Cancel and Delete

  /** Cancelling a run that is going on: without the provider's token nothing changes if it
      has an external id. Else its key is revoked, and if the row can be written it is
      cancelled, keeps the provider's last word, ids, metrics, viewer and times, and loses
      score and error, and its key reference if that can be cleared. */
  lemma CancelIsExact(w: World, id: string, e: CancelEnv)
    ensures var w2 := Cancel(w, id, e);
            var goes := e.getOk && id in w.rows && (w.rows[id].status == Pending || w.rows[id].status == Running)
                        && (w.rows[id].externalId == "" || (e.token.Some? && e.token.value != ""));
            && (!goes ==> w2 == w)
            && w2.rows.Keys == w.rows.Keys
            && (forall x :: x in w.rows && x != id ==> w2.rows[x] == w.rows[x])
            && (goes && !e.updateOk ==> w2.rows[id] == w.rows[id])
            && (goes && e.updateOk ==>
                  w2.rows[id] == w.rows[id].(status := Cancelled, avgScore := None, error := "",
                                             vkey := if e.clearOk then "" else w.rows[id].vkey))
            && w2.live == (if goes && e.revokeOk && w.rows[id].vkey != "" then w.live - {w.rows[id].vkey} else w.live)
            && w2.stopped == (if goes && e.vendorOk && w.rows[id].externalId != ""
                              then w.stopped + {w.rows[id].externalId} else w.stopped)
            && w2.observed == w.observed
  {
    hide Cancel;
    CancelEffect(w, id, e);
  }

  /** Deleting: a run that is going on is cancelled first, as far as that goes; then its key
      is revoked, and the row goes if it can be removed. */
  lemma DeleteIsExact(w: World, id: string, e: DeleteEnv)
    ensures var w2 := Delete(w, id, e);
            var goes := e.getOk && id in w.rows;
            && (!goes ==> w2 == w)
            && (forall x :: x != id ==> (x in w2.rows <==> x in w.rows))
            && (forall x :: x in w.rows && x != id ==> w2.rows[x] == w.rows[x])
            && (goes ==> (id in w2.rows <==> !e.deleteOk))
            && (goes && e.revokeOk && w.rows[id].vkey != "" ==> w.rows[id].vkey !in w2.live)
            && (goes && (w.rows[id].status == Pending || w.rows[id].status == Running) && id in w2.rows ==>
                  id in Cancel(w, id, e.cancel).rows && w2.rows[id] == Cancel(w, id, e.cancel).rows[id])
            && (goes && w.rows[id].status != Pending && w.rows[id].status != Running && id in w2.rows ==>
                  w2.rows[id] == w.rows[id])
  {
    hide Cancel;
    CancelOthers(w, id, e.cancel);
  }
}
