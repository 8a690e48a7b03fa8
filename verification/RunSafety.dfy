/** What every history of runner operations keeps, whatever calls fail on the way. */
module RunSafety {
  import opened Options
  import opened Runs

  // ----- The invariants

  ghost predicate NoDup(ids: seq<string>)
  {
    forall i, j :: 0 <= i < j < |ids| ==> ids[i] != ids[j]
  }

  /** The updated_at order lists exactly the rows, each once; ids are never empty. */
  ghost predicate TableOk(w: World)
  {
    && NoDup(w.order)
    && (forall id :: id in w.order <==> id in w.rows)
    && w.rows.Keys <= w.used
    && "" !in w.used
  }

  /** Rows refer to minted keys, no two to the same one. */
  ghost predicate KeyRefsOk(w: World)
  {
    && "" !in w.minted
    && w.live <= w.minted && w.refused <= w.minted
    && (forall id :: id in w.rows && w.rows[id].vkey != "" ==> w.rows[id].vkey in w.minted)
    && (forall i, j :: i in w.rows && j in w.rows && i != j && w.rows[i].vkey != "" ==>
          w.rows[i].vkey != w.rows[j].vkey)
  }

  /** Row id holds key k and has a reason to: it is unsettled, or came back settled
      from its own create call. */
  ghost predicate Holds(w: World, id: string, k: string)
  {
    id in w.rows && w.rows[id].vkey == k && (!Settled(w.rows[id].status) || id in w.bornSettled)
  }

  /** Every live key is held by a row, or its revocation was tried and refused. */
  ghost predicate NoStrayKey(w: World)
  {
    forall k :: k in w.live ==> k in w.refused || exists id :: Holds(w, id, k)
  }

  /** No run is observed twice, and an observed run that still exists is settled. */
  ghost predicate ObservedOnce(w: World)
  {
    && NoDup(w.observed)
    && forall id :: id in w.observed ==> id in w.used && (id in w.rows ==> Settled(w.rows[id].status))
  }

  ghost predicate Inv(w: World)
  {
    TableOk(w) && KeyRefsOk(w) && NoStrayKey(w) && ObservedOnce(w)
  }

  // ----- Sequences of ids

  lemma NoDupCons(x: string, ids: seq<string>)
    ensures NoDup([x] + ids) <==> x !in ids && NoDup(ids)
  {
    var s := [x] + ids;
    if NoDup(s) {
      forall i | 0 <= i < |ids| ensures ids[i] != x {
        assert s[0] == x && s[i + 1] == ids[i];
      }
      forall i, j | 0 <= i < j < |ids| ensures ids[i] != ids[j] {
        assert s[i + 1] == ids[i] && s[j + 1] == ids[j];
      }
    }
  }

  lemma NoDupSnoc(ids: seq<string>, x: string)
    requires NoDup(ids) && x !in ids
    ensures NoDup(ids + [x])
  {
  }

  lemma {:induction false} WithoutMembers(ids: seq<string>, id: string)
    ensures forall x :: x in Without(ids, id) <==> x in ids && x != id
    ensures NoDup(ids) ==> NoDup(Without(ids, id))
  {
    if ids != [] {
      WithoutMembers(ids[1..], id);
      assert ids == [ids[0]] + ids[1..];
      NoDupCons(ids[0], ids[1..]);
      NoDupCons(ids[0], Without(ids[1..], id));
    }
  }

  lemma {:induction false} PollableNoDup(w: World, ids: seq<string>)
    requires NoDup(ids)
    ensures NoDup(PollableOf(w, ids))
  {
    if ids != [] {
      PollableNoDup(w, ids[1..]);
      assert ids[0] !in ids[1..];
    }
  }

  // ----- The table under each call

  lemma TouchedTable(w: World, id: string, row: Run)
    requires TableOk(w) && id in w.used
    ensures TableOk(Touched(w, id, row))
  {
    WithoutMembers(w.order, id);
    NoDupSnoc(Without(w.order, id), id);
  }

  lemma WriteTable(w: World, id: string, p: Progress, ok: bool)
    requires TableOk(w)
    ensures TableOk(UpdateProgress(w, id, p, ok)) && TableOk(ClearVKey(w, id, ok))
  {
    hide Without, NoDup, Applied;
    if ok && id in w.rows {
      TouchedTable(w, id, Applied(w.rows[id], p));
      TouchedTable(w, id, w.rows[id].(vkey := ""));
    }
  }

  lemma LaunchTable(w: World, s: LaunchSpec, e: LaunchEnv)
    requires TableOk(w) && FreshIds(w, LaunchEvent(s, e))
    ensures TableOk(Launch(w, s, e))
  {
    hide Validate, Without, NormalizeStatus, NoDup;
    if Admitted(s, e) && Recorded(s, e) {
      var w0 := if s.viaGateway then Mint(w, e.key.value) else w;
      var row := NewRun(s.model, if s.viaGateway then e.key.value else "");
      TouchedTable(w0.(used := w0.used + {e.runId}), e.runId, row);
      var w1 := Create(w0, e.runId, row);
      var p := if e.reply.Started? then StartedProgress(e.reply) else RefusedProgress(e.reply);
      TouchedTable(w1, e.runId, Applied(row, p));
    }
  }

  lemma ApplyTable(w: World, id: string, run: Run, reading: Reading, watching: bool)
    requires TableOk(w)
    ensures TableOk(ApplyStatus(w, id, run, reading, watching))
  {
    hide NormalizeStatus, NoDup, Observes, UpdateProgress, ClearVKey;
    if reading.Read? {
      var p := PollProgress(run, reading.ev);
      var w0 := Revoke(w, run.vkey, reading.revokeOk);
      WriteTable(w, id, p, reading.updateOk);
      WriteTable(w0, id, p, reading.clearOk);
      WriteTable(ClearVKey(w0, id, reading.clearOk), id, p, reading.updateOk);
    }
  }

  lemma CancelTable(w: World, id: string, e: CancelEnv)
    requires TableOk(w)
    ensures TableOk(Cancel(w, id, e))
  {
    hide NoDup, UpdateProgress, ClearVKey;
    if CanCancel(w, id, e) {
      var run := w.rows[id];
      var w0 := Revoke(Stop(w, run.externalId, e.vendorOk), run.vkey, e.revokeOk);
      WriteTable(w0, id, CancelProgress(run), e.updateOk);
      WriteTable(UpdateProgress(w0, id, CancelProgress(run), e.updateOk), id, CancelProgress(run), e.clearOk);
    }
  }

  lemma DeleteTable(w: World, id: string, e: DeleteEnv)
    requires TableOk(w)
    ensures TableOk(Delete(w, id, e))
  {
    hide Cancel;
    CancelTable(w, id, e.cancel);
    WithoutMembers(w.order, id);
    WithoutMembers(Cancel(w, id, e.cancel).order, id);
  }

  // ----- Keys under each call

  /** w2 differs from w only in row id, which is left without a reason to hold its key
      only after an attempt to revoke it; history grows. */
  ghost predicate KeySafeStep(w: World, w2: World, id: string)
  {
    && w2.minted == w.minted && w2.live <= w.live && w.refused <= w2.refused
    && w.bornSettled <= w2.bornSettled
    && (forall k :: k in w2.refused ==> k in w.refused || (k != "" && id in w.rows && k == w.rows[id].vkey))
    && (forall x :: x in w2.rows ==> x in w.rows && (w2.rows[x].vkey == "" || w2.rows[x].vkey == w.rows[x].vkey))
    && (forall x :: x in w.rows && x != id ==> x in w2.rows && w2.rows[x] == w.rows[x])
    && (forall k :: k in w2.live && Holds(w, id, k) ==> k in w2.refused || Holds(w2, id, k))
  }

  lemma KeySafeStepKeeps(w: World, w2: World, id: string)
    requires KeyRefsOk(w) && NoStrayKey(w) && KeySafeStep(w, w2, id)
    ensures KeyRefsOk(w2) && NoStrayKey(w2)
  {
    forall k | k in w2.live ensures k in w2.refused || exists x :: Holds(w2, x, k) {
      if k !in w.refused {
        var x :| Holds(w, x, k);
        if x != id {
          assert Holds(w2, x, k);
        }
      }
    }
  }

  /** What a reading of a run does to its row as it is by then. */
  function AppliedRow(row: Run, run: Run, reading: Reading): Run
  {
    if reading.Unreachable? then row
    else
      var p := PollProgress(run, reading.ev);
      var r := if Settled(p.status) && run.vkey != "" && reading.clearOk then row.(vkey := "") else row;
      if reading.updateOk then Applied(r, p) else r
  }

  function PolledRow(run: Run, reading: Reading): Run
  {
    AppliedRow(run, run, reading)
  }

  /** The writes to one row leave the keys, the history and the other rows alone. */
  lemma WriteFrame(w: World, id: string, p: Progress, ok: bool, clearOk: bool)
    ensures var w1 := ClearVKey(w, id, clearOk);
            w1 == w.(rows := w1.rows, order := w1.order)
            && w1.rows == (if clearOk && id in w.rows then w.rows[id := w.rows[id].(vkey := "")] else w.rows)
    ensures var w2 := UpdateProgress(w, id, p, ok);
            w2 == w.(rows := w2.rows, order := w2.order)
            && w2.rows == (if ok && id in w.rows then w.rows[id := Applied(w.rows[id], p)] else w.rows)
  {
    hide Without, Applied;
  }

  lemma UnreadUnobserved(w: World, id: string, run: Run, watching: bool)
    ensures !Observes(w, id, run, Unreachable, watching)
  {
  }

  /** The whole effect of folding a reading in, but for the order of updates. */
  lemma ApplyEffect(w: World, id: string, run: Run, reading: Reading, watching: bool)
    ensures var w2 := ApplyStatus(w, id, run, reading, watching);
            var w1 := if reading.Read? && Settled(NormalizeStatus(reading.ev.status))
                      then Revoke(w, run.vkey, reading.revokeOk) else w;
            w2 == w1.(rows := if id in w.rows then w.rows[id := AppliedRow(w.rows[id], run, reading)] else w.rows,
                      order := w2.order,
                      observed := if Observes(w, id, run, reading, watching) then w.observed + [id] else w.observed)
  {
    hide NormalizeStatus, Applied, Observes, UpdateProgress, ClearVKey, Touched, Settled;
    assert id in w.rows ==> w.rows[id := w.rows[id]] == w.rows;
    if reading.Read? {
      var p := PollProgress(run, reading.ev);
      var w0 := Revoke(w, run.vkey, reading.revokeOk);
      WriteFrame(w0, id, p, reading.updateOk, reading.clearOk);
      WriteFrame(ClearVKey(w0, id, reading.clearOk), id, p, reading.updateOk, reading.clearOk);
      WriteFrame(w, id, p, reading.updateOk, reading.clearOk);
      if id in w.rows {
        var cleared := w.rows[id].(vkey := "");
        assert w.rows[id := cleared][id := Applied(cleared, p)] == w.rows[id := Applied(cleared, p)];
      }
      var w2 := ApplyStatus(w, id, run, reading, watching);
      assert w2.rows == if id in w.rows then w.rows[id := AppliedRow(w.rows[id], run, reading)] else w.rows;
    } else {
      UnreadUnobserved(w, id, run, watching);
    }
  }

  /** What a cancel that goes through does to the row. */
  function CancelledRow(run: Run, e: CancelEnv): Run
  {
    if !e.updateOk then run
    else
      var r := Applied(run, CancelProgress(run));
      if e.clearOk then r.(vkey := "") else r
  }

  lemma CancelEffect(w: World, id: string, e: CancelEnv)
    ensures !CanCancel(w, id, e) ==> Cancel(w, id, e) == w
    ensures CanCancel(w, id, e) ==>
              var w2, run := Cancel(w, id, e), w.rows[id];
              w2 == Revoke(Stop(w, run.externalId, e.vendorOk), run.vkey, e.revokeOk)
                    .(rows := w.rows[id := CancelledRow(run, e)], order := w2.order)
  {
    hide Applied, UpdateProgress, ClearVKey, CanCancel;
    if CanCancel(w, id, e) {
      assert id in w.rows by { Cancellable(w, id, e); }
      var run := w.rows[id];
      var p := CancelProgress(run);
      var w0 := Revoke(Stop(w, run.externalId, e.vendorOk), run.vkey, e.revokeOk);
      WriteFrame(w0, id, p, e.updateOk, e.clearOk);
      WriteFrame(UpdateProgress(w0, id, p, e.updateOk), id, p, e.updateOk, e.clearOk);
      assert w.rows[id := run] == w.rows;
      var r := Applied(run, p);
      assert w.rows[id := r][id := r.(vkey := "")] == w.rows[id := r.(vkey := "")];
    }
  }

  lemma Cancellable(w: World, id: string, e: CancelEnv)
    requires CanCancel(w, id, e)
    ensures id in w.rows && !Settled(w.rows[id].status)
  {
  }

  lemma PollRunEffect(w: World, id: string, reading: Reading, watching: bool)
    requires id in w.rows
    ensures var w2 := PollRun(w, id, reading, watching);
            && w2.rows == w.rows[id := PolledRow(w.rows[id], reading)]
            && w2.minted == w.minted && w2.bornSettled == w.bornSettled && w2.used == w.used
            && (if reading.Read? && Settled(NormalizeStatus(reading.ev.status))
                then Revoke(w, w.rows[id].vkey, reading.revokeOk).live == w2.live
                     && Revoke(w, w.rows[id].vkey, reading.revokeOk).refused == w2.refused
                else w2.live == w.live && w2.refused == w.refused)
  {
    hide NormalizeStatus, AppliedRow, Settled, ApplyStatus, Observes;
    ApplyEffect(w, id, w.rows[id], reading, watching);
  }

  /** The row's key reference is the one the run was listed with, or was cleared since. */
  ghost predicate SameKey(w: World, id: string, run: Run)
  {
    id in w.rows ==> w.rows[id].vkey == run.vkey || w.rows[id].vkey == ""
  }

  /** Writing back a reading, however old, settles no row behind its key's back. */
  lemma ApplyKeys(w: World, id: string, run: Run, reading: Reading, watching: bool)
    requires KeyRefsOk(w) && NoStrayKey(w) && SameKey(w, id, run)
    requires run.vkey != "" ==> run.vkey in w.minted
    ensures KeyRefsOk(ApplyStatus(w, id, run, reading, watching))
    ensures NoStrayKey(ApplyStatus(w, id, run, reading, watching))
  {
    hide NormalizeStatus, ApplyStatus, Observes;
    var w2 := ApplyStatus(w, id, run, reading, watching);
    ApplyEffect(w, id, run, reading, watching);
    forall k | k in w2.live ensures k in w2.refused || exists x :: Holds(w2, x, k) {
      if k !in w.refused {
        var x :| Holds(w, x, k);
        assert k in w2.refused || Holds(w2, x, k);
      }
    }
  }

  lemma PollRunUnreachable(w: World, id: string, watching: bool)
    ensures PollRun(w, id, Unreachable, watching) == w
  {
  }

  lemma PollRunAbsent(w: World, id: string, reading: Reading, watching: bool)
    requires id !in w.rows
    ensures PollRun(w, id, reading, watching) == w
  {
  }

  lemma KeyMinted(w: World, id: string)
    requires KeyRefsOk(w) && id in w.rows
    ensures w.rows[id].vkey != "" ==> w.rows[id].vkey in w.minted
  {
  }

  lemma KeyNames(w: World)
    requires KeyRefsOk(w)
    ensures "" !in w.live
  {
  }

  lemma CancelKeys(w: World, id: string, e: CancelEnv)
    requires KeyRefsOk(w) && NoStrayKey(w)
    ensures KeyRefsOk(Cancel(w, id, e)) && NoStrayKey(Cancel(w, id, e))
    ensures KeySafeStep(w, Cancel(w, id, e), id)
  {
    hide Cancel, KeyRefsOk, NoStrayKey;
    KeyNames(w);
    CancelEffect(w, id, e);
    KeySafeStepKeeps(w, Cancel(w, id, e), id);
  }

  lemma DeleteKeys(w: World, id: string, e: DeleteEnv)
    requires KeyRefsOk(w) && NoStrayKey(w)
    ensures KeyRefsOk(Delete(w, id, e)) && NoStrayKey(Delete(w, id, e))
  {
    hide Without, Cancel, KeyRefsOk, NoStrayKey;
    CancelKeys(w, id, e.cancel);
    KeyNames(w);
    assert KeySafeStep(w, w, id);
    KeySafeStepKeeps(w, Delete(w, id, e), id);
  }

  /** The row a launch leaves behind, and what became of its key. */
  function LaunchedRow(model: string, vkey: string, e: LaunchEnv): Run
  {
    var p := if e.reply.Started? then StartedProgress(e.reply) else RefusedProgress(e.reply);
    if e.updateOk then Applied(NewRun(model, vkey), p) else NewRun(model, vkey)
  }

  lemma LaunchRowEffect(w: World, s: LaunchSpec, vkey: string, e: LaunchEnv)
    ensures var w2 := LaunchRow(w, s, vkey, e);
            && w2.minted == w.minted
            && w2.rows == (if Recorded(s, e) then w.rows[e.runId := LaunchedRow(s.model, vkey, e)] else w.rows)
            && w2.bornSettled == w.bornSettled
                 + (if Recorded(s, e) && e.reply.Started? && Settled(LaunchedRow(s.model, vkey, e).status)
                    then {e.runId} else {})
            && w2.observed == w.observed
            && (if Recorded(s, e) && e.reply.Started? then w2.live == w.live && w2.refused == w.refused
                else w2.live == Revoke(w, vkey, e.revokeOk).live
                     && w2.refused == Revoke(w, vkey, e.revokeOk).refused)
  {
    hide NormalizeStatus, Without;
  }

  lemma LaunchRowKeys(w: World, s: LaunchSpec, vkey: string, e: LaunchEnv)
    requires KeyRefsOk(w) && e.runId !in w.rows && (vkey != "" ==> vkey in w.minted)
    requires forall k :: k in w.live && k != vkey && k !in w.refused ==> exists x :: Holds(w, x, k)
    requires forall x :: x in w.rows && vkey != "" ==> w.rows[x].vkey != vkey
    ensures KeyRefsOk(LaunchRow(w, s, vkey, e)) && NoStrayKey(LaunchRow(w, s, vkey, e))
  {
    hide NormalizeStatus, Without, LaunchRow, StartedProgress, RefusedProgress;
    var w2 := LaunchRow(w, s, vkey, e);
    LaunchRowEffect(w, s, vkey, e);
    forall k | k in w2.live ensures k in w2.refused || exists x :: Holds(w2, x, k) {
      if k == vkey {
        assert k in w2.refused || Holds(w2, e.runId, k);
      } else if k !in w.refused {
        var x :| Holds(w, x, k);
        assert Holds(w2, x, k);
      }
    }
  }

  lemma LaunchKeys(w: World, s: LaunchSpec, e: LaunchEnv)
    requires TableOk(w) && KeyRefsOk(w) && NoStrayKey(w) && FreshIds(w, LaunchEvent(s, e))
    ensures KeyRefsOk(Launch(w, s, e)) && NoStrayKey(Launch(w, s, e))
  {
    hide Validate, NoDup, LaunchRow;
    if Admitted(s, e) && s.viaGateway {
      var w1 := Mint(w, e.key.value);
      forall k | k in w1.live && k != e.key.value && k !in w1.refused ensures exists x :: Holds(w1, x, k) {
        var x :| Holds(w, x, k);
        assert Holds(w1, x, k);
      }
      LaunchRowKeys(w1, s, e.key.value, e);
    } else if Admitted(s, e) {
      LaunchRowKeys(w, s, "", e);
    }
  }

  // ----- Observation and settlement

  /** Settled rows of w are in w2 exactly as they were. */
  ghost predicate KeepsSettled(w: World, w2: World)
  {
    forall x :: x in w.rows && Settled(w.rows[x].status) ==> x in w2.rows && w2.rows[x] == w.rows[x]
  }

  lemma PollRunObserves(w: World, id: string, reading: Reading, watching: bool)
    requires TableOk(w) && ObservedOnce(w) && Pollable(w, id)
    ensures ObservedOnce(PollRun(w, id, reading, watching))
  {
    hide NormalizeStatus, Without, NoDup;
    PollRunEffect(w, id, reading, watching);
    assert id !in w.observed;
    NoDupSnoc(w.observed, id);
  }

  lemma PollRunInv(w: World, id: string, reading: Reading, watching: bool)
    requires Inv(w) && Pollable(w, id)
    ensures Inv(PollRun(w, id, reading, watching))
  {
    hide TableOk, KeyRefsOk, NoStrayKey, ObservedOnce, ApplyStatus;
    ApplyTable(w, id, w.rows[id], reading, watching);
    KeyMinted(w, id);
    ApplyKeys(w, id, w.rows[id], reading, watching);
    PollRunObserves(w, id, reading, watching);
  }

  /** A pass polls each run of the batch once, from the row the pass started with. */
  lemma {:induction false} PollAllInv(w: World, ids: seq<string>, readings: map<string, Reading>, watching: bool)
    requires Inv(w) && NoDup(ids)
    requires forall i :: 0 <= i < |ids| ==> Pollable(w, ids[i])
    ensures Inv(PollAll(w, ids, readings, watching))
    ensures PollAll(w, ids, readings, watching).rows ==
            map x | x in w.rows :: if x in ids then PolledRow(w.rows[x], ReadingOf(readings, x)) else w.rows[x]
  {
    hide Inv, PollRun, PolledRow, ReadingOf, Settled;
    if ids != [] {
      var n := |ids| - 1;
      var id, before := ids[n], PollAll(w, ids[..n], readings, watching);
      PollAllInv(w, ids[..n], readings, watching);
      assert ids == ids[..n] + [id] && id !in ids[..n];
      assert before.rows[id] == w.rows[id];
      PollRunInv(before, id, ReadingOf(readings, id), watching);
      PollRunEffect(before, id, ReadingOf(readings, id), watching);
    }
  }

  lemma BatchOk(w: World)
    requires TableOk(w)
    ensures NoDup(Batch(w)) && forall i :: 0 <= i < |Batch(w)| ==> Pollable(w, Batch(w)[i])
  {
    hide Pollable;
    PollableNoDup(w, w.order);
    assert forall i :: 0 <= i < |Batch(w)| ==> Batch(w)[i] in Queue(w);
  }

  lemma PollOnceInv(w: World, token: Option<string>, readings: map<string, Reading>, watching: bool)
    requires Inv(w)
    ensures Inv(PollOnce(w, token, readings, watching))
    ensures KeepsSettled(w, PollOnce(w, token, readings, watching))
  {
    hide Inv, PollAll, Batch, PolledRow, ReadingOf;
    if HasToken(token) {
      assert TableOk(w) by { InvTable(w); }
      BatchOk(w);
      PollAllInv(w, Batch(w), readings, watching);
    }
  }

  lemma InvTable(w: World)
    requires Inv(w)
    ensures TableOk(w)
  {
  }

  lemma LaunchInv(w: World, s: LaunchSpec, e: LaunchEnv)
    requires Inv(w) && FreshIds(w, LaunchEvent(s, e))
    ensures Inv(Launch(w, s, e)) && KeepsSettled(w, Launch(w, s, e))
  {
    hide Validate, NormalizeStatus, Without, NoDup, LaunchRow, KeyRefsOk, NoStrayKey;
    LaunchTable(w, s, e);
    LaunchKeys(w, s, e);
    if Admitted(s, e) {
      var w1 := if s.viaGateway then Mint(w, e.key.value) else w;
      LaunchRowEffect(w1, s, if s.viaGateway then e.key.value else "", e);
      LaunchUses(w1, s, if s.viaGateway then e.key.value else "", e);
    }
  }

  lemma LaunchUses(w: World, s: LaunchSpec, vkey: string, e: LaunchEnv)
    ensures LaunchRow(w, s, vkey, e).used == if Recorded(s, e) then w.used + {e.runId} else w.used
  {
    hide NormalizeStatus, Without;
  }

  lemma CancelInv(w: World, id: string, e: CancelEnv)
    requires Inv(w)
    ensures Inv(Cancel(w, id, e)) && KeepsSettled(w, Cancel(w, id, e))
  {
    hide Cancel, Applied, NoDup, KeyRefsOk, NoStrayKey, TableOk;
    CancelTable(w, id, e);
    CancelKeys(w, id, e);
    CancelEffect(w, id, e);
    if CanCancel(w, id, e) {
      CancelStatus(w, id, e);
    }
  }

  lemma DeleteInv(w: World, id: string, e: DeleteEnv)
    requires Inv(w)
    ensures Inv(Delete(w, id, e))
    ensures KeepsSettled(w.(rows := w.rows - {id}), Delete(w, id, e))
  {
    hide Without, NoDup, KeyRefsOk, NoStrayKey, TableOk, Cancel;
    DeleteTable(w, id, e);
    DeleteKeys(w, id, e);
    CancelInv(w, id, e.cancel);
    CancelOthers(w, id, e.cancel);
  }

  lemma CancelStatus(w: World, id: string, e: CancelEnv)
    requires CanCancel(w, id, e)
    ensures CancelledRow(w.rows[id], e).status == if e.updateOk then Cancelled else w.rows[id].status
  {
  }

  lemma CancelOthers(w: World, id: string, e: CancelEnv)
    ensures forall x :: x in w.rows <==> x in Cancel(w, id, e).rows
    ensures forall x :: x in w.rows && x != id ==> Cancel(w, id, e).rows[x] == w.rows[x]
    ensures Cancel(w, id, e).used == w.used && Cancel(w, id, e).observed == w.observed
  {
    hide Cancel, CancelledRow;
    CancelEffect(w, id, e);
  }

  // ----- Every history

  /** One operation keeps the invariants, and keeps every settled row unless it is the
      row being deleted. */
  lemma StepInv(w: World, e: Event)
    requires Inv(w) && FreshIds(w, e)
    ensures Inv(Step(w, e))
    ensures KeepsSettled(if e.DeleteEvent? then w.(rows := w.rows - {e.id}) else w, Step(w, e))
  {
    hide Inv, KeepsSettled, FreshIds, Launch, PollOnce, Cancel, Delete;
    match e
    case LaunchEvent(spec, env) => LaunchInv(w, spec, env);
    case PollEvent(token, readings, watching) => PollOnceInv(w, token, readings, watching);
    case CancelEvent(id, env) => CancelInv(w, id, env);
    case DeleteEvent(id, env) => DeleteInv(w, id, env);
  }

  lemma {:induction false} HistoryInv(events: seq<Event>)
    requires AllFresh(EMPTY, events)
    ensures Inv(After(EMPTY, events))
  {
    hide FreshIds, Step;
    if events != [] {
      HistoryInv(events[..|events|-1]);
      StepInv(After(EMPTY, events[..|events|-1]), events[|events|-1]);
    }
  }

  /** A live key always has a holder, unless the key service refused to revoke it. */
  lemma LiveKeyHasHolder(events: seq<Event>, k: string)
    requires AllFresh(EMPTY, events) && k in After(EMPTY, events).live
    ensures k in After(EMPTY, events).refused || exists id :: Holds(After(EMPTY, events), id, k)
  {
    hide AllFresh, After;
    HistoryInv(events);
  }

  /** A row settled by a poll, a cancel or a failed launch holds no live key, unless the
      key service refused to revoke it. */
  lemma SettledRunHoldsNoKey(events: seq<Event>, id: string)
    requires AllFresh(EMPTY, events)
    requires var w := After(EMPTY, events);
             id in w.rows && Settled(w.rows[id].status) && id !in w.bornSettled
             && w.rows[id].vkey !in w.refused
    ensures After(EMPTY, events).rows[id].vkey !in After(EMPTY, events).live
  {
    hide AllFresh, After;
    HistoryInv(events);
  }

  /** The drift observer sees a run at most once, however often writes failed and were
      retried on later polls. */
  lemma ObserverCalledOnce(events: seq<Event>, id: string)
    requires AllFresh(EMPTY, events)
    ensures multiset(After(EMPTY, events).observed)[id] <= 1
  {
    hide AllFresh, After;
    HistoryInv(events);
    NoDupMultiset(After(EMPTY, events).observed, id);
  }

  /** Settled is for good: until its own Delete, no later operation touches the row. */
  lemma {:induction false} SettledForGood(w: World, events: seq<Event>, id: string)
    requires Inv(w) && AllFresh(w, events)
    requires id in w.rows && Settled(w.rows[id].status)
    requires forall e :: e in events && e.DeleteEvent? ==> e.id != id
    ensures Inv(After(w, events))
    ensures id in After(w, events).rows && After(w, events).rows[id] == w.rows[id]
  {
    hide FreshIds, Step, Inv;
    if events != [] {
      var n := |events| - 1;
      SettledForGood(w, events[..n], id);
      StepInv(After(w, events[..n]), events[n]);
      assert events[n] in events;
    }
  }

  ghost predicate RevokesSucceed(e: Event)
  {
    match e
    case LaunchEvent(_, env) => env.revokeOk
    case PollEvent(_, readings, _) => forall id :: id in readings && readings[id].Read? ==> readings[id].revokeOk
    case CancelEvent(_, env) => env.revokeOk
    case DeleteEvent(_, env) => env.revokeOk && env.cancel.revokeOk
  }

  lemma {:induction false} PollAllRefuses(w: World, ids: seq<string>, readings: map<string, Reading>, watching: bool)
    requires forall id :: id in readings && readings[id].Read? ==> readings[id].revokeOk
    ensures PollAll(w, ids, readings, watching).refused == w.refused
  {
    hide Without, NormalizeStatus;
    if ids != [] {
      PollAllRefuses(w, ids[..|ids|-1], readings, watching);
    }
  }

  lemma StepRefuses(w: World, e: Event)
    requires RevokesSucceed(e)
    ensures Step(w, e).refused == w.refused
  {
    hide Without, NormalizeStatus, Validate, PollAll, Batch;
    if e.PollEvent? {
      PollAllRefuses(w, Batch(w), e.readings, e.watching);
    }
  }

  lemma {:induction false} HistoryRefuses(events: seq<Event>)
    requires forall e :: e in events ==> RevokesSucceed(e)
    ensures After(EMPTY, events).refused == {}
  {
    hide Step, RevokesSucceed;
    if events != [] {
      HistoryRefuses(events[..|events|-1]);
      StepRefuses(After(EMPTY, events[..|events|-1]), events[|events|-1]);
    }
  }

  /** With a working key service every live key belongs to an existing row, unsettled or
      settled by its own create call; store and provider calls may fail at will. */
  lemma LiveKeysBelongToRuns(events: seq<Event>, k: string)
    requires AllFresh(EMPTY, events) && k in After(EMPTY, events).live
    requires forall e :: e in events ==> RevokesSucceed(e)
    ensures exists id :: Holds(After(EMPTY, events), id, k)
  {
    hide AllFresh, After, RevokesSucceed;
    LiveKeyHasHolder(events, k);
    HistoryRefuses(events);
  }

  // ----- The key of a run that came back settled

  /** Launch leaves a settled row with a key it never tried to revoke exactly when the
      provider's create call itself reported a terminal status. */
  lemma LaunchLeavesSettledKey(w: World, s: LaunchSpec, e: LaunchEnv)
    requires Inv(w) && FreshIds(w, LaunchEvent(s, e)) && s.viaGateway && Admitted(s, e)
    ensures var w2 := Launch(w, s, e);
            (e.runId in w2.rows && Settled(w2.rows[e.runId].status)
             && e.key.value in w2.live && e.key.value !in w2.refused)
            <==> (Recorded(s, e) && e.updateOk && e.reply.Started?
                  && Settled(NormalizeStatus(e.reply.vendorStatus)))
  {
    hide Validate, NormalizeStatus, Without, NoDup, LaunchRow, NoStrayKey, ObservedOnce;
    LaunchRowEffect(Mint(w, e.key.value), s, e.key.value, e);
  }

  /** The create call of run id itself reported a terminal status. */
  predicate TerminalCreate(e: Event, id: string)
  {
    && e.LaunchEvent? && e.launch.runId == id && e.launch.reply.Started?
    && Settled(NormalizeStatus(e.launch.reply.vendorStatus))
  }

  lemma {:induction false} PollAllFrame(w: World, ids: seq<string>, readings: map<string, Reading>, watching: bool)
    ensures var w2 := PollAll(w, ids, readings, watching);
            w2.bornSettled == w.bornSettled && w2.used == w.used
  {
    hide PollRun;
    if ids != [] {
      var before, id := PollAll(w, ids[..|ids|-1], readings, watching), ids[|ids|-1];
      PollAllFrame(w, ids[..|ids|-1], readings, watching);
      if id in before.rows {
        PollRunEffect(before, id, ReadingOf(readings, id), watching);
      } else {
        PollRunAbsent(before, id, ReadingOf(readings, id), watching);
      }
    }
  }

  lemma StepBorn(w: World, e: Event)
    ensures forall id :: id in Step(w, e).bornSettled ==> id in w.bornSettled || TerminalCreate(e, id)
  {
    hide Validate, NormalizeStatus, LaunchRow, PollAll, Batch, Cancel;
    match e
    case LaunchEvent(s, env) =>
      if Admitted(s, env) {
        var vkey := if s.viaGateway then env.key.value else "";
        LaunchRowEffect(if s.viaGateway then Mint(w, vkey) else w, s, vkey, env);
        LaunchedStatus(s.model, vkey, env);
      }
    case PollEvent(_, readings, watching) => PollAllFrame(w, Batch(w), readings, watching);
    case CancelEvent(x, env) => CancelEffect(w, x, env);
    case DeleteEvent(x, env) => CancelEffect(w, x, env.cancel);
  }

  lemma LaunchedStatus(model: string, vkey: string, e: LaunchEnv)
    ensures e.reply.Started? && Settled(LaunchedRow(model, vkey, e).status) ==>
              Settled(NormalizeStatus(e.reply.vendorStatus))
  {
    hide NormalizeStatus;
  }

  /** A run counts as settled at birth only if its own launch was answered so. */
  lemma {:induction false} BornFromTerminalCreate(events: seq<Event>, id: string)
    requires id in After(EMPTY, events).bornSettled
    ensures exists e :: e in events && TerminalCreate(e, id)
  {
    hide Step, TerminalCreate;
    var n := |events| - 1;
    var e := events[n];
    StepBorn(After(EMPTY, events[..n]), e);
    if id in After(EMPTY, events[..n]).bornSettled {
      BornFromTerminalCreate(events[..n], id);
    } else {
      assert e in events && TerminalCreate(e, id);
    }
  }

  /** With a working key service, and no create call answered with a terminal status, every
      live key is that of an unsettled run. */
  lemma LiveKeysBelongToUnsettledRuns(events: seq<Event>, k: string)
    requires AllFresh(EMPTY, events) && k in After(EMPTY, events).live
    requires forall e :: e in events ==> RevokesSucceed(e)
    requires forall e, id :: e in events ==> !TerminalCreate(e, id)
    ensures exists id :: id in After(EMPTY, events).rows
              && After(EMPTY, events).rows[id].vkey == k && !Settled(After(EMPTY, events).rows[id].status)
  {
    hide AllFresh, After, RevokesSucceed, TerminalCreate;
    LiveKeysBelongToRuns(events, k);
    var id :| Holds(After(EMPTY, events), id, k);
    if id in After(EMPTY, events).bornSettled {
      BornFromTerminalCreate(events, id);
    }
  }

  /** Such a key then outlives every operation but the Delete of its own run. */
  lemma SettledKeyLingers(w: World, e: Event, id: string)
    requires Inv(w) && FreshIds(w, e) && !(e.DeleteEvent? && e.id == id)
    requires id in w.rows && Settled(w.rows[id].status)
    requires w.rows[id].vkey in w.live
    ensures w.rows[id].vkey in Step(w, e).live
  {
    hide Validate, NoDup, LaunchRow, PollAll, Batch, Cancel, NoStrayKey, ObservedOnce;
    KeyNames(w);
    match e
    case LaunchEvent(s, env) =>
      if Admitted(s, env) {
        var vkey := if s.viaGateway then env.key.value else "";
        LaunchRowEffect(if s.viaGateway then Mint(w, vkey) else w, s, vkey, env);
      }
    case PollEvent(token, readings, watching) =>
      if HasToken(token) {
        BatchOk(w);
        PollAllSpares(w, Batch(w), readings, watching, id);
      }
    case CancelEvent(x, env) => CancelEffect(w, x, env);
    case DeleteEvent(x, env) => CancelEffect(w, x, env.cancel);
  }

  /** So it lives on through every history that does not delete the run. */
  lemma {:induction false} SettledKeyOutlives(w: World, events: seq<Event>, id: string)
    requires Inv(w) && AllFresh(w, events)
    requires id in w.rows && Settled(w.rows[id].status) && w.rows[id].vkey in w.live
    requires forall e :: e in events && e.DeleteEvent? ==> e.id != id
    ensures w.rows[id].vkey in After(w, events).live
  {
    hide FreshIds, Step, Inv;
    if events != [] {
      var n := |events| - 1;
      SettledKeyOutlives(w, events[..n], id);
      SettledForGood(w, events[..n], id);
      assert events[n] in events;
      SettledKeyLingers(After(w, events[..n]), events[n], id);
    }
  }

  lemma {:induction false} PollAllSpares(
    w: World, ids: seq<string>, readings: map<string, Reading>, watching: bool, id: string)
    requires Inv(w) && NoDup(ids)
    requires forall i :: 0 <= i < |ids| ==> Pollable(w, ids[i])
    requires id in w.rows && Settled(w.rows[id].status) && w.rows[id].vkey in w.live
    ensures w.rows[id].vkey in PollAll(w, ids, readings, watching).live
  {
    hide NormalizeStatus, TableOk, NoStrayKey, ObservedOnce, PollRun, PolledRow, ReadingOf;
    if ids != [] {
      var n := |ids| - 1;
      var x := ids[n];
      PollAllSpares(w, ids[..n], readings, watching, id);
      PollAllInv(w, ids[..n], readings, watching);
      var before := PollAll(w, ids[..n], readings, watching);
      assert x !in ids[..n] && id !in ids[..n];
      assert before.rows[x] == w.rows[x];
      PollRunEffect(before, x, ReadingOf(readings, x), watching);
      assert w.rows[x].vkey != "" ==> w.rows[x].vkey != w.rows[id].vkey;
    }
  }

  // ----- The sample cap

  /** Validation bounds the samples a run may bill for exactly when their product fits a
      64-bit int; past that the wrapped product is what is compared with the cap. */
  lemma CapHoldsUnlessWrapped(s: LaunchSpec)
    requires Validate(s)
    ensures s.numExamples * s.rollouts <= MAX_TOTAL_SAMPLES <==>
            s.numExamples * s.rollouts < 0x8000_0000_0000_0000
  {
    var p := s.numExamples * s.rollouts;
    assert p >= 1;
    WrapSmall(p);
  }

  lemma WrapSmall(p: int)
    requires 0 <= p
    ensures p < 0x8000_0000_0000_0000 ==> Wrap64(p) == p
  {
  }

  /** Every run that gets a row is within the cap: what fits the columns cannot wrap. */
  lemma CapBoundsEveryRun(w: World, s: LaunchSpec, e: LaunchEnv)
    requires e.runId !in w.rows && e.runId in Launch(w, s, e).rows
    ensures 1 <= s.numExamples * s.rollouts <= MAX_TOTAL_SAMPLES
  {
    hide Validate, LaunchRow, NormalizeStatus;
    var vkey := if s.viaGateway && e.key.Some? then e.key.value else "";
    LaunchRowEffect(if s.viaGateway then Mint(w, vkey) else w, s, vkey, e);
    assert Validate(s) && Recorded(s, e);
    FactorsPositive(s);
    SmallProduct(s.numExamples, s.rollouts);
    CapHoldsUnlessWrapped(s);
  }

  lemma FactorsPositive(s: LaunchSpec)
    requires Validate(s)
    ensures s.numExamples >= 1 && s.rollouts >= 1
  {
  }

  lemma SmallProduct(a: int, b: int)
    requires 1 <= a < 0x8000_0000 && 1 <= b < 0x8000_0000
    ensures 1 <= a * b < 0x8000_0000_0000_0000
  {
    MulMonotone(a, 1, b);
    MulMonotone(a, b, 0x8000_0000);
  }

  lemma MulMonotone(a: int, b: int, c: int)
    requires a >= 1 && b <= c
    ensures a * b <= a * c
  {
  }

  /** The check alone lets through a product that wraps, but no such request is recorded. */
  lemma CheckAloneWraps()
    ensures exists s: LaunchSpec :: Validate(s) && s.numExamples * s.rollouts > MAX_TOTAL_SAMPLES
    ensures forall s: LaunchSpec, e: LaunchEnv ::
              Validate(s) && s.numExamples * s.rollouts > MAX_TOTAL_SAMPLES ==> !Recorded(s, e)
  {
    var s := LaunchSpec(["gsm8k"], "m", 0x1_0000_0000, 0x1_0000_0000, 0, false);
    assert TotalSamples(s) == 0;
    assert Validate(s) && s.numExamples * s.rollouts > MAX_TOTAL_SAMPLES;
    forall s: LaunchSpec, e: LaunchEnv | Validate(s) && Recorded(s, e)
      ensures s.numExamples * s.rollouts <= MAX_TOTAL_SAMPLES
    {
      SmallProduct(s.numExamples, s.rollouts);
      CapHoldsUnlessWrapped(s);
    }
  }

  // ----- Jobs nobody tracks

  /** Delete forgets a run that may still be billed for exactly when the row goes although
      the provider was not asked to stop it, or did not agree to. */
  lemma DeleteLeavesJobIff(w: World, id: string, e: DeleteEnv)
    requires id in w.rows && !Settled(w.rows[id].status)
    requires w.rows[id].externalId != "" && w.rows[id].externalId !in w.stopped
    ensures var w2 := Delete(w, id, e);
            (id !in w2.rows && w.rows[id].externalId !in w2.stopped) <==>
            e.getOk && e.deleteOk && !(e.cancel.getOk && HasToken(e.cancel.token) && e.cancel.vendorOk)
  {
    hide Cancel;
    CancelEffect(w, id, e.cancel);
  }

  /** The run has no external id to poll by, now or, its id being used up, ever again. */
  ghost predicate Lost(w: World, id: string)
  {
    id in w.used && (id in w.rows ==> w.rows[id].externalId == "")
  }

  /** A launch that is recorded loses its run exactly when the provider's id was not written. */
  lemma LaunchLosesRunIff(w: World, s: LaunchSpec, e: LaunchEnv)
    requires Admitted(s, e) && Recorded(s, e)
    ensures Lost(Launch(w, s, e), e.runId) <==> !e.updateOk || e.reply.evaluationId == ""
  {
    hide Validate, LaunchRow, NormalizeStatus;
    var vkey := if s.viaGateway then e.key.value else "";
    LaunchRowEffect(if s.viaGateway then Mint(w, vkey) else w, s, vkey, e);
    LaunchUses(if s.viaGateway then Mint(w, vkey) else w, s, vkey, e);
  }

  lemma StepKeepsLost(w: World, e: Event, id: string)
    requires Inv(w) && FreshIds(w, e) && Lost(w, id)
    ensures Lost(Step(w, e), id)
  {
    hide Validate, NoDup, LaunchRow, PollAll, Batch, Cancel, KeyRefsOk, NoStrayKey, ObservedOnce, NormalizeStatus;
    match e
    case LaunchEvent(s, env) =>
      if Admitted(s, env) {
        var vkey := if s.viaGateway then env.key.value else "";
        LaunchRowEffect(if s.viaGateway then Mint(w, vkey) else w, s, vkey, env);
        LaunchUses(if s.viaGateway then Mint(w, vkey) else w, s, vkey, env);
      }
    case PollEvent(token, readings, watching) =>
      if HasToken(token) {
        BatchOk(w);
        PollAllInv(w, Batch(w), readings, watching);
        PollAllFrame(w, Batch(w), readings, watching);
      }
    case CancelEvent(x, env) => CancelEffect(w, x, env);
    case DeleteEvent(x, env) => CancelEffect(w, x, env.cancel);
  }

  /** A run that lost its external id is never polled again, whatever happens. */
  lemma {:induction false} LostRunNeverPolled(w: World, events: seq<Event>, id: string)
    requires Inv(w) && AllFresh(w, events) && Lost(w, id)
    ensures Inv(After(w, events)) && Lost(After(w, events), id) && id !in Queue(After(w, events))
  {
    hide FreshIds, Step, Inv;
    if events != [] {
      var n := |events| - 1;
      LostRunNeverPolled(w, events[..n], id);
      StepInv(After(w, events[..n]), events[n]);
      StepKeepsLost(After(w, events[..n]), events[n], id);
    }
  }

  lemma {:induction false} NoDupMultiset(ids: seq<string>, x: string)
    requires NoDup(ids)
    ensures multiset(ids)[x] <= 1
  {
    if ids != [] {
      assert ids == [ids[0]] + ids[1..];
      NoDupCons(ids[0], ids[1..]);
      NoDupMultiset(ids[1..], x);
      assert ids[0] !in multiset(ids[1..]);
    }
  }
}
