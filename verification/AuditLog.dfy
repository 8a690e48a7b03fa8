/** The writers of the audit log and its retention job. */
module AuditLog {
  import opened Options
  import opened Audit

  /** What an event brings: the columns as the writer has scrubbed and capped them. */
  datatype Entry = Entry(
    orgId: string,
    actor: string,
    action: string,
    targetId: string,
    detail: string,
    requestId: string,
    clientReqId: string)

  /** The key that collapses a burst of denials; first_at holds the window's start. */
  datatype Burst = Burst(action: string, actor: string, resourceFp: string, windowStart: int)

  /** Audit writes one row per event; AuditDenial counts the event in its burst's row. */
  datatype Write =
    | Append(e: Entry)
    | Denial(e: Entry, fp: string, windowStart: int)

  /** One write, with the id it draws and the time it is made. */
  datatype Stamped = Stamped(write: Write, id: int, now: int)

  /** count is an INTEGER column: past this the update fails and is only logged. */
  const MAX_COUNT: int := 0x7fff_ffff

  function BurstOf(w: Write): Burst
    requires w.Denial?
  {
    Burst(w.e.action, w.e.actor, w.fp, w.windowStart)
  }

  predicate InBurst(r: AuditRow, b: Burst)
  {
    && r.count > 0 && r.action == b.action && r.actor == b.actor && r.resourceFp == b.resourceFp
    && r.firstAt == Some(b.windowStart)
  }

  function NewRow(w: Stamped): AuditRow
  {
    var e := w.write.e;
    match w.write
    case Append(_) =>
      AuditRow(w.id, e.orgId, e.actor, e.action, e.targetId, e.detail, e.requestId, e.clientReqId,
               0, None, None, w.now, "")
    case Denial(_, fp, start) =>
      AuditRow(w.id, e.orgId, e.actor, e.action, e.targetId, e.detail, e.requestId, e.clientReqId,
               1, Some(start), Some(w.now), w.now, fp)
  }

  function Recounted(r: AuditRow, w: Stamped): AuditRow
  {
    if r.count >= MAX_COUNT then r
    else r.(count := r.count + 1, lastAt := Some(w.now), detail := w.write.e.detail, requestId := w.write.e.requestId)
  }

  /** Where the burst has its row, or the length of the log. */
  function RowOf(log: seq<AuditRow>, b: Burst): (i: nat)
    ensures i <= |log|
    ensures i < |log| ==> InBurst(log[i], b)
    ensures forall j :: 0 <= j < i ==> !InBurst(log[j], b)
  {
    if log == [] || InBurst(log[0], b) then 0 else 1 + RowOf(log[1..], b)
  }

  function AfterWrite(log: seq<AuditRow>, w: Stamped): seq<AuditRow>
  {
    if w.write.Append? then log + [NewRow(w)]
    else
      var i := RowOf(log, BurstOf(w.write));
      if i == |log| then log + [NewRow(w)] else log[i := Recounted(log[i], w)]
  }

  function AfterWrites(log: seq<AuditRow>, ws: seq<Stamped>): seq<AuditRow>
  {
    if ws == [] then log else AfterWrite(AfterWrites(log, ws[..|ws|-1]), ws[|ws|-1])
  }

  /** The retention job takes no interval shorter than this, and no counted row. */
  const PURGE_MIN: int := 60 * 60 * 1_000_000_000

  function Retained(log: seq<AuditRow>, before: int): seq<AuditRow>
  {
    if log == [] then []
    else (if log[0].createdAt < before && !(log[0].count > 0) then [] else [log[0]]) + Retained(log[1..], before)
  }

  datatype Step = Wrote(w: Stamped) | Purge(now: int, olderThan: int)

  function AfterStep(log: seq<AuditRow>, e: Step): seq<AuditRow>
  {
    match e
    case Wrote(w) => AfterWrite(log, w)
    case Purge(now, olderThan) => if olderThan < PURGE_MIN then log else Retained(log, now - olderThan)
  }

  function AfterSteps(log: seq<AuditRow>, steps: seq<Step>): seq<AuditRow>
  {
    if steps == [] then log else AfterStep(AfterSteps(log, steps[..|steps|-1]), steps[|steps|-1])
  }

  // ----- Every denial is counted once

  predicate IsDenial(e: Step, b: Burst)
  {
    e.Wrote? && e.w.write.Denial? && BurstOf(e.w.write) == b
  }

  function OrgOf(e: Step): string
  {
    if e.Wrote? then e.w.write.e.orgId else ""
  }

  /** How many of the steps are denials of the burst. */
  function Denials(steps: seq<Step>, b: Burst): nat
  {
    if steps == [] then 0
    else Denials(steps[..|steps|-1], b) + if IsDenial(steps[|steps|-1], b) then 1 else 0
  }

  /** The organisation of the burst's first denial. */
  function FirstOrg(steps: seq<Step>, b: Burst): string
  {
    if steps == [] then ""
    else
      var before, e := steps[..|steps|-1], steps[|steps|-1];
      if Denials(before, b) == 0 && IsDenial(e, b) then OrgOf(e) else FirstOrg(before, b)
  }

  /** The burst has no row before its first denial; then one row, with the count, under the
      organisation of the first. */
  ghost predicate Counted(log: seq<AuditRow>, b: Burst, n: nat, org: string)
  {
    if n == 0 then RowOf(log, b) == |log|
    else
      var i := RowOf(log, b);
      && i < |log| && log[i].count == (if n < MAX_COUNT then n else MAX_COUNT) && log[i].orgId == org
      && forall j :: i < j < |log| ==> !InBurst(log[j], b)
  }

  /** RowOf is the only place it can be. */
  lemma RowOfIs(log: seq<AuditRow>, b: Burst, i: nat)
    requires i <= |log| && (i < |log| ==> InBurst(log[i], b))
    requires forall j :: 0 <= j < i ==> !InBurst(log[j], b)
    ensures RowOf(log, b) == i
  {
    hide InBurst;
  }

  lemma AppendCounted(log: seq<AuditRow>, r: AuditRow, b: Burst, n: nat, org: string)
    requires Counted(log, b, n, org) && !InBurst(r, b)
    ensures Counted(log + [r], b, n, org)
  {
    hide InBurst;
    var log2, i := log + [r], RowOf(log, b);
    forall j | 0 <= j < i ensures !InBurst(log2[j], b) {
      assert log2[j] == log[j];
    }
    if n == 0 {
      RowOfIs(log2, b, |log2|);
    } else {
      RowOfIs(log2, b, i);
    }
  }

  lemma FirstCounted(log: seq<AuditRow>, r: AuditRow, b: Burst, org: string)
    requires Counted(log, b, 0, org) && InBurst(r, b) && r.count == 1
    ensures Counted(log + [r], b, 1, r.orgId)
  {
    hide InBurst;
    var log2 := log + [r];
    forall j | 0 <= j < |log| ensures !InBurst(log2[j], b) {
      assert log2[j] == log[j];
    }
    RowOfIs(log2, b, |log|);
  }

  lemma RecountedBurst(r: AuditRow, w: Stamped, b: Burst)
    requires r.count > 0
    ensures InBurst(Recounted(r, w), b) <==> InBurst(r, b)
  {
  }

  lemma RecountKeepsCounted(log: seq<AuditRow>, w: Stamped, i: nat, b: Burst, n: nat, org: string)
    requires Counted(log, b, n, org) && i < |log| && log[i].count > 0
    ensures var log2 := log[i := Recounted(log[i], w)];
            && RowOf(log2, b) == RowOf(log, b)
            && (!InBurst(log[i], b) ==> Counted(log2, b, n, org))
            && (InBurst(log[i], b) ==> n > 0 && Counted(log2, b, n + 1, org))
  {
    hide InBurst;
    var log2, k := log[i := Recounted(log[i], w)], RowOf(log, b);
    RecountedBurst(log[i], w, b);
    forall j | 0 <= j < |log| ensures InBurst(log2[j], b) <==> InBurst(log[j], b) {
      assert j != i ==> log2[j] == log[j];
    }
    RowOfIs(log2, b, k);
  }

  lemma WriteCounted(log: seq<AuditRow>, w: Stamped, b: Burst, n: nat, org: string)
    requires Counted(log, b, n, org)
    ensures var hit := w.write.Denial? && BurstOf(w.write) == b;
            Counted(AfterWrite(log, w), b, if hit then n + 1 else n, if hit && n == 0 then w.write.e.orgId else org)
  {
    hide Counted;
    if w.write.Append? {
      AppendCounted(log, NewRow(w), b, n, org);
    } else {
      var own := BurstOf(w.write);
      var i := RowOf(log, own);
      assert InBurst(NewRow(w), b) <==> own == b;
      if i < |log| {
        RecountKeepsCounted(log, w, i, b, n, org);
        assert InBurst(log[i], b) <==> own == b;
      } else if own == b {
        assert n == 0 by { NoRowNoCount(log, b, n, org); }
        FirstCounted(log, NewRow(w), b, org);
      } else {
        AppendCounted(log, NewRow(w), b, n, org);
      }
    }
  }

  lemma NoRowNoCount(log: seq<AuditRow>, b: Burst, n: nat, org: string)
    requires Counted(log, b, n, org) && RowOf(log, b) == |log|
    ensures n == 0
  {
  }

  lemma {:induction false} RetainedMembers(log: seq<AuditRow>, before: int)
    ensures forall r :: r in Retained(log, before) <==> r in log && !(r.createdAt < before && !(r.count > 0))
  {
    if log != [] {
      RetainedMembers(log[1..], before);
      assert log == [log[0]] + log[1..];
    }
  }

  lemma ConsCounted(r: AuditRow, log: seq<AuditRow>, b: Burst, n: nat, org: string)
    requires !InBurst(r, b)
    ensures Counted([r] + log, b, n, org) <==> Counted(log, b, n, org)
  {
    hide InBurst;
    var log2, i := [r] + log, RowOf(log, b);
    forall j | 0 <= j <= i ensures !InBurst(log2[j], b) {
      assert j > 0 ==> log2[j] == log[j - 1];
    }
    RowOfIs(log2, b, i + 1);
    assert forall j :: 0 < j < |log2| ==> log2[j] == log[j - 1];
    assert forall j :: 0 <= j < |log| ==> log[j] == log2[j + 1];
  }

  /** Purging takes no burst's row. */
  lemma {:induction false} PurgeCounted(log: seq<AuditRow>, before: int, b: Burst, n: nat, org: string)
    requires Counted(log, b, n, org)
    ensures Counted(Retained(log, before), b, n, org)
  {
    hide InBurst;
    if log != [] {
      var r, rest := log[0], log[1..];
      var kept := Retained(rest, before);
      assert log == [r] + rest;
      if InBurst(r, b) {
        RowOfIs(log, b, 0);
        RetainedMembers(rest, before);
        assert r.count > 0 by { BurstCounts(r, b); }
        forall x | x in kept ensures !InBurst(x, b) {
          var j :| 0 <= j < |rest| && rest[j] == x;
          assert log[j + 1] == x;
        }
        assert Retained(log, before) == [r] + kept;
        RowOfIs([r] + kept, b, 0);
      } else {
        ConsCounted(r, rest, b, n, org);
        PurgeCounted(rest, before, b, n, org);
        ConsCounted(r, kept, b, n, org);
        assert [] + kept == kept;
      }
    }
  }

  lemma BurstCounts(r: AuditRow, b: Burst)
    requires InBurst(r, b)
    ensures r.count > 0
  {
  }

  /** However denials, other events and purges mix, each burst has exactly one row, which
      counts its denials under the organisation of the first. */
  lemma {:induction false} EveryDenialCountedOnce(steps: seq<Step>, b: Burst)
    ensures Counted(AfterSteps([], steps), b, Denials(steps, b), FirstOrg(steps, b))
  {
    hide AfterWrite, Counted, Retained;
    if steps == [] {
      NothingCounted(b);
    } else {
      var before, e := steps[..|steps|-1], steps[|steps|-1];
      EveryDenialCountedOnce(before, b);
      match e
      case Wrote(w) => WriteCounted(AfterSteps([], before), w, b, Denials(before, b), FirstOrg(before, b));
      case Purge(now, olderThan) =>
        PurgeCounted(AfterSteps([], before), now - olderThan, b, Denials(before, b), FirstOrg(before, b));
    }
  }

  lemma NothingCounted(b: Burst)
    ensures Counted([], b, 0, "")
  {
  }

  /** No two rows of a written log are of one burst. */
  ghost predicate OneRowPerBurst(log: seq<AuditRow>)
  {
    forall i, j, b :: 0 <= i < j < |log| && InBurst(log[i], b) ==> !InBurst(log[j], b)
  }

  lemma WrittenOneRowPerBurst(steps: seq<Step>)
    ensures OneRowPerBurst(AfterSteps([], steps))
  {
    hide AfterSteps, InBurst;
    var log := AfterSteps([], steps);
    forall i, j, b | 0 <= i < j < |log| && InBurst(log[i], b) ensures !InBurst(log[j], b) {
      EveryDenialCountedOnce(steps, b);
    }
  }

  // ----- What the rows say

  /** The denials of the burst, in order. */
  function DenialsOf(steps: seq<Step>, b: Burst): seq<Stamped>
  {
    if steps == [] then []
    else DenialsOf(steps[..|steps|-1], b) + if IsDenial(steps[|steps|-1], b) then [steps[|steps|-1].w] else []
  }

  /** The row tells of the burst: who, where and from when as the first denial had it; why,
      in which request and until when as the latest that could be counted; and how many. */
  ghost predicate Tells(r: AuditRow, b: Burst, ds: seq<Stamped>)
  {
    && ds != []
    && var n := if |ds| < 0x7fff_ffff then |ds| else 0x7fff_ffff;
       var first, last := ds[0], ds[n - 1];
       && r.id == first.id && r.createdAt == first.now
       && r.orgId == first.write.e.orgId && r.actor == b.actor && r.action == b.action
       && r.targetId == first.write.e.targetId && r.clientReqId == first.write.e.clientReqId
       && r.resourceFp == b.resourceFp && r.firstAt == Some(b.windowStart)
       && r.detail == last.write.e.detail && r.requestId == last.write.e.requestId && r.lastAt == Some(last.now)
       && r.count == n
  }

  ghost predicate AllTell(log: seq<AuditRow>, b: Burst, ds: seq<Stamped>)
  {
    forall i :: 0 <= i < |log| && InBurst(log[i], b) ==> Tells(log[i], b, ds)
  }

  lemma NewRowTells(w: Stamped, b: Burst)
    requires w.write.Denial? && BurstOf(w.write) == b
    ensures Tells(NewRow(w), b, [w])
  {
  }

  lemma RecountedTells(r: AuditRow, w: Stamped, b: Burst, ds: seq<Stamped>)
    requires Tells(r, b, ds) && w.write.Denial? && BurstOf(w.write) == b
    ensures Tells(Recounted(r, w), b, ds + [w])
  {
  }

  lemma {:induction false} DenialsCount(steps: seq<Step>, b: Burst)
    ensures |DenialsOf(steps, b)| == Denials(steps, b)
  {
    hide IsDenial;
    if steps != [] {
      DenialsCount(steps[..|steps|-1], b);
    }
  }

  lemma WriteTells(log: seq<AuditRow>, w: Stamped, b: Burst, ds: seq<Stamped>, org: string)
    requires AllTell(log, b, ds) && Counted(log, b, |ds|, org)
    ensures AllTell(AfterWrite(log, w), b, if w.write.Denial? && BurstOf(w.write) == b then ds + [w] else ds)
  {
    hide Tells, Recounted;
    if w.write.Denial? {
      var own := BurstOf(w.write);
      var i := RowOf(log, own);
      if i < |log| {
        RecountedBurst(log[i], w, b);
        if own == b {
          RecountedTells(log[i], w, b, ds);
        }
      } else if own == b {
        assert ds == [] by { NoRowNoCount(log, b, |ds|, org); }
        NewRowTells(w, b);
        assert [] + [w] == [w];
      }
    }
  }

  /** Whatever else is written and purged, the row of a burst tells of it. */
  lemma {:induction false} BurstRowTells(steps: seq<Step>, b: Burst)
    ensures AllTell(AfterSteps([], steps), b, DenialsOf(steps, b))
  {
    hide AfterWrite, Tells, InBurst, Counted;
    if steps != [] {
      var before, e := steps[..|steps|-1], steps[|steps|-1];
      var log := AfterSteps([], before);
      BurstRowTells(before, b);
      EveryDenialCountedOnce(before, b);
      DenialsCount(before, b);
      assert DenialsOf(before, b) + [] == DenialsOf(before, b);
      match e
      case Wrote(w) => WriteTells(log, w, b, DenialsOf(before, b), FirstOrg(before, b));
      case Purge(now, olderThan) =>
        RetainedMembers(log, now - olderThan);
        var kept := Retained(log, now - olderThan);
        forall i | 0 <= i < |kept| && InBurst(kept[i], b) ensures Tells(kept[i], b, DenialsOf(before, b)) {
          assert kept[i] in kept;
        }
    }
  }

  /** The row of a single event. */
  function EventRow(w: Stamped): AuditRow
  {
    AuditRow(w.id, w.write.e.orgId, w.write.e.actor, w.write.e.action, w.write.e.targetId, w.write.e.detail,
             w.write.e.requestId, w.write.e.clientReqId, 0, None, None, w.now, "")
  }

  /** The purge takes what was written before the time it works out, if it does anything. */
  predicate Purges(e: Step, createdAt: int)
  {
    e.Purge? && e.olderThan >= 60 * 60 * 1_000_000_000 && createdAt < e.now - e.olderThan
  }

  /** An event written on its own is in the log, as it was written, until a purge of
      everything older than it takes it. */
  lemma {:induction false} EventKept(steps: seq<Step>, i: nat)
    requires i < |steps| && steps[i].Wrote? && steps[i].w.write.Append?
    requires forall k :: i < k < |steps| ==> !Purges(steps[k], steps[i].w.now)
    ensures EventRow(steps[i].w) in AfterSteps([], steps)
  {
    hide InBurst;
    var n, r := |steps| - 1, EventRow(steps[i].w);
    var log, e := AfterSteps([], steps[..n]), steps[n];
    if i == n {
      assert AfterSteps([], steps)[|log|] == r;
    } else {
      EventKept(steps[..n], i);
      match e
      case Wrote(w) => WriteKeepsEvent(log, w, r);
      case Purge(now, olderThan) => RetainedMembers(log, now - olderThan);
    }
  }

  lemma WriteKeepsEvent(log: seq<AuditRow>, w: Stamped, r: AuditRow)
    requires r in log && r.count == 0
    ensures r in AfterWrite(log, w)
  {
    var k :| 0 <= k < |log| && log[k] == r;
    assert AfterWrite(log, w)[k] == r;
  }

  /** After a purge no event on its own is older than the time it worked out. */
  lemma PurgedGone(log: seq<AuditRow>, e: Step, r: AuditRow)
    requires r in AfterStep(log, e) && r.count == 0
    ensures r in log || e.Wrote?
    ensures !Purges(e, r.createdAt)
  {
    hide AfterWrite;
    if e.Purge? {
      RetainedMembers(log, e.now - e.olderThan);
    }
  }

  // ----- Whose feed a denial shows in

  /** The feed of the organisation has the burst's row. */
  ghost predicate Shows(log: seq<AuditRow>, b: Burst, org: string)
  {
    exists i :: 0 <= i < |log| && InBurst(log[i], b) && log[i].orgId == org
  }

  lemma ShowsFirst(log: seq<AuditRow>, b: Burst, n: nat, first: string, org: string)
    requires Counted(log, b, n, first) && n > 0
    ensures Shows(log, b, org) <==> org == first
  {
    hide InBurst;
    var k := RowOf(log, b);
    if i :| 0 <= i < |log| && InBurst(log[i], b) && log[i].orgId == org {
      assert i == k;
    }
  }

  lemma {:induction false} FirstOrgIs(steps: seq<Step>, b: Burst, i: nat)
    requires i < |steps| && IsDenial(steps[i], b)
    ensures Denials(steps, b) > 0
    ensures exists k :: 0 <= k <= i && IsDenial(steps[k], b) && FirstOrg(steps, b) == OrgOf(steps[k])
  {
    var before, n := steps[..|steps|-1], |steps| - 1;
    if Denials(before, b) > 0 {
      var m := SomeDenial(before, b);
      if i < n {
        FirstOrgIs(before, b, i);
        var k :| 0 <= k <= i && IsDenial(before[k], b) && FirstOrg(before, b) == OrgOf(before[k]);
        assert steps[k] == before[k];
      } else {
        FirstOrgIs(before, b, m);
        var k :| 0 <= k <= m && IsDenial(before[k], b) && FirstOrg(before, b) == OrgOf(before[k]);
        assert steps[k] == before[k];
      }
    } else if i < n {
      FirstOrgIs(before, b, i);
    }
  }

  lemma {:induction false} SomeDenial(steps: seq<Step>, b: Burst) returns (i: nat)
    requires Denials(steps, b) > 0
    ensures i < |steps| && IsDenial(steps[i], b)
  {
    if IsDenial(steps[|steps|-1], b) {
      i := |steps| - 1;
    } else {
      i := SomeDenial(steps[..|steps|-1], b);
    }
  }

  /** All denials of the burst are of one organisation. */
  ghost predicate OneOrg(steps: seq<Step>, b: Burst)
  {
    forall i, j :: 0 <= i < |steps| && 0 <= j < |steps| && IsDenial(steps[i], b) && IsDenial(steps[j], b) ==>
      OrgOf(steps[i]) == OrgOf(steps[j])
  }

  /** The burst's key has no organisation in it: every denial shows in the feed of its own
      organisation exactly when all denials of the burst are of one. */
  lemma DenialsShowIff(steps: seq<Step>, b: Burst)
    ensures (forall i :: 0 <= i < |steps| && IsDenial(steps[i], b) ==>
               Shows(AfterSteps([], steps), b, OrgOf(steps[i])))
            <==> OneOrg(steps, b)
  {
    hide AfterSteps, IsDenial, Shows, Counted, FirstOrg, Denials;
    var log := AfterSteps([], steps);
    EveryDenialCountedOnce(steps, b);
    forall i | 0 <= i < |steps| && IsDenial(steps[i], b)
      ensures Shows(log, b, OrgOf(steps[i])) <==> OrgOf(steps[i]) == FirstOrg(steps, b)
      ensures exists k :: 0 <= k <= i && IsDenial(steps[k], b) && FirstOrg(steps, b) == OrgOf(steps[k])
    {
      FirstOrgIs(steps, b, i);
      ShowsFirst(log, b, Denials(steps, b), FirstOrg(steps, b), OrgOf(steps[i]));
    }
  }

  // ----- What the writers keep

  ghost predicate CountsOk(log: seq<AuditRow>)
  {
    forall i :: 0 <= i < |log| ==> log[i].count >= 0
  }

  lemma {:induction false} StepsKeepCounts(log: seq<AuditRow>, steps: seq<Step>)
    requires CountsOk(log)
    ensures CountsOk(AfterSteps(log, steps))
  {
    hide InBurst;
    if steps != [] {
      StepsKeepCounts(log, steps[..|steps|-1]);
      var before, e := AfterSteps(log, steps[..|steps|-1]), steps[|steps|-1];
      if e.Purge? {
        RetainedMembers(before, e.now - e.olderThan);
        var after := Retained(before, e.now - e.olderThan);
        assert forall i :: 0 <= i < |after| ==> after[i] in after;
      }
    }
  }

  /** Ids are drawn in sequence and clocks do not run back. */
  ghost predicate Later(log: seq<AuditRow>, w: Stamped)
  {
    forall i :: 0 <= i < |log| ==> log[i].id < w.id && log[i].createdAt <= w.now
  }

  ghost predicate AllLater(log: seq<AuditRow>, ws: seq<Stamped>)
  {
    ws == [] || (AllLater(log, ws[..|ws|-1]) && Later(AfterWrites(log, ws[..|ws|-1]), ws[|ws|-1]))
  }

  /** Nothing that places a row in the feed or filters it by anything but its request id. */
  ghost predicate SamePlace(r: AuditRow, r2: AuditRow)
  {
    r2 == r.(count := r2.count, lastAt := r2.lastAt, detail := r2.detail, requestId := r2.requestId)
  }

  /** The rows of log are those of grown in their places; the rest came later. */
  ghost predicate Grown(log: seq<AuditRow>, grown: seq<AuditRow>)
  {
    && |log| <= |grown|
    && (forall i :: 0 <= i < |log| ==> SamePlace(log[i], grown[i]))
    && (forall i, j :: 0 <= i < |log| <= j < |grown| ==>
          log[i].id < grown[j].id && log[i].createdAt <= grown[j].createdAt)
  }

  lemma WriteGrows(log: seq<AuditRow>, before: seq<AuditRow>, w: Stamped)
    requires Grown(log, before) && Later(before, w)
    ensures Grown(log, AfterWrite(before, w))
    ensures UniqueIds(before) ==> UniqueIds(AfterWrite(before, w))
  {
    hide InBurst;
    var after := AfterWrite(before, w);
    assert forall i :: 0 <= i < |before| ==> SamePlace(before[i], after[i]);
    forall i, j | 0 <= i < |log| <= j < |after|
      ensures log[i].id < after[j].id && log[i].createdAt <= after[j].createdAt
    {
      if j < |before| {
        assert SamePlace(before[j], after[j]);
      } else {
        assert after[j] == NewRow(w);
        assert SamePlace(log[i], before[i]);
      }
    }
  }

  /** The log only grows, its rows staying where they are. */
  lemma {:induction false} WritesGrow(log: seq<AuditRow>, ws: seq<Stamped>)
    requires UniqueIds(log) && AllLater(log, ws)
    ensures Grown(log, AfterWrites(log, ws)) && UniqueIds(AfterWrites(log, ws))
  {
    hide AfterWrite, Later;
    if ws != [] {
      WritesGrow(log, ws[..|ws|-1]);
      WriteGrows(log, AfterWrites(log, ws[..|ws|-1]), ws[|ws|-1]);
    }
  }
}
