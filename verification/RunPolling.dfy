/** How polling works through a backlog larger than one batch. */
module RunPolling {
  import opened Options
  import opened Runs
  import opened RunSafety

  // ----- The queue under one poll

  lemma {:induction false} WithoutAbsent(ids: seq<string>, id: string)
    requires id !in ids
    ensures Without(ids, id) == ids
  {
    if ids != [] {
      WithoutAbsent(ids[1..], id);
      assert ids == [ids[0]] + ids[1..];
    }
  }

  lemma WithoutCons(x: string, ids: seq<string>, id: string)
    ensures Without([x] + ids, id) == (if x == id then [] else [x]) + Without(ids, id)
  {
    assert ([x] + ids)[1..] == ids;
  }

  lemma {:induction false} WithoutConcat(a: seq<string>, b: seq<string>, id: string)
    ensures Without(a + b, id) == Without(a, id) + Without(b, id)
  {
    hide Without;
    if a == [] {
      assert a + b == b;
      WithoutAbsent(a, id);
    } else {
      var x, rest := a[0], a[1..];
      assert a == [x] + rest && a + b == [x] + (rest + b);
      WithoutConcat(rest, b, id);
      WithoutCons(x, rest, id);
      WithoutCons(x, rest + b, id);
    }
  }

  lemma {:induction false} PollableWithout(w: World, w2: World, ids: seq<string>, id: string)
    requires forall x :: x != id ==> (Pollable(w, x) <==> Pollable(w2, x))
    ensures PollableOf(w2, Without(ids, id)) == Without(PollableOf(w, ids), id)
  {
    hide Pollable;
    if ids != [] {
      PollableWithout(w, w2, ids[1..], id);
      var p := if Pollable(w, ids[0]) then [ids[0]] else [];
      WithoutConcat(p, PollableOf(w, ids[1..]), id);
      if ids[0] != id {
        assert Without(ids, id)[1..] == Without(ids[1..], id);
      }
    }
  }

  lemma PollableCons(w: World, x: string, ids: seq<string>)
    ensures PollableOf(w, [x] + ids) == (if Pollable(w, x) then [x] else []) + PollableOf(w, ids)
  {
    hide Pollable;
    assert ([x] + ids)[1..] == ids;
  }

  lemma {:induction false} PollableConcat(w: World, a: seq<string>, b: seq<string>)
    ensures PollableOf(w, a + b) == PollableOf(w, a) + PollableOf(w, b)
  {
    hide Pollable, PollableOf;
    if a == [] {
      assert a + b == b;
      PollableNone(w);
    } else {
      var x, rest := a[0], a[1..];
      assert a == [x] + rest && a + b == [x] + (rest + b);
      PollableConcat(w, rest, b);
      PollableCons(w, x, rest);
      PollableCons(w, x, rest + b);
    }
  }

  lemma PollableNone(w: World)
    ensures PollableOf(w, []) == []
  {
  }

  /** Whether the reading writes to the row of the run it is about. A reading that fails,
      or whose write fails, leaves the row and its place in the order alone, unless the
      key reference was cleared before the write failed. */
  predicate Touches(run: Run, reading: Reading)
  {
    reading.Read? &&
    (reading.updateOk || (Settled(NormalizeStatus(reading.ev.status)) && run.vkey != "" && reading.clearOk))
  }

  /** A run that was written to and is still to be polled. */
  predicate Rejoins(run: Run, reading: Reading)
  {
    Touches(run, reading) && !(reading.updateOk && Settled(NormalizeStatus(reading.ev.status)))
  }

  lemma RowAfter(run: Run, reading: Reading)
    ensures PolledRow(run, reading).externalId == run.externalId
    ensures !Touches(run, reading) ==> PolledRow(run, reading) == run
    ensures !Settled(run.status) && Touches(run, reading) ==>
              (Settled(PolledRow(run, reading).status) <==> !Rejoins(run, reading))
  {
    hide NormalizeStatus;
  }

  lemma PollRunOrder(w: World, id: string, reading: Reading, watching: bool)
    requires id in w.rows
    ensures PollRun(w, id, reading, watching).order ==
            if Touches(w.rows[id], reading) then Without(w.order, id) + [id] else w.order
  {
    hide NormalizeStatus, Without, Applied, Observes, Settled;
    MovedTwice(w.order, id);
  }

  lemma MovedTwice(ids: seq<string>, id: string)
    ensures Without(Without(ids, id) + [id], id) + [id] == Without(ids, id) + [id]
  {
    WithoutMembers(ids, id);
    WithoutAbsent(Without(ids, id), id);
    WithoutConcat(Without(ids, id), [id], id);
    assert [id][1..] == [];
  }

  /** A run that is written to leaves its place, and rejoins at the back if it is still to
      be polled; any other stays where it is. */
  lemma PollRunQueue(w: World, id: string, reading: Reading, watching: bool)
    requires Pollable(w, id)
    ensures Queue(PollRun(w, id, reading, watching)) ==
            if Touches(w.rows[id], reading)
            then Without(Queue(w), id) + (if Rejoins(w.rows[id], reading) then [id] else [])
            else Queue(w)
  {
    hide NormalizeStatus, PollRun, Without, PollableOf, Touches, Rejoins, PolledRow, Settled;
    var w2 := PollRun(w, id, reading, watching);
    PollRunEffect(w, id, reading, watching);
    PollRunOrder(w, id, reading, watching);
    RowAfter(w.rows[id], reading);
    if Touches(w.rows[id], reading) {
      PollableWithout(w, w2, w.order, id);
      PollableConcat(w2, Without(w.order, id), [id]);
      PollableSingle(w2, id);
    } else {
      assert w2.rows == w.rows;
      PollableSame(w, w2, w.order);
    }
  }

  lemma {:induction false} PollableSame(w: World, w2: World, ids: seq<string>)
    requires w2.rows == w.rows
    ensures PollableOf(w2, ids) == PollableOf(w, ids)
  {
    if ids != [] {
      PollableSame(w, w2, ids[1..]);
    }
  }

  lemma PollableSingle(w: World, id: string)
    ensures PollableOf(w, [id]) == if Pollable(w, id) then [id] else []
  {
    hide Pollable;
    assert [id][1..] == [];
  }

  // ----- The queue under one pass

  /** The reading of row id, as it is in w, leaves it where it is. */
  predicate Stays(w: World, id: string, readings: map<string, Reading>)
  {
    id in w.rows && !Touches(w.rows[id], ReadingOf(readings, id))
  }

  predicate Returns(w: World, id: string, readings: map<string, Reading>)
  {
    id in w.rows && Rejoins(w.rows[id], ReadingOf(readings, id))
  }

  function Stuck(w: World, ids: seq<string>, readings: map<string, Reading>): seq<string>
  {
    if ids == [] then []
    else Stuck(w, ids[..|ids|-1], readings) + (if Stays(w, ids[|ids|-1], readings) then [ids[|ids|-1]] else [])
  }

  function Rejoining(w: World, ids: seq<string>, readings: map<string, Reading>): seq<string>
  {
    if ids == [] then []
    else Rejoining(w, ids[..|ids|-1], readings)
         + (if Returns(w, ids[|ids|-1], readings) then [ids[|ids|-1]] else [])
  }

  lemma {:induction false} SubsetMembers(w: World, ids: seq<string>, readings: map<string, Reading>)
    ensures forall x :: x in Stuck(w, ids, readings) ==> x in ids && Stays(w, x, readings)
    ensures forall x :: x in Rejoining(w, ids, readings) ==> x in ids
  {
    hide Stays, Returns;
    if ids != [] {
      SubsetMembers(w, ids[..|ids|-1], readings);
    }
  }

  lemma PassStep(w: World, a: seq<string>, id: string, b: seq<string>, c: seq<string>,
                 reading: Reading, watching: bool)
    requires Inv(w) && Pollable(w, id)
    requires Queue(w) == a + ([id] + b) + c && id !in a && id !in b && id !in c
    ensures Inv(PollRun(w, id, reading, watching))
    ensures var run := w.rows[id];
            Queue(PollRun(w, id, reading, watching)) ==
            (a + (if Touches(run, reading) then [] else [id])) + b + (c + (if Rejoins(run, reading) then [id] else []))
  {
    hide Inv, PollRun, Queue, Without, NormalizeStatus;
    PollRunInv(w, id, reading, watching);
    PollRunQueue(w, id, reading, watching);
    RemoveMiddle(a, id, b, c);
  }

  lemma PassRow(w: World, q: seq<string>, j: nat, readings: map<string, Reading>, watching: bool)
    requires Inv(w) && j < |q| && NoDup(q) && forall i :: 0 <= i < |q| ==> Pollable(w, q[i])
    ensures Pollable(PollAll(w, q[..j], readings, watching), q[j])
    ensures q[j] in w.rows && PollAll(w, q[..j], readings, watching).rows[q[j]] == w.rows[q[j]]
    ensures q[j] !in q[..j] && q[j] !in q[j + 1..]
  {
    hide Inv, PollAll, PolledRow, ReadingOf;
    PollAllInv(w, q[..j], readings, watching);
  }

  /** After the first j polls of a pass over queue q: those left alone still in front, then
      the rest of q, then those that rejoined. */
  lemma {:induction false} PassPrefix(w: World, q: seq<string>, j: nat, readings: map<string, Reading>, watching: bool)
    requires Inv(w) && q == Queue(w) && j <= |q|
    ensures Inv(PollAll(w, q[..j], readings, watching))
    ensures Queue(PollAll(w, q[..j], readings, watching)) ==
            Stuck(w, q[..j], readings) + q[j..] + Rejoining(w, q[..j], readings)
  {
    hide Inv, PollRun, Queue, Pollable, NoDup, Touches, Rejoins;
    QueueOk(w);
    if j > 0 {
      var id, done := q[j - 1], q[..j - 1];
      assert q[..j] == done + [id] && q[..j][..j - 1] == done;
      assert id in w.rows by { QueuedRow(w, j - 1); }
      PassPrefix(w, q, j - 1, readings, watching);
      PassRow(w, q, j - 1, readings, watching);
      SubsetMembers(w, done, readings);
      assert q[j - 1..] == [id] + q[j..];
      PassStep(PollAll(w, done, readings, watching), Stuck(w, done, readings), id, q[j..],
               Rejoining(w, done, readings), ReadingOf(readings, id), watching);
    } else {
      assert q[..0] == [] && q[0..] == q;
    }
  }

  lemma QueuedRow(w: World, i: nat)
    requires Inv(w) && i < |Queue(w)|
    ensures Queue(w)[i] in w.rows
  {
    hide Queue, Inv;
    QueueOk(w);
  }

  lemma QueueOk(w: World)
    requires Inv(w)
    ensures NoDup(Queue(w)) && forall i :: 0 <= i < |Queue(w)| ==> Pollable(w, Queue(w)[i])
  {
    hide Pollable, KeyRefsOk, NoStrayKey, ObservedOnce;
    PollableNoDup(w, w.order);
    assert forall i :: 0 <= i < |Queue(w)| ==> Queue(w)[i] in Queue(w);
  }

  lemma RemoveMiddle(a: seq<string>, id: string, b: seq<string>, c: seq<string>)
    requires id !in a && id !in b && id !in c
    ensures Without(a + ([id] + b) + c, id) == a + b + c
  {
    WithoutConcat(a + ([id] + b), c, id);
    WithoutConcat(a, [id] + b, id);
    WithoutConcat([id], b, id);
    WithoutAbsent(a, id);
    WithoutAbsent(b, id);
    WithoutAbsent(c, id);
    assert [id][1..] == [];
    assert Without([id], id) == [];
  }

  /** One pass: the runs of the batch that could not be read or written stay in front, the
      ongoing ones go to the back, the settled ones are gone. */
  lemma PassQueue(w: World, readings: map<string, Reading>, watching: bool)
    requires Inv(w)
    ensures var b := Batch(w);
            Queue(PollAll(w, b, readings, watching)) ==
            Stuck(w, b, readings) + Queue(w)[|b|..] + Rejoining(w, b, readings)
    ensures Inv(PollAll(w, Batch(w), readings, watching))
  {
    hide Inv, PollAll, Queue, Stuck, Rejoining;
    assert Batch(w) == Queue(w)[..|Batch(w)|];
    PassPrefix(w, Queue(w), |Batch(w)|, readings, watching);
  }

  /** One pass with a configured token. */
  function Pass(w: World, readings: map<string, Reading>, watching: bool): World
  {
    PollAll(w, Batch(w), readings, watching)
  }

  // ----- Draining a backlog

  function Passes(w: World, readings: map<string, Reading>, watching: bool, m: nat): World
    decreases m
  {
    if m == 0 then w else Passes(Pass(w, readings, watching), readings, watching, m - 1)
  }

  predicate Ends(reading: Reading)
  {
    reading.Read? && reading.revokeOk && reading.updateOk && Settled(NormalizeStatus(reading.ev.status))
  }

  ghost predicate AllEnd(readings: map<string, Reading>, ids: seq<string>)
  {
    forall x :: x in ids ==> Ends(ReadingOf(readings, x))
  }

  lemma {:induction false} NoneLeft(w: World, ids: seq<string>, readings: map<string, Reading>)
    requires AllEnd(readings, ids)
    ensures Stuck(w, ids, readings) == [] && Rejoining(w, ids, readings) == []
  {
    hide NormalizeStatus, ReadingOf;
    if ids != [] {
      NoneLeft(w, ids[..|ids|-1], readings);
      assert ids[|ids|-1] in ids;
    }
  }

  lemma PollRunKills(w: World, id: string, reading: Reading, watching: bool)
    ensures PollRun(w, id, reading, watching).live <= w.live
    ensures id in w.rows && Ends(reading) && w.rows[id].vkey != "" ==>
              w.rows[id].vkey !in PollRun(w, id, reading, watching).live
  {
    hide NormalizeStatus, PollRun;
    if id in w.rows {
      PollRunEffect(w, id, reading, watching);
    } else {
      PollRunAbsent(w, id, reading, watching);
    }
  }

  lemma {:induction false} PollAllKills(w: World, ids: seq<string>, readings: map<string, Reading>, watching: bool)
    requires Inv(w) && NoDup(ids) && AllEnd(readings, ids)
    requires forall i :: 0 <= i < |ids| ==> Pollable(w, ids[i])
    ensures forall x :: x in ids && x in w.rows && w.rows[x].vkey != "" ==>
              w.rows[x].vkey !in PollAll(w, ids, readings, watching).live
  {
    hide Inv, PollRun, PolledRow, ReadingOf, Ends;
    if ids != [] {
      var n := |ids| - 1;
      var id, before := ids[n], PollAll(w, ids[..n], readings, watching);
      assert ids == ids[..n] + [id] && id !in ids[..n];
      PollAllKills(w, ids[..n], readings, watching);
      PollAllInv(w, ids[..n], readings, watching);
      assert before.rows[id] == w.rows[id];
      assert Ends(ReadingOf(readings, id));
      PollRunKills(before, id, ReadingOf(readings, id), watching);
    }
  }

  lemma {:induction false} PollAllLive(w: World, ids: seq<string>, readings: map<string, Reading>, watching: bool)
    ensures PollAll(w, ids, readings, watching).live <= w.live
  {
    hide PollRun;
    if ids != [] {
      PollAllLive(w, ids[..|ids|-1], readings, watching);
      PollRunKills(PollAll(w, ids[..|ids|-1], readings, watching), ids[|ids|-1],
                   ReadingOf(readings, ids[|ids|-1]), watching);
    }
  }

  /** Further passes leave a settled row alone and revive no key. */
  lemma {:induction false} PassesKeep(w: World, readings: map<string, Reading>, watching: bool, m: nat, id: string)
    requires Inv(w) && id in w.rows && Settled(w.rows[id].status)
    ensures var w2 := Passes(w, readings, watching, m);
            id in w2.rows && w2.rows[id] == w.rows[id] && w2.live <= w.live
    decreases m
  {
    hide Inv, PollAll, Batch;
    if m > 0 {
      PollOnceInv(w, Some("token"), readings, watching);
      PollAllLive(w, Batch(w), readings, watching);
      PassesKeep(Pass(w, readings, watching), readings, watching, m - 1, id);
    }
  }

  lemma EndedRow(run: Run, reading: Reading)
    requires Ends(reading)
    ensures Settled(PolledRow(run, reading).status)
  {
    hide NormalizeStatus;
  }

  /** The runs of the batch are settled and their keys revoked; the rest of the queue
      moves up unchanged. */
  lemma EndingPass(w: World, readings: map<string, Reading>, watching: bool)
    requires Inv(w) && AllEnd(readings, Queue(w))
    ensures var w2, b := Pass(w, readings, watching), Batch(w);
            && Inv(w2)
            && Queue(w2) == Queue(w)[|b|..]
            && (forall x :: x in b ==>
                  x in w.rows && x in w2.rows && Settled(w2.rows[x].status)
                  && (w.rows[x].vkey != "" ==> w.rows[x].vkey !in w2.live))
            && (forall x :: x in w.rows && x !in b ==> x in w2.rows && w2.rows[x] == w.rows[x])
  {
    hide Inv, PollAll, Queue, PolledRow, ReadingOf, Ends, Settled, Stuck, Rejoining;
    var b := Batch(w);
    assert forall x :: x in b ==> x in Queue(w);
    PassQueue(w, readings, watching);
    NoneLeft(w, b, readings);
    assert TableOk(w) by { InvTable(w); }
    BatchOk(w);
    PollAllInv(w, b, readings, watching);
    PollAllKills(w, b, readings, watching);
    forall x | x in b ensures Settled(PolledRow(w.rows[x], ReadingOf(readings, x)).status) {
      EndedRow(w.rows[x], ReadingOf(readings, x));
    }
  }

  /** If every queued run is over at the provider, m passes settle all of them and revoke
      their keys, as soon as m batches cover the queue. */
  lemma {:induction false} BacklogDrains(w: World, readings: map<string, Reading>, watching: bool, m: nat, id: string)
    requires Inv(w) && AllEnd(readings, Queue(w))
    requires |Queue(w)| <= m * POLL_BATCH && id in Queue(w)
    ensures var w2 := Passes(w, readings, watching, m);
            && id in w.rows && id in w2.rows && Settled(w2.rows[id].status)
            && (w.rows[id].vkey != "" ==> w.rows[id].vkey !in w2.live)
    decreases m
  {
    hide Inv, Queue, Pass, AllEnd, Pollable, Batch;
    var w1 := Pass(w, readings, watching);
    QueueOk(w);
    EndingPass(w, readings, watching);
    if id in Batch(w) {
      PassesKeep(w1, readings, watching, m - 1, id);
    } else {
      BatchSplit(w);
      assert id in Queue(w1);
      assert AllEnd(readings, Queue(w1)) by { AllEndSub(readings, Queue(w), Queue(w1)); }
      assert id in w.rows by { InRows(w, id); }
      BacklogDrains(w1, readings, watching, m - 1, id);
    }
  }

  lemma BatchSplit(w: World)
    ensures |Batch(w)| <= |Queue(w)| && Queue(w) == Batch(w) + Queue(w)[|Batch(w)|..]
    ensures Batch(w) == Queue(w) || |Batch(w)| == POLL_BATCH
  {
    hide Queue;
  }

  lemma AllEndSub(readings: map<string, Reading>, ids: seq<string>, sub: seq<string>)
    requires AllEnd(readings, ids) && forall x :: x in sub ==> x in ids
    ensures AllEnd(readings, sub)
  {
  }

  lemma InRows(w: World, id: string)
    requires id in Queue(w)
    ensures id in w.rows
  {
  }

  // ----- Polling again changes nothing

  /** A second reading with the same answer finds nothing to do: the run settled, or its
      row, its key and the observer's list stay as they are. */
  lemma SecondReading(run: Run, reading: Reading)
    requires !Settled(PolledRow(run, reading).status)
    ensures PolledRow(PolledRow(run, reading), reading) == PolledRow(run, reading)
  {
    hide NormalizeStatus;
  }

  lemma {:induction false} PollAllRows(w: World, ids: seq<string>, readings: map<string, Reading>, watching: bool)
    requires Inv(w) && NoDup(ids)
    requires forall i :: 0 <= i < |ids| ==> Pollable(w, ids[i])
    requires forall x :: x in ids && x in w.rows ==> PolledRow(w.rows[x], ReadingOf(readings, x)) == w.rows[x]
    ensures PollAll(w, ids, readings, watching).rows == w.rows
  {
    hide Inv, PolledRow, PollAll, ReadingOf;
    PollAllInv(w, ids, readings, watching);
  }

  /** With at most one batch queued and the provider unchanged, a second pass leaves every
      row as the first left it, whichever calls failed. */
  lemma SecondPassIsQuiet(w: World, readings: map<string, Reading>, watching: bool)
    requires Inv(w) && |Queue(w)| <= POLL_BATCH
    ensures var w1 := Pass(w, readings, watching);
            Pass(w1, readings, watching).rows == w1.rows
  {
    hide Inv, PollAll, PolledRow, ReadingOf, Queue, Settled;
    var w1 := Pass(w, readings, watching);
    assert TableOk(w) by { InvTable(w); }
    BatchOk(w);
    PollAllInv(w, Batch(w), readings, watching);
    assert TableOk(w1) by { InvTable(w1); }
    BatchOk(w1);
    forall x | x in Batch(w1) ensures PolledRow(w1.rows[x], ReadingOf(readings, x)) == w1.rows[x] {
      assert Pollable(w1, x);
      assert x !in Batch(w) ==> w1.rows[x] == w.rows[x];
      assert Pollable(w, x);
      InQueue(w, x);
      SecondReading(w.rows[x], ReadingOf(readings, x));
    }
    PollAllRows(w1, Batch(w1), readings, watching);
  }

  lemma InQueue(w: World, x: string)
    requires TableOk(w) && Pollable(w, x)
    ensures x in Queue(w)
  {
  }
}
