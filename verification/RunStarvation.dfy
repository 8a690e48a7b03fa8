/** Which queued runs are ever polled, when some cannot be read or written. */
module RunStarvation {
  import opened Options
  import opened Runs
  import opened RunSafety
  import opened RunPolling

  /** What happens up to one pass: some launches, then the provider's answers. */
  datatype Round = Round(launches: seq<Event>, readings: map<string, Reading>)

  /** Run r is in the batch of some pass. */
  predicate EverPolled(w: World, rounds: seq<Round>, watching: bool, r: string)
    decreases |rounds|
  {
    && rounds != []
    && var w1 := After(w, rounds[0].launches);
       r in Batch(w1) || EverPolled(Pass(w1, rounds[0].readings, watching), rounds[1..], watching, r)
  }

  ghost predicate OnlyLaunches(events: seq<Event>)
  {
    forall e :: e in events ==> e.LaunchEvent?
  }

  ghost predicate FreshRounds(w: World, rounds: seq<Round>, watching: bool)
    decreases |rounds|
  {
    rounds == [] ||
    (&& OnlyLaunches(rounds[0].launches) && AllFresh(w, rounds[0].launches)
     && FreshRounds(Pass(After(w, rounds[0].launches), rounds[0].readings, watching), rounds[1..], watching))
  }

  function CountOf(ids: seq<string>, down: set<string>): nat
  {
    if ids == [] then 0 else CountOf(ids[..|ids|-1], down) + (if ids[|ids|-1] in down then 1 else 0)
  }

  /** Of the runs in ids exactly those in `down` are left alone by the readings. */
  ghost predicate DownIs(w: World, readings: map<string, Reading>, ids: seq<string>, down: set<string>)
  {
    forall x :: x in ids ==> x in w.rows && (Stays(w, x, readings) <==> x in down)
  }

  lemma {:induction false} CountConcat(a: seq<string>, b: seq<string>, down: set<string>)
    ensures CountOf(a + b, down) == CountOf(a, down) + CountOf(b, down)
  {
    if b == [] {
      assert a + b == a;
    } else {
      CountConcat(a, b[..|b|-1], down);
      assert (a + b)[..|a + b| - 1] == a + b[..|b|-1];
    }
  }

  lemma {:induction false} CountBound(ids: seq<string>, down: set<string>)
    ensures CountOf(ids, down) <= |ids|
  {
    if ids != [] {
      CountBound(ids[..|ids|-1], down);
    }
  }

  /** Taking runs away takes none of the others. */
  lemma {:induction false} StuckSubset(w: World, ids: seq<string>, readings: map<string, Reading>, any: set<string>)
    ensures CountOf(Stuck(w, ids, readings), any) <= CountOf(ids, any)
  {
    hide Stays;
    if ids != [] {
      var n := |ids| - 1;
      StuckSubset(w, ids[..n], readings, any);
      var before := Stuck(w, ids[..n], readings);
      if Stays(w, ids[n], readings) {
        assert (before + [ids[n]])[..|before|] == before;
      } else {
        assert before + [] == before;
      }
    }
  }

  lemma {:induction false} StuckCount(w: World, ids: seq<string>, readings: map<string, Reading>, down: set<string>)
    requires DownIs(w, readings, ids, down)
    ensures |Stuck(w, ids, readings)| == CountOf(ids, down) == CountOf(Stuck(w, ids, readings), down)
  {
    hide Stays;
    if ids != [] {
      var n := |ids| - 1;
      StuckCount(w, ids[..n], readings, down);
      var before := Stuck(w, ids[..n], readings);
      if Stays(w, ids[n], readings) {
        assert (before + [ids[n]])[..|before|] == before;
      } else {
        assert before + [] == before;
      }
    }
  }

  /** While r waits behind a full batch, a pass keeps ahead of r those it could not write to,
      as they are, and takes the others of the batch away. */
  lemma WaitingPass(w: World, readings: map<string, Reading>, watching: bool,
                    pre: seq<string>, r: string, post: seq<string>, down: set<string>)
    returns (pre': seq<string>, post': seq<string>)
    requires Inv(w) && Queue(w) == pre + [r] + post
    requires |pre| >= POLL_BATCH && DownIs(w, readings, pre, down)
    ensures Inv(Pass(w, readings, watching))
    ensures Queue(Pass(w, readings, watching)) == pre' + [r] + post'
    ensures forall x :: x in pre' ==> x in pre
    ensures SameRows(w, Pass(w, readings, watching), pre')
    ensures CountOf(pre', down) == CountOf(pre, down)
    ensures forall any: set<string> :: CountOf(pre', any) <= CountOf(pre, any)
    ensures CountOf(pre, down) < POLL_BATCH ==> |pre'| < |pre|
  {
    hide Inv, PollAll, Queue, Stuck, Rejoining, CountOf, Stays, Pollable;
    PassQueue(w, readings, watching);
    var b, rest := pre[..POLL_BATCH], pre[POLL_BATCH..];
    assert pre == b + rest;
    assert Batch(w) == b && Queue(w)[|b|..] == rest + [r] + post;
    pre', post' := Stuck(w, b, readings) + rest, post + Rejoining(w, b, readings);
    assert Stuck(w, b, readings) + (rest + [r] + post) + Rejoining(w, b, readings) == pre' + [r] + post';
    SubsetMembers(w, b, readings);
    StuckCount(w, b, readings, down);
    CountConcat(b, rest, down);
    CountConcat(Stuck(w, b, readings), rest, down);
    forall any: set<string> ensures CountOf(pre', any) <= CountOf(pre, any) {
      StuckSubset(w, b, readings, any);
      CountConcat(b, rest, any);
      CountConcat(Stuck(w, b, readings), rest, any);
    }
    WaitingRows(w, readings, watching, pre, rest, r, post);
  }

  ghost predicate SameRows(w: World, w2: World, ids: seq<string>)
  {
    forall x :: x in ids ==> x in w.rows && x in w2.rows && w2.rows[x] == w.rows[x]
  }

  lemma WaitingRows(w: World, readings: map<string, Reading>, watching: bool,
                    pre: seq<string>, rest: seq<string>, r: string, post: seq<string>)
    requires Inv(w) && Queue(w) == pre + [r] + post && |pre| >= POLL_BATCH && rest == pre[POLL_BATCH..]
    requires Batch(w) == pre[..POLL_BATCH]
    ensures SameRows(w, Pass(w, readings, watching), Stuck(w, Batch(w), readings) + rest)
  {
    hide Inv, PollAll, Queue, Stuck, PolledRow, Touches, ReadingOf, Pollable;
    QueueOk(w);
    assert TableOk(w) by { InvTable(w); }
    BatchOk(w);
    PollAllInv(w, Batch(w), readings, watching);
    SubsetMembers(w, Batch(w), readings);
    forall x | x in Stuck(w, Batch(w), readings) + rest
      ensures x in w.rows && Pass(w, readings, watching).rows[x] == w.rows[x]
    {
      if x in Stuck(w, Batch(w), readings) {
        RowAfter(w.rows[x], ReadingOf(readings, x));
      } else {
        var i :| 0 <= i < |rest| && rest[i] == x;
        assert Queue(w)[POLL_BATCH + i] == x;
        assert x !in Batch(w);
        QueuedRow(w, POLL_BATCH + i);
      }
    }
  }

  lemma InBatch(w: World, pre: seq<string>, r: string, post: seq<string>)
    requires Inv(w) && Queue(w) == pre + [r] + post
    ensures r in Batch(w) <==> |pre| < POLL_BATCH
  {
    hide Inv, Queue, Pollable;
    QueueOk(w);
    assert Queue(w)[|pre|] == r;
    if |pre| < POLL_BATCH {
      assert Batch(w)[|pre|] == r;
    }
  }

  lemma DownCarries(
    w: World, w2: World, readings: map<string, Reading>, ids: seq<string>, sub: seq<string>, down: set<string>)
    requires DownIs(w, readings, ids, down) && SameRows(w, w2, sub) && forall x :: x in sub ==> x in ids
    ensures DownIs(w2, readings, sub, down)
  {
  }

  // ----- Launches join the back of the queue

  lemma TouchedAgain(ids: seq<string>, id: string)
    requires id !in ids
    ensures Without(ids, id) + [id] == ids + [id] && Without(ids + [id], id) + [id] == ids + [id]
  {
    WithoutAbsent(ids, id);
    WithoutConcat(ids, [id], id);
    assert Without([id], id) == [] by { assert [id][1..] == []; }
    assert ids + [] == ids;
  }

  lemma LaunchRowOrder(w: World, s: LaunchSpec, vkey: string, e: LaunchEnv)
    requires e.runId !in w.order
    ensures LaunchRow(w, s, vkey, e).order == if Recorded(s, e) then w.order + [e.runId] else w.order
  {
    hide Without, NormalizeStatus, Applied;
    TouchedAgain(w.order, e.runId);
  }

  lemma {:induction false} PollableKept(w: World, w2: World, ids: seq<string>)
    requires forall x :: x in ids ==> (Pollable(w2, x) <==> Pollable(w, x))
    ensures PollableOf(w2, ids) == PollableOf(w, ids)
  {
    hide Pollable;
    if ids != [] {
      PollableKept(w, w2, ids[1..]);
    }
  }

  /** Launching adds at most one run to the back of the queue and changes no row. */
  lemma LaunchQueue(w: World, s: LaunchSpec, e: LaunchEnv) returns (more: seq<string>)
    requires TableOk(w) && FreshIds(w, LaunchEvent(s, e))
    ensures Queue(Launch(w, s, e)) == Queue(w) + more
    ensures forall x :: x in w.rows ==> x in Launch(w, s, e).rows && Launch(w, s, e).rows[x] == w.rows[x]
  {
    hide Validate, LaunchRow, NoDup, NormalizeStatus;
    more := [];
    assert Queue(w) + [] == Queue(w);
    if Admitted(s, e) {
      var vkey := if s.viaGateway then e.key.value else "";
      var w1 := if s.viaGateway then Mint(w, vkey) else w;
      LaunchRowEffect(w1, s, vkey, e);
      LaunchRowOrder(w1, s, vkey, e);
      var w2 := Launch(w, s, e);
      PollableKept(w, w2, w.order);
      if Recorded(s, e) {
        more := PollableOf(w2, [e.runId]);
        PollableConcat(w2, w.order, [e.runId]);
      }
    }
  }

  lemma {:induction false} LaunchesQueue(w: World, events: seq<Event>) returns (more: seq<string>)
    requires Inv(w) && OnlyLaunches(events) && AllFresh(w, events)
    ensures Inv(After(w, events)) && Queue(After(w, events)) == Queue(w) + more
    ensures forall x :: x in w.rows ==> x in After(w, events).rows && After(w, events).rows[x] == w.rows[x]
  {
    hide Inv, Queue, Step, FreshIds;
    if events == [] {
      more := [];
      assert Queue(w) + [] == Queue(w);
    } else {
      var n := |events| - 1;
      var e, before := events[n], After(w, events[..n]);
      assert e in events;
      var first := LaunchesQueue(w, events[..n]);
      StepInv(before, e);
      assert TableOk(before) by { InvTable(before); }
      var last := LaunchQueue(before, e.spec, e.launch);
      assert Step(before, e) == Launch(before, e.spec, e.launch) by { LaunchStep(before, e); }
      more := first + last;
      assert (Queue(w) + first) + last == Queue(w) + more;
    }
  }

  lemma LaunchStep(w: World, e: Event)
    requires e.LaunchEvent?
    ensures Step(w, e) == Launch(w, e.spec, e.launch)
  {
  }

  /** The runs ahead of r are the same after the launches of a round. */
  lemma RoundBegins(w: World, launches: seq<Event>, pre: seq<string>, r: string, post: seq<string>)
    returns (post': seq<string>)
    requires Inv(w) && OnlyLaunches(launches) && AllFresh(w, launches) && Queue(w) == pre + [r] + post
    ensures var w1 := After(w, launches); Inv(w1) && Queue(w1) == pre + [r] + post' && SameRows(w, w1, pre)
  {
    hide Inv, Queue, After, AllFresh, OnlyLaunches;
    var more := LaunchesQueue(w, launches);
    post' := post + more;
    assert (pre + [r] + post) + more == pre + [r] + post';
    forall x | x in pre ensures x in w.rows {
      assert x in Queue(w);
      QueuedHasRow(w, x);
    }
  }

  lemma QueuedHasRow(w: World, x: string)
    requires x in Queue(w)
    ensures x in w.rows
  {
  }

  // ----- Who is polled

  /** However the provider's reachability changes and whatever is launched meanwhile, a
      queued run is polled within one pass more than there are runs ahead of it, if in each
      fewer than a full batch of those cannot be read or written. */
  lemma {:induction false} PolledIfFewDownEachPass(
    w: World, rounds: seq<Round>, watching: bool,
    pre: seq<string>, r: string, post: seq<string>, downs: seq<set<string>>)
    requires Inv(w) && Queue(w) == pre + [r] + post && |rounds| == |downs| > |pre| && FreshRounds(w, rounds, watching)
    requires forall t :: 0 <= t < |rounds| ==>
               DownIs(w, rounds[t].readings, pre, downs[t]) && CountOf(pre, downs[t]) < POLL_BATCH
    ensures EverPolled(w, rounds, watching, r)
    decreases |rounds|
  {
    hide Inv, Queue, Batch, Pass, CountOf, DownIs, SameRows, After, AllFresh, OnlyLaunches;
    var w1 := After(w, rounds[0].launches);
    var post1 := RoundBegins(w, rounds[0].launches, pre, r, post);
    InBatch(w1, pre, r, post1);
    if |pre| >= POLL_BATCH {
      var w2 := Pass(w1, rounds[0].readings, watching);
      DownCarries(w, w1, rounds[0].readings, pre, pre, downs[0]);
      var pre', post' := WaitingPass(w1, rounds[0].readings, watching, pre, r, post1, downs[0]);
      forall t | 0 <= t < |rounds[1..]|
        ensures DownIs(w2, rounds[1..][t].readings, pre', downs[1..][t]) && CountOf(pre', downs[1..][t]) < POLL_BATCH
      {
        assert rounds[1..][t] == rounds[1 + t] && downs[1..][t] == downs[1 + t];
        DownCarries(w, w1, rounds[1 + t].readings, pre, pre, downs[1 + t]);
        DownCarries(w1, w2, rounds[1 + t].readings, pre, pre', downs[1 + t]);
      }
      PolledIfFewDownEachPass(w2, rounds[1..], watching, pre', r, post', downs[1..]);
    }
  }

  lemma {:induction false} NeverPolled(w: World, rounds: seq<Round>, watching: bool,
                                       pre: seq<string>, r: string, post: seq<string>, down: set<string>)
    requires Inv(w) && Queue(w) == pre + [r] + post && CountOf(pre, down) >= POLL_BATCH
    requires FreshRounds(w, rounds, watching)
    requires forall t :: 0 <= t < |rounds| ==> DownIs(w, rounds[t].readings, pre, down)
    ensures !EverPolled(w, rounds, watching, r)
    decreases |rounds|
  {
    hide Inv, Queue, Batch, Pass, CountOf, DownIs, SameRows, After, AllFresh, OnlyLaunches;
    CountBound(pre, down);
    if rounds != [] {
      var w1 := After(w, rounds[0].launches);
      var post1 := RoundBegins(w, rounds[0].launches, pre, r, post);
      InBatch(w1, pre, r, post1);
      var w2 := Pass(w1, rounds[0].readings, watching);
      DownCarries(w, w1, rounds[0].readings, pre, pre, down);
      var pre', post' := WaitingPass(w1, rounds[0].readings, watching, pre, r, post1, down);
      forall t | 0 <= t < |rounds[1..]| ensures DownIs(w2, rounds[1..][t].readings, pre', down) {
        DownCarries(w, w1, rounds[1 + t].readings, pre, pre, down);
        DownCarries(w1, w2, rounds[1 + t].readings, pre, pre', down);
      }
      NeverPolled(w2, rounds[1..], watching, pre', r, post', down);
    }
  }

  /** Starvation, exactly: while the same runs cannot be read or written, whatever is
      launched meanwhile and given enough passes, a queued run is polled if and only if
      fewer than a full batch of those is ahead of it. */
  lemma PolledIffFewDownAhead(w: World, rounds: seq<Round>, watching: bool,
                              pre: seq<string>, r: string, post: seq<string>, down: set<string>)
    requires Inv(w) && Queue(w) == pre + [r] + post && |rounds| > |pre| && FreshRounds(w, rounds, watching)
    requires forall t :: 0 <= t < |rounds| ==> DownIs(w, rounds[t].readings, pre, down)
    ensures EverPolled(w, rounds, watching, r) <==> CountOf(pre, down) < POLL_BATCH
  {
    hide Inv, Queue, EverPolled, CountOf, DownIs, FreshRounds;
    if CountOf(pre, down) < POLL_BATCH {
      PolledIfFewDownEachPass(w, rounds, watching, pre, r, post, seq(|rounds|, _ => down));
    } else {
      NeverPolled(w, rounds, watching, pre, r, post, down);
    }
  }

  // ----- It happens

  const SPEC: LaunchSpec := LaunchSpec(["gsm8k"], "m", 1, 1, 0, false)
  const ENV: LaunchEnv :=
    LaunchEnv(Some("t"), true, "r", "", None, true, Started("x", "RUNNING", ""), true, true)

  function Name(k: nat): string
  {
    seq(k + 1, _ => 'r')
  }

  function Names(n: nat): seq<string>
  {
    seq(n, k requires 0 <= k < n => Name(k))
  }

  function Launches(n: nat): seq<Event>
  {
    if n == 0 then [] else Launches(n - 1) + [LaunchEvent(SPEC, ENV.(runId := Name(n - 1)))]
  }

  lemma NamesDiffer(j: nat, k: nat)
    requires j != k
    ensures Name(j) != Name(k)
  {
    assert |Name(j)| != |Name(k)|;
  }

  lemma LaunchOne(w: World, id: string)
    requires id !in w.order
    ensures var w2 := Launch(w, SPEC, ENV.(runId := id));
            && w2.order == w.order + [id] && w2.used == w.used + {id}
            && w2.rows.Keys == w.rows.Keys + {id} && Pollable(w2, id)
            && forall x :: x in w.rows && x != id ==> w2.rows[x] == w.rows[x]
  {
    var e := ENV.(runId := id);
    assert TotalSamples(SPEC) == 1;
    assert Validate(SPEC) && Admitted(SPEC, e) && Recorded(SPEC, e);
    hide LaunchRow, Validate, Without;
    LaunchRowEffect(w, SPEC, "", e);
    LaunchUses(w, SPEC, "", e);
    LaunchRowOrder(w, SPEC, "", e);
  }

  /** The runs named are all there are, each pollable, in order. */
  ghost predicate Lined(w: World, n: nat)
  {
    && w.order == Names(n)
    && (forall x :: x in w.used ==> x in Names(n)) && (forall x :: x in Names(n) ==> Pollable(w, x))
  }

  lemma LineUp(w: World, n: nat)
    requires Lined(w, n)
    ensures FreshIds(w, LaunchEvent(SPEC, ENV.(runId := Name(n))))
    ensures Lined(Launch(w, SPEC, ENV.(runId := Name(n))), n + 1)
  {
    hide Launch, Pollable, Name, Names;
    var id := Name(n);
    LastName(n);
    assert id != "" by { NamedSo(n); }
    LaunchOne(w, id);
    var w2 := Launch(w, SPEC, ENV.(runId := id));
    forall x | x in Names(n + 1) ensures Pollable(w2, x) {
      if x != id {
        StillPollable(w, w2, x, id);
      }
    }
  }

  lemma LaunchesSnoc(n: nat)
    ensures var e := LaunchEvent(SPEC, ENV.(runId := Name(n)));
            && After(EMPTY, Launches(n + 1)) == Launch(After(EMPTY, Launches(n)), SPEC, ENV.(runId := Name(n)))
            && (AllFresh(EMPTY, Launches(n + 1)) <==>
                AllFresh(EMPTY, Launches(n)) && FreshIds(After(EMPTY, Launches(n)), e))
  {
    hide Launch, Name, FreshIds;
    var events, e := Launches(n), LaunchEvent(SPEC, ENV.(runId := Name(n)));
    assert (events + [e])[..|events|] == events;
  }

  /** After n launches the n runs are queued in the order they were launched. */
  lemma {:induction false} LaunchedQueue(n: nat)
    ensures AllFresh(EMPTY, Launches(n)) && Lined(After(EMPTY, Launches(n)), n)
    ensures Queue(After(EMPTY, Launches(n))) == Names(n)
  {
    hide Lined, Launch, Names, Launches, After, AllFresh, Queue, FreshIds;
    if n == 0 {
      NoneLaunched();
    } else {
      LaunchedQueue(n - 1);
      LaunchesSnoc(n - 1);
      LineUp(After(EMPTY, Launches(n - 1)), n - 1);
    }
    LinedQueue(After(EMPTY, Launches(n)), n);
  }

  lemma NoneLaunched()
    ensures AllFresh(EMPTY, Launches(0)) && Lined(After(EMPTY, Launches(0)), 0)
  {
  }

  lemma LinedQueue(w: World, n: nat)
    requires Lined(w, n)
    ensures Queue(w) == Names(n)
  {
    hide Names, Pollable;
    AllPollable(w, Names(n));
  }

  lemma NewName(n: nat)
    ensures Name(n) !in Names(n)
  {
    forall k | 0 <= k < n ensures Names(n)[k] != Name(n) {
      NamesDiffer(k, n);
    }
  }

  lemma NamedSo(n: nat)
    ensures Name(n) != ""
  {
    assert |Name(n)| == n + 1;
  }

  lemma StillPollable(w: World, w2: World, x: string, id: string)
    requires Pollable(w, x) && x != id && w2.rows.Keys == w.rows.Keys + {id}
    requires forall y :: y in w.rows && y != id ==> w2.rows[y] == w.rows[y]
    ensures Pollable(w2, x)
  {
  }

  lemma {:induction false} AllPollable(w: World, ids: seq<string>)
    requires forall x :: x in ids ==> Pollable(w, x)
    ensures PollableOf(w, ids) == ids
  {
    hide Pollable;
    if ids != [] {
      AllPollable(w, ids[1..]);
      assert ids == [ids[0]] + ids[1..];
    }
  }

  lemma {:induction false} CountAll(ids: seq<string>, down: set<string>)
    requires forall x :: x in ids ==> x in down
    ensures CountOf(ids, down) == |ids|
  {
    if ids != [] {
      CountAll(ids[..|ids|-1], down);
    }
  }

  lemma {:induction false} QuietRounds(w: World, readings: map<string, Reading>, n: nat, watching: bool)
    ensures FreshRounds(w, seq(n, _ => Round([], readings)), watching)
    decreases n
  {
    if n > 0 {
      var rounds := seq(n, _ => Round([], readings));
      assert rounds[1..] == seq(n - 1, _ => Round([], readings));
      QuietRounds(Pass(w, readings, watching), readings, n - 1, watching);
    }
  }

  /** Fifty launches that the provider then answers nothing about, and one that it says is
      over: that one is never polled, however many passes are made. */
  lemma StarvationReached(passes: nat, watching: bool)
    ensures AllFresh(EMPTY, Launches(POLL_BATCH + 1))
    ensures var w, r := After(EMPTY, Launches(POLL_BATCH + 1)), Name(POLL_BATCH);
            var answer := Read(Evaluation("COMPLETED", None, None, "", "", None), true, true, true);
            && r in Queue(w)
            && !EverPolled(w, seq(passes, _ => Round([], map[r := answer])), watching, r)
  {
    hide Launches, After, AllFresh, EverPolled, FreshRounds, Name, Queue, Names;
    var w, r := After(EMPTY, Launches(POLL_BATCH + 1)), Name(POLL_BATCH);
    var answer := Read(Evaluation("COMPLETED", None, None, "", "", None), true, true, true);
    var pre := Names(POLL_BATCH);
    var down := set x | x in pre;
    LaunchedQueue(POLL_BATCH + 1);
    HistoryInv(Launches(POLL_BATCH + 1));
    LastName(POLL_BATCH);
    assert pre + [r] + [] == Queue(w);
    assert r in Queue(w) by { assert Queue(w)[|pre|] == r; }
    CountAll(pre, down);
    forall x | x in pre ensures x in w.rows && Stays(w, x, map[r := answer]) {
      assert x in Queue(w);
      QueuedHasRow(w, x);
    }
    QuietRounds(w, map[r := answer], passes, watching);
    NeverPolled(w, seq(passes, _ => Round([], map[r := answer])), watching, pre, r, [], down);
  }

  lemma LastName(n: nat)
    ensures Names(n + 1) == Names(n) + [Name(n)] && |Names(n)| == n && Name(n) !in Names(n)
  {
    NewName(n);
  }
}
