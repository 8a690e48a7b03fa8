/** The in-memory store of environment-push reports: one report per slug, a day's shelf
    life, at most 256 entries with the oldest dropped first. */
module PushReports {

  datatype Report = Report(slug: string, ok: bool, completedAt: int, receivedAt: int)

  type Store = map<string, Report>

  /** Times are nanoseconds. */
  const TTL: int := 24 * 60 * 60 * 1_000_000_000
  const MAX_REPORTS: nat := 256

  predicate Expired(r: Report, now: int)
  {
    now - r.receivedAt > TTL
  }

  // ----- The store's own steps

  function Pruned(m: Store, now: int): Store
  {
    map s | s in m && !Expired(m[s], now) :: m[s]
  }

  ghost predicate IsOldest(m: Store, slug: string)
  {
    slug in m && forall s :: s in m ==> m[slug].receivedAt <= m[s].receivedAt
  }

  /** What put may do: the entry dropped from a full store is some oldest one. */
  ghost predicate PutStep(m: Store, rep: Report, now: int, m': Store)
  {
    var p := Pruned(m, now);
    if |p| >= MAX_REPORTS && rep.slug !in p
    then exists oldest :: IsOldest(p, oldest) && m' == (p - {oldest})[rep.slug := rep]
    else m' == p[rep.slug := rep]
  }

  ghost predicate NewestFirst(rs: seq<Report>)
  {
    forall i, j :: 0 <= i < j < |rs| ==> rs[i].receivedAt >= rs[j].receivedAt
  }

  ghost predicate DistinctSlugs(rs: seq<Report>)
  {
    forall i, j :: 0 <= i < j < |rs| ==> rs[i].slug != rs[j].slug
  }

  /** rs lists the entries of m, each once, newest first. */
  ghost predicate Lists(rs: seq<Report>, m: Store)
  {
    && NewestFirst(rs) && DistinctSlugs(rs)
    && (forall r :: r in rs ==> r.slug in m && m[r.slug] == r)
    && (forall s :: s in m ==> m[s] in rs)
  }

  /** Every entry is filed under its own slug, no slug is empty, and the cap holds. */
  ghost predicate StoreOk(m: Store)
  {
    && (forall s :: s in m ==> m[s].slug == s)
    && "" !in m
    && |m| <= MAX_REPORTS
  }

  class PushReportStore {
    var m: Store

    constructor ()
      ensures m == map[] && StoreOk(m)
    {
      m := map[];
    }

    method Put(rep: Report, now: int)
      requires StoreOk(m)
      modifies this
      ensures PutStep(old(m), rep, now, m) && |m| <= MAX_REPORTS
      ensures rep.slug != "" ==> StoreOk(m)
    {
      hide Pruned, IsOldest, StoreOk;
      PruneLocked(now);
      ghost var p := m;
      if |m| >= MAX_REPORTS {
        if rep.slug !in m {
          assert m != map[];
          DropOldestLocked();
          assert exists oldest :: IsOldest(p, oldest) && m == p - {oldest};
        }
      }
      m := m[rep.slug := rep];
      PutOk(old(m), rep, now, m);
    }

    method List(now: int) returns (out: seq<Report>)
      requires StoreOk(m)
      modifies this
      ensures m == Pruned(old(m), now) && StoreOk(m)
      ensures Lists(out, m)
    {
      PruneLocked(now);
      out := [];
      var todo := m.Keys;
      while todo != {}
        invariant todo <= m.Keys
        invariant DistinctSlugs(out)
        invariant forall r :: r in out ==> r.slug in m && r.slug !in todo && m[r.slug] == r
        invariant forall s :: s in m && s !in todo ==> m[s] in out
        decreases todo
      {
        var slug :| slug in todo;
        todo := todo - {slug};
        out := out + [m[slug]];
      }
      out := SortNewest(out);
    }

    method PruneLocked(now: int)
      requires StoreOk(m)
      modifies this
      ensures m == Pruned(old(m), now) && StoreOk(m)
    {
      var todo := m.Keys;
      while todo != {}
        invariant todo <= m.Keys
        invariant m == map s | s in old(m) && (s in todo || !Expired(old(m)[s], now)) :: old(m)[s]
        decreases todo
      {
        var slug :| slug in todo;
        todo := todo - {slug};
        if Expired(m[slug], now) {
          m := m - {slug};
        }
      }
      assert m.Keys <= old(m).Keys;
      SubsetSize(m.Keys, old(m).Keys);
    }

    method DropOldestLocked()
      requires StoreOk(m)
      modifies this
      ensures if old(m) == map[] then m == map[]
              else exists oldest :: IsOldest(old(m), oldest) && m == old(m) - {oldest}
    {
      var oldestSlug := "";
      var oldest := 0;
      var todo := m.Keys;
      while todo != {}
        invariant todo <= m.Keys && m == old(m)
        invariant oldestSlug == "" <==> todo == m.Keys
        invariant oldestSlug != "" ==> oldestSlug in m && oldest == m[oldestSlug].receivedAt
        invariant oldestSlug != "" ==> forall s :: s in m && s !in todo ==> oldest <= m[s].receivedAt
        decreases todo
      {
        var slug :| slug in todo;
        todo := todo - {slug};
        if oldestSlug == "" || m[slug].receivedAt < oldest {
          oldestSlug, oldest := slug, m[slug].receivedAt;
        }
      }
      if oldestSlug != "" {
        assert IsOldest(m, oldestSlug);
        m := m - {oldestSlug};
      }
    }
  }

  lemma PutOk(m: Store, rep: Report, now: int, m': Store)
    requires StoreOk(m) && StoreOk(Pruned(m, now)) && PutStep(m, rep, now, m')
    ensures |m'| <= MAX_REPORTS && (rep.slug != "" ==> StoreOk(m'))
  {
    hide Pruned, PutStep, IsOldest;
    PutSize(m, rep, now, m');
    PutShape(m, rep, now, m');
  }

  lemma {:induction false} SubsetSize(a: set<string>, b: set<string>)
    requires a <= b
    ensures |a| <= |b|
  {
    assert b == a + (b - a);
  }

  // ----- Sorting by arrival

  function InsertNewest(rs: seq<Report>, r: Report): seq<Report>
  {
    if rs == [] then [r]
    else if r.receivedAt > rs[0].receivedAt then [r] + rs
    else [rs[0]] + InsertNewest(rs[1..], r)
  }

  lemma NewestCons(r: Report, rs: seq<Report>)
    requires NewestFirst(rs) && DistinctSlugs(rs)
    requires forall x :: x in rs ==> r.receivedAt >= x.receivedAt && r.slug != x.slug
    ensures NewestFirst([r] + rs) && DistinctSlugs([r] + rs)
  {
  }

  lemma {:induction false} InsertNewestOk(rs: seq<Report>, r: Report)
    requires NewestFirst(rs) && DistinctSlugs(rs) && forall x :: x in rs ==> x.slug != r.slug
    ensures NewestFirst(InsertNewest(rs, r)) && DistinctSlugs(InsertNewest(rs, r))
    ensures forall x :: x in InsertNewest(rs, r) <==> x in rs || x == r
  {
    if rs == [] {
    } else if r.receivedAt > rs[0].receivedAt {
      assert forall x :: x in rs ==> r.receivedAt >= x.receivedAt;
      NewestCons(r, rs);
    } else {
      assert rs == [rs[0]] + rs[1..];
      InsertNewestOk(rs[1..], r);
      NewestCons(rs[0], InsertNewest(rs[1..], r));
    }
  }

  method SortNewest(rs: seq<Report>) returns (out: seq<Report>)
    requires DistinctSlugs(rs)
    ensures NewestFirst(out) && DistinctSlugs(out)
    ensures forall r :: r in out <==> r in rs
  {
    out := [];
    for i := 0 to |rs|
      invariant NewestFirst(out) && DistinctSlugs(out)
      invariant forall r :: r in out <==> r in rs[..i]
    {
      InsertNewestOk(out, rs[i]);
      out := InsertNewest(out, rs[i]);
    }
  }

  // ----- The specification: a history of reports

  /** The last report of each slug, most recent first. */
  function Recent(history: seq<Report>): seq<Report>
  {
    if history == [] then []
    else
      var rep := history[|history|-1];
      [rep] + Drop(Recent(history[..|history|-1]), rep.slug)
  }

  function Drop(rs: seq<Report>, slug: string): seq<Report>
  {
    if rs == [] then []
    else if rs[0].slug == slug then Drop(rs[1..], slug)
    else [rs[0]] + Drop(rs[1..], slug)
  }

  function Alive(rs: seq<Report>, now: int): seq<Report>
  {
    if rs == [] then []
    else if Expired(rs[0], now) then Alive(rs[1..], now)
    else [rs[0]] + Alive(rs[1..], now)
  }

  function Cap(rs: seq<Report>): seq<Report>
  {
    if |rs| <= MAX_REPORTS then rs else rs[..MAX_REPORTS]
  }

  /** The reports of the 256 most recently put slugs, less the expired ones. */
  function Visible(history: seq<Report>, now: int): seq<Report>
  {
    Alive(Cap(Recent(history)), now)
  }

  // ----- Facts about the specification

  /** Strictly newest first, one report per slug. */
  ghost predicate Ranked(rs: seq<Report>)
  {
    forall i, j :: 0 <= i < j < |rs| ==> rs[i].receivedAt > rs[j].receivedAt && rs[i].slug != rs[j].slug
  }

  lemma RankedCons(r: Report, rs: seq<Report>)
    requires Ranked(rs)
    requires forall x :: x in rs ==> r.receivedAt > x.receivedAt && r.slug != x.slug
    ensures Ranked([r] + rs)
  {
  }

  lemma {:induction false} DropMembers(rs: seq<Report>, slug: string)
    ensures forall x :: x in Drop(rs, slug) <==> x in rs && x.slug != slug
    ensures Ranked(rs) ==> Ranked(Drop(rs, slug))
  {
    if rs != [] {
      DropMembers(rs[1..], slug);
      assert rs == [rs[0]] + rs[1..];
      if Ranked(rs) {
        RankedCons(rs[0], Drop(rs[1..], slug));
      }
    }
  }

  lemma {:induction false} AliveMembers(rs: seq<Report>, now: int)
    ensures forall x :: x in Alive(rs, now) <==> x in rs && !Expired(x, now)
    ensures Ranked(rs) ==> Ranked(Alive(rs, now))
  {
    hide Expired;
    if rs != [] {
      AliveMembers(rs[1..], now);
      assert rs == [rs[0]] + rs[1..];
      if Ranked(rs) {
        RankedCons(rs[0], Alive(rs[1..], now));
      }
    }
  }

  lemma {:induction false} NoneAlive(rs: seq<Report>, now: int)
    requires forall x :: x in rs ==> Expired(x, now)
    ensures Alive(rs, now) == []
  {
    if rs != [] {
      assert rs[0] in rs;
      NoneAlive(rs[1..], now);
    }
  }

  /** In a ranked list the live reports come first, so the cap and the expiry commute. */
  lemma {:induction false} AliveTake(rs: seq<Report>, now: int, k: nat)
    requires Ranked(rs) && k <= |rs|
    ensures Alive(rs[..k], now) == if |Alive(rs, now)| <= k then Alive(rs, now) else Alive(rs, now)[..k]
  {
    if k > 0 {
      if Expired(rs[0], now) {
        NoneAlive(rs, now);
        NoneAlive(rs[..k], now);
      } else {
        AliveTake(rs[1..], now, k - 1);
        assert rs[..k][1..] == rs[1..][..k - 1];
      }
    }
  }

  lemma AliveCap(rs: seq<Report>, now: int)
    requires Ranked(rs)
    ensures Alive(Cap(rs), now) == Cap(Alive(rs, now))
  {
    AliveLength(rs, now);
    if |rs| > MAX_REPORTS {
      AliveTake(rs, now, MAX_REPORTS);
    }
  }

  lemma {:induction false} AliveLength(rs: seq<Report>, now: int)
    ensures |Alive(rs, now)| <= |rs|
  {
    if rs != [] {
      AliveLength(rs[1..], now);
    }
  }

  lemma {:induction false} AliveLater(rs: seq<Report>, t: int, now: int)
    requires t <= now
    ensures Alive(Alive(rs, t), now) == Alive(rs, now)
  {
    if rs != [] {
      AliveLater(rs[1..], t, now);
      if !Expired(rs[0], t) {
        assert Alive(rs, t)[1..] == Alive(rs[1..], t);
      }
    }
  }

  lemma {:induction false} AliveDrop(rs: seq<Report>, slug: string, now: int)
    ensures Alive(Drop(rs, slug), now) == Drop(Alive(rs, now), slug)
  {
    hide Expired;
    if rs != [] {
      AliveDrop(rs[1..], slug, now);
      if rs[0].slug != slug {
        assert Drop(rs, slug)[1..] == Drop(rs[1..], slug);
      }
      if !Expired(rs[0], now) {
        assert Alive(rs, now)[1..] == Alive(rs[1..], now);
      }
    }
  }

  lemma DropCons(r: Report, rs: seq<Report>, slug: string)
    ensures Drop([r] + rs, slug) == (if r.slug == slug then [] else [r]) + Drop(rs, slug)
  {
    assert ([r] + rs)[1..] == rs;
  }

  lemma {:induction false} DropConcat(a: seq<Report>, b: seq<Report>, slug: string)
    ensures Drop(a + b, slug) == Drop(a, slug) + Drop(b, slug)
  {
    hide Drop;
    if a == [] {
      assert a + b == b;
      DropNone(slug);
    } else {
      var r, rest := a[0], a[1..];
      assert a == [r] + rest && a + b == [r] + (rest + b);
      DropConcat(rest, b, slug);
      DropCons(r, rest, slug);
      DropCons(r, rest + b, slug);
    }
  }

  lemma {:induction false} DropAbsent(rs: seq<Report>, slug: string)
    requires forall x :: x in rs ==> x.slug != slug
    ensures Drop(rs, slug) == rs
  {
    if rs != [] {
      DropAbsent(rs[1..], slug);
      assert rs == [rs[0]] + rs[1..];
    }
  }

  /** A ranked list has at most one report to drop. */
  lemma {:induction false} DropOne(rs: seq<Report>, slug: string, i: nat)
    requires Ranked(rs) && i < |rs| && rs[i].slug == slug
    ensures |Drop(rs, slug)| == |rs| - 1
  {
    assert rs == rs[..i] + ([rs[i]] + rs[i + 1..]);
    DropAbsent(rs[..i], slug);
    DropAbsent(rs[i + 1..], slug);
    DropConcat(rs[..i], [rs[i]] + rs[i + 1..], slug);
    assert Drop([rs[i]] + rs[i + 1..], slug) == rs[i + 1..];
  }

  // ----- The store holds what the specification says

  /** m files exactly the reports of rs, each under its slug. */
  ghost predicate Files(m: Store, rs: seq<Report>)
  {
    && (forall r :: r in rs ==> r.slug in m && m[r.slug] == r)
    && (forall s :: s in m ==> m[s] in rs && m[s].slug == s)
  }

  lemma FilesTail(m: Store, rs: seq<Report>)
    requires rs != [] && Ranked(rs) && Files(m, rs)
    ensures Files(m - {rs[0].slug}, rs[1..])
  {
    assert rs == [rs[0]] + rs[1..];
    forall r | r in rs[1..] ensures r in rs && r.slug != rs[0].slug {
    }
    forall s | s in m && s != rs[0].slug ensures m[s] in rs[1..] {
      assert m[s] in rs && m[s] != rs[0];
    }
  }

  lemma {:induction false} FilesSize(m: Store, rs: seq<Report>)
    requires Ranked(rs) && Files(m, rs)
    ensures |m| == |rs|
  {
    if rs == [] {
      assert m == map[];
    } else {
      var m' := m - {rs[0].slug};
      FilesTail(m, rs);
      FilesSize(m', rs[1..]);
      assert rs[0] in rs;
      assert m.Keys == m'.Keys + {rs[0].slug};
    }
  }

  lemma FilesPruned(m: Store, rs: seq<Report>, now: int)
    requires Ranked(rs) && Files(m, rs)
    ensures Files(Pruned(m, now), Alive(rs, now))
  {
    hide Expired;
    AliveMembers(rs, now);
  }

  lemma FilesPut(m: Store, rs: seq<Report>, rep: Report)
    requires Ranked(rs) && Files(m, rs)
    ensures Files(m[rep.slug := rep], [rep] + Drop(rs, rep.slug))
  {
    hide Drop, Ranked;
    DropMembers(rs, rep.slug);
    var m', rs' := m[rep.slug := rep], [rep] + Drop(rs, rep.slug);
    assert forall r :: r in rs' <==> r == rep || r in Drop(rs, rep.slug);
    forall s | s in m' ensures m'[s] in rs' && m'[s].slug == s {
      if s != rep.slug {
        assert m[s] in rs;
      }
    }
  }

  /** The oldest entry of a ranked list is its last. */
  lemma OldestIsLast(m: Store, rs: seq<Report>, oldest: string)
    requires Ranked(rs) && rs != [] && Files(m, rs) && IsOldest(m, oldest)
    ensures m[oldest] == rs[|rs|-1] && oldest == rs[|rs|-1].slug
  {
    var n := |rs| - 1;
    assert rs[n] in rs && m[oldest] in rs;
    var i :| 0 <= i < |rs| && rs[i] == m[oldest];
  }

  lemma RankedLast(rs: seq<Report>)
    requires Ranked(rs) && rs != []
    ensures forall r :: r in rs[..|rs|-1] <==> r in rs && r != rs[|rs|-1]
    ensures forall r :: r in rs[..|rs|-1] ==> r.slug != rs[|rs|-1].slug
  {
    assert rs == rs[..|rs|-1] + [rs[|rs|-1]];
  }

  lemma FilesDropOldest(m: Store, rs: seq<Report>, oldest: string)
    requires Ranked(rs) && rs != [] && Files(m, rs) && IsOldest(m, oldest)
    ensures Files(m - {oldest}, rs[..|rs|-1])
  {
    hide Ranked, IsOldest;
    OldestIsLast(m, rs, oldest);
    RankedLast(rs);
  }

  lemma CapRanked(rs: seq<Report>)
    requires Ranked(rs)
    ensures Ranked(Cap(rs))
  {
  }

  lemma CapExact(x: seq<Report>, y: seq<Report>)
    requires |x| <= MAX_REPORTS && (|x| < MAX_REPORTS ==> y == [])
    ensures Cap(x + y) == x
  {
  }

  lemma FiledIn(p: Store, rs: seq<Report>, slug: string) returns (i: nat)
    requires Files(p, rs) && slug in p
    ensures i < |rs| && rs[i].slug == slug
  {
    assert p[slug] in rs;
    i :| 0 <= i < |rs| && rs[i] == p[slug];
  }

  /** Moving a report of the first 256 to the front leaves the same 256 in front. */
  lemma CapMoves(live: seq<Report>, rep: Report, i: nat)
    requires Ranked(live) && i < |Cap(live)| && Cap(live)[i].slug == rep.slug
    ensures Cap([rep] + Drop(live, rep.slug)) == [rep] + Drop(Cap(live), rep.slug)
  {
    hide Ranked, Drop, Cap;
    CapRest(live);
    var a, b := Cap(live), live[|Cap(live)|..];
    CapRanked(live);
    DropOne(a, rep.slug, i);
    DropConcat(a, b, rep.slug);
    assert b == [] ==> Drop(b, rep.slug) == [] by { DropNone(rep.slug); }
    assert [rep] + Drop(live, rep.slug) == ([rep] + Drop(a, rep.slug)) + Drop(b, rep.slug);
    CapExact([rep] + Drop(a, rep.slug), Drop(b, rep.slug));
  }

  lemma DropNone(slug: string)
    ensures Drop([], slug) == []
  {
  }

  /** Replacing a filed slug moves its report to the front. */
  lemma PutReplaces(live: seq<Report>, rep: Report, p: Store)
    requires Ranked(live) && Files(p, Cap(live)) && rep.slug in p
    ensures Files(p[rep.slug := rep], Cap([rep] + Drop(live, rep.slug)))
  {
    hide Ranked, Drop, Cap, Files;
    var i := FiledIn(p, Cap(live), rep.slug);
    CapMoves(live, rep, i);
    CapRanked(live);
    FilesPut(p, Cap(live), rep);
  }

  lemma CapRest(rs: seq<Report>)
    ensures |Cap(rs)| <= |rs| && |Cap(rs)| <= MAX_REPORTS && rs == Cap(rs) + rs[|Cap(rs)|..]
    ensures |Cap(rs)| < MAX_REPORTS ==> rs[|Cap(rs)|..] == []
  {
  }

  lemma DropFromUnfiled(live: seq<Report>, slug: string, p: Store)
    requires Files(p, Cap(live)) && slug !in p
    ensures Drop(live, slug) == Cap(live) + Drop(live[|Cap(live)|..], slug)
  {
    var a, b := Cap(live), live[|Cap(live)|..];
    assert live == a + b;
    DropAbsent(a, slug);
    DropConcat(a, b, slug);
  }

  /** A new slug in a full store pushes the oldest report out. */
  lemma PutEvicts(live: seq<Report>, rep: Report, p: Store, oldest: string)
    requires Ranked(live) && Files(p, Cap(live)) && rep.slug !in p
    requires |Cap(live)| == MAX_REPORTS && IsOldest(p, oldest)
    ensures Files((p - {oldest})[rep.slug := rep], Cap([rep] + Drop(live, rep.slug)))
  {
    hide Ranked, Drop, IsOldest;
    var a := Cap(live);
    var front := a[..|a|-1];
    CapRanked(live);
    DropFromUnfiled(live, rep.slug, p);
    FilesDropOldest(p, a, oldest);
    RankedPrefix(a, |a| - 1);
    FilesPut(p - {oldest}, front, rep);
    assert forall x :: x in front ==> x in a;
    DropAbsent(front, rep.slug);
    assert Cap([rep] + Drop(live, rep.slug)) == [rep] + front;
  }

  /** A new slug in a store with room is added in front. */
  lemma PutAdds(live: seq<Report>, rep: Report, p: Store)
    requires Ranked(live) && Files(p, Cap(live)) && rep.slug !in p && |Cap(live)| < MAX_REPORTS
    ensures Files(p[rep.slug := rep], Cap([rep] + Drop(live, rep.slug)))
  {
    hide Ranked;
    FilesPut(p, live, rep);
    DropFromUnfiled(live, rep.slug, p);
    assert Drop(live, rep.slug) == live;
  }

  /** One put, on the list of live reports: capping it before or after is the same. */
  lemma PutOnList(live: seq<Report>, rep: Report, m: Store, now: int, m': Store)
    requires Ranked(live) && Files(Pruned(m, now), Cap(live)) && PutStep(m, rep, now, m')
    ensures Files(m', Cap([rep] + Drop(live, rep.slug)))
  {
    hide Ranked, Files, Drop, Pruned, IsOldest, Cap;
    var p := Pruned(m, now);
    assert |p| == |Cap(live)| <= MAX_REPORTS by { CapSize(live, p); }
    if rep.slug in p {
      PutReplaces(live, rep, p);
    } else if |p| >= MAX_REPORTS {
      var oldest :| IsOldest(p, oldest) && m' == (p - {oldest})[rep.slug := rep];
      PutEvicts(live, rep, p, oldest);
    } else {
      PutAdds(live, rep, p);
    }
  }

  lemma CapSize(live: seq<Report>, p: Store)
    requires Ranked(live) && Files(p, Cap(live))
    ensures |p| == |Cap(live)| <= MAX_REPORTS
  {
    CapRanked(live);
    FilesSize(p, Cap(live));
  }

  lemma RankedPrefix(rs: seq<Report>, k: nat)
    requires Ranked(rs) && k <= |rs|
    ensures Ranked(rs[..k])
  {
  }

  // ----- Whole histories

  datatype Op = PutOp(rep: Report) | ListOp(now: int)

  function TimeOf(op: Op): int
  {
    if op.PutOp? then op.rep.receivedAt else op.now
  }

  function Puts(ops: seq<Op>): seq<Report>
  {
    if ops == [] then []
    else Puts(ops[..|ops|-1]) + (if ops[|ops|-1].PutOp? then [ops[|ops|-1].rep] else [])
  }

  /** Time never runs backwards, and no two puts share an instant. */
  ghost predicate WellTimed(ops: seq<Op>)
  {
    && (forall i, j :: 0 <= i < j < |ops| ==> TimeOf(ops[i]) <= TimeOf(ops[j]))
    && (forall i, j :: 0 <= i < j < |ops| && ops[i].PutOp? && ops[j].PutOp? ==> TimeOf(ops[i]) < TimeOf(ops[j]))
  }

  ghost predicate OpStep(m: Store, op: Op, m': Store)
  {
    match op
    case PutOp(rep) => PutStep(m, rep, rep.receivedAt, m')
    case ListOp(now) => m' == Pruned(m, now)
  }

  /** states are the store's contents before, between and after the operations ops. */
  ghost predicate IsRun(ops: seq<Op>, states: seq<Store>)
  {
    && |states| == |ops| + 1 && states[0] == map[]
    && forall i :: 0 <= i < |ops| ==> OpStep(states[i], ops[i], states[i + 1])
  }

  lemma {:induction false} RecentRanked(ops: seq<Op>)
    requires WellTimed(ops)
    ensures Ranked(Recent(Puts(ops)))
    ensures forall r :: r in Recent(Puts(ops)) ==> exists i :: 0 <= i < |ops| && ops[i].PutOp? && ops[i].rep == r
  {
    if ops != [] {
      var n := |ops| - 1;
      RecentRanked(ops[..n]);
      if ops[n].PutOp? {
        var rep, before := ops[n].rep, Recent(Puts(ops[..n]));
        assert Puts(ops)[..|Puts(ops)|-1] == Puts(ops[..n]);
        DropMembers(before, rep.slug);
        forall x | x in Drop(before, rep.slug) ensures rep.receivedAt > x.receivedAt {
          var i :| 0 <= i < |ops[..n]| && ops[..n][i].PutOp? && ops[..n][i].rep == x;
          assert TimeOf(ops[i]) < TimeOf(ops[n]);
        }
        RankedCons(rep, Drop(before, rep.slug));
      } else {
        assert Puts(ops) == Puts(ops[..n]);
      }
    }
  }

  /** After any well-timed history the store holds exactly the unexpired reports of the
      256 most recently put slugs. */
  lemma {:induction false} StoreHoldsVisible(ops: seq<Op>, states: seq<Store>)
    requires WellTimed(ops) && IsRun(ops, states)
    ensures ops != [] ==> Files(states[|ops|], Visible(Puts(ops), TimeOf(ops[|ops|-1])))
  {
    hide OpStep;
    if ops != [] {
      var n := |ops| - 1;
      StoreHoldsVisible(ops[..n], states[..n + 1]);
      RecentRanked(ops[..n]);
      HistoryStep(ops, states[n], states[n + 1]);
    }
  }

  lemma HistoryStep(ops: seq<Op>, before: Store, m: Store)
    requires ops != [] && WellTimed(ops) && OpStep(before, ops[|ops|-1], m)
    requires Ranked(Recent(Puts(ops[..|ops|-1])))
    requires if |ops| == 1 then before == map[]
             else Files(before, Visible(Puts(ops[..|ops|-1]), TimeOf(ops[|ops|-2])))
    ensures Files(m, Visible(Puts(ops), TimeOf(ops[|ops|-1])))
  {
    hide Ranked, Files, Recent, PutStep, WellTimed, Expired;
    var n := |ops| - 1;
    var now, rs := TimeOf(ops[n]), Recent(Puts(ops[..n]));
    var live := Alive(rs, now);
    assert Files(Pruned(before, now), Cap(live)) by { PrunedHistory(ops, before); }
    AliveCap(rs, now);
    AliveMembers(rs, now);
    if ops[n].PutOp? {
      var rep := ops[n].rep;
      assert Puts(ops)[..|Puts(ops)|-1] == Puts(ops[..n]);
      assert Recent(Puts(ops)) == [rep] + Drop(rs, rep.slug) by { RecentSnoc(Puts(ops[..n]), rep); }
      assert !Expired(rep, now) by { NotExpired(rep); }
      assert Ranked(Recent(Puts(ops))) by { RecentRanked(ops); }
      AliveDrop(rs, rep.slug, now);
      assert ([rep] + Drop(rs, rep.slug))[1..] == Drop(rs, rep.slug);
      assert Alive(Recent(Puts(ops)), now) == [rep] + Drop(live, rep.slug);
      AliveCap(Recent(Puts(ops)), now);
      PutOnList(live, rep, before, now, m);
    } else {
      assert Puts(ops) == Puts(ops[..n]);
    }
  }

  lemma RecentSnoc(history: seq<Report>, rep: Report)
    ensures Recent(history + [rep]) == [rep] + Drop(Recent(history), rep.slug)
  {
    assert (history + [rep])[..|history|] == history;
  }

  lemma NotExpired(rep: Report)
    ensures !Expired(rep, rep.receivedAt)
  {
  }

  /** Pruning at a later time takes the store from one visible list to the next. */
  lemma PrunedHistory(ops: seq<Op>, before: Store)
    requires ops != [] && WellTimed(ops)
    requires Ranked(Recent(Puts(ops[..|ops|-1])))
    requires if |ops| == 1 then before == map[]
             else Files(before, Visible(Puts(ops[..|ops|-1]), TimeOf(ops[|ops|-2])))
    ensures Files(Pruned(before, TimeOf(ops[|ops|-1])),
                  Cap(Alive(Recent(Puts(ops[..|ops|-1])), TimeOf(ops[|ops|-1]))))
  {
    var n := |ops| - 1;
    var rs, now := Recent(Puts(ops[..n])), TimeOf(ops[n]);
    if n > 0 {
      var t := TimeOf(ops[n - 1]);
      hide Expired, Files, Alive, Recent, Ranked, Puts;
      CapRanked(rs);
      AliveMembers(Cap(rs), t);
      FilesPruned(before, Alive(Cap(rs), t), now);
      AliveLater(Cap(rs), t, now);
      AliveCap(rs, now);
    }
  }

  // ----- Listing

  /** A ranked list is the only way to list its reports newest first. */
  lemma {:induction false} ListingUnique(out: seq<Report>, rs: seq<Report>)
    requires NewestFirst(out) && DistinctSlugs(out) && Ranked(rs)
    requires forall r :: r in out <==> r in rs
    ensures out == rs
  {
    assert out == [] <==> rs == [] by {
      if out != [] {
        assert out[0] in rs;
      }
      if rs != [] {
        assert rs[0] in out;
      }
    }
    if rs != [] {
      assert rs[0] in out && out[0] in rs;
      assert out[0] == rs[0];
      assert out == [out[0]] + out[1..] && rs == [rs[0]] + rs[1..];
      forall r ensures r in out[1..] ==> r in out && r != out[0]
                 ensures r in rs[1..] ==> r in rs && r != rs[0] {
      }
      ListingUnique(out[1..], rs[1..]);
    }
  }

  lemma ListSteps(ops: seq<Op>, states: seq<Store>, now: int)
    requires IsRun(ops, states)
    ensures IsRun(ops + [ListOp(now)], states + [Pruned(states[|ops|], now)])
  {
    hide Pruned, PutStep;
    var all, next := ops + [ListOp(now)], states + [Pruned(states[|ops|], now)];
    forall i | 0 <= i < |all| ensures OpStep(next[i], all[i], next[i + 1]) {
      if i < |ops| {
        assert OpStep(states[i], ops[i], states[i + 1]);
      }
    }
  }

  lemma VisibleRanked(ops: seq<Op>, now: int)
    requires WellTimed(ops)
    ensures Ranked(Visible(Puts(ops), now)) && |Visible(Puts(ops), now)| <= MAX_REPORTS
  {
    hide Ranked, Alive, Recent, Puts, WellTimed;
    RecentRanked(ops);
    CapRanked(Recent(Puts(ops)));
    AliveMembers(Cap(Recent(Puts(ops))), now);
    AliveLength(Cap(Recent(Puts(ops))), now);
  }

  /** What List returns after any well-timed history: the visible reports, in order. */
  lemma ListReturnsVisible(ops: seq<Op>, states: seq<Store>, now: int, out: seq<Report>)
    requires WellTimed(ops + [ListOp(now)]) && IsRun(ops, states)
    requires Lists(out, Pruned(states[|ops|], now))
    ensures out == Visible(Puts(ops), now)
    ensures |out| <= MAX_REPORTS
  {
    var all, m := ops + [ListOp(now)], Pruned(states[|ops|], now);
    assert Puts(all) == Puts(ops) by {
      assert all[..|all|-1] == ops;
    }
    hide Visible, Pruned, Ranked, WellTimed, IsRun, Puts, NewestFirst, DistinctSlugs;
    ListSteps(ops, states, now);
    StoreHoldsVisible(all, states + [m]);
    VisibleRanked(all, now);
    ListingUnique(out, Visible(Puts(ops), now));
  }

  // ----- Which reports those are

  function SlugsOf(rs: seq<Report>): set<string>
  {
    set r | r in rs :: r.slug
  }

  /** No later report has the slug, and fewer than 256 slugs were put after it. */
  ghost predicate AmongLast(history: seq<Report>, i: nat)
  {
    i < |history| && history[i].slug !in SlugsOf(history[i + 1..]) && |SlugsOf(history[i + 1..])| < 256
  }

  /** A report that is the last of its slug stands behind one of each slug put later. */
  ghost predicate StandsAt(history: seq<Report>, i: nat, k: nat)
    requires i < |history|
  {
    && k < |Recent(history)| && Recent(history)[k] == history[i]
    && SlugsOf(Recent(history)[..k]) == SlugsOf(history[i + 1..])
  }

  lemma SlugsSnoc(rs: seq<Report>, r: Report)
    ensures SlugsOf(rs + [r]) == SlugsOf(rs) + {r.slug} && SlugsOf([r] + rs) == SlugsOf(rs) + {r.slug}
  {
    assert r in rs + [r] && r in [r] + rs;
    assert forall x :: x in rs ==> x in rs + [r] && x in [r] + rs;
  }

  lemma {:induction false} DropSlugs(rs: seq<Report>, slug: string)
    ensures SlugsOf(Drop(rs, slug)) == SlugsOf(rs) - {slug}
  {
    DropMembers(rs, slug);
    forall x | x in SlugsOf(rs) - {slug} ensures x in SlugsOf(Drop(rs, slug)) {
      var r :| r in rs && r.slug == x;
      assert r in Drop(rs, slug);
    }
  }

  lemma {:induction false} LastStandsAt(history: seq<Report>, i: nat) returns (k: nat)
    requires i < |history| && history[i].slug !in SlugsOf(history[i + 1..])
    ensures StandsAt(history, i, k)
    decreases |history|
  {
    hide Drop, SlugsOf, Recent;
    var n := |history| - 1;
    var rep, before := history[n], history[..n];
    assert history == before + [rep];
    RecentSnoc(before, rep);
    if i == n {
      k := 0;
      assert history[i + 1..] == [] && Recent(history)[..0] == [];
    } else {
      var later := before[i + 1..];
      assert history[i + 1..] == later + [rep] && before[i] == history[i];
      SlugsSnoc(later, rep);
      var j := LastStandsAt(before, i);
      k := MoveBack(before, i, j, rep);
    }
  }

  /** One more report: its own goes to the front, the others close up. */
  lemma MoveBack(before: seq<Report>, i: nat, j: nat, rep: Report) returns (k: nat)
    requires i < |before| && StandsAt(before, i, j) && before[i].slug != rep.slug
    ensures StandsAt(before + [rep], i, k)
  {
    hide Drop, SlugsOf, Recent;
    var rs, r := Recent(before), before[i];
    var front, back := rs[..j], rs[j + 1..];
    var all := before + [rep];
    assert rs == front + ([r] + back);
    DropConcat(front, [r] + back, rep.slug);
    DropCons(r, back, rep.slug);
    RecentSnoc(before, rep);
    var kept := Drop(front, rep.slug);
    k := 1 + |kept|;
    assert Recent(all) == [rep] + (kept + ([r] + Drop(back, rep.slug)));
    assert Recent(all)[..k] == [rep] + kept && Recent(all)[k] == r;
    assert all[i + 1..] == before[i + 1..] + [rep];
    SlugsSnoc(kept, rep);
    SlugsSnoc(before[i + 1..], rep);
    DropSlugs(front, rep.slug);
  }

  lemma {:induction false} SlugCount(rs: seq<Report>)
    requires DistinctSlugs(rs)
    ensures |SlugsOf(rs)| == |rs|
  {
    if rs == [] {
      assert SlugsOf(rs) == {};
    } else {
      var n := |rs| - 1;
      SlugCount(rs[..n]);
      assert rs == rs[..n] + [rs[n]];
      SlugsSnoc(rs[..n], rs[n]);
    }
  }

  lemma {:induction false} RecentDistinct(history: seq<Report>)
    ensures DistinctSlugs(Recent(history))
  {
    hide Drop, Recent;
    if history == [] {
      NoneRecent();
    } else {
      var n := |history| - 1;
      var rep, before := history[n], history[..n];
      assert history == before + [rep];
      RecentSnoc(before, rep);
      RecentDistinct(before);
      DropMembers(Recent(before), rep.slug);
      DropDistinct(Recent(before), rep.slug);
    }
  }

  lemma {:induction false} RecentIsLast(history: seq<Report>, r: Report) returns (i: nat)
    requires r in Recent(history)
    ensures i < |history| && history[i] == r && history[i].slug !in SlugsOf(history[i + 1..])
  {
    hide Drop, Recent, SlugsOf;
    assert history != [] by { SomeRecent(history, r); }
    var n := |history| - 1;
    var rep, before := history[n], history[..n];
    assert history == before + [rep];
    RecentSnoc(before, rep);
    DropMembers(Recent(before), rep.slug);
    if r == rep {
      i := n;
      assert history[n + 1..] == [];
      NoSlugs();
    } else {
      i := RecentIsLast(before, r);
      assert history[i + 1..] == before[i + 1..] + [rep];
      SlugsSnoc(before[i + 1..], rep);
    }
  }

  lemma SomeRecent(history: seq<Report>, r: Report)
    requires r in Recent(history)
    ensures history != []
  {
  }

  lemma NoSlugs()
    ensures SlugsOf([]) == {}
  {
  }

  lemma {:induction false} DropDistinct(rs: seq<Report>, slug: string)
    requires DistinctSlugs(rs)
    ensures DistinctSlugs(Drop(rs, slug))
  {
    if rs != [] {
      DropDistinct(rs[1..], slug);
      DropMembers(rs[1..], slug);
      assert rs == [rs[0]] + rs[1..];
    }
  }

  lemma InCap(rs: seq<Report>, k: nat)
    requires k < |rs| && DistinctSlugs(rs)
    ensures rs[k] in Cap(rs) <==> k < 256
  {
    if k < 256 {
      assert Cap(rs)[k] == rs[k];
    }
  }

  /** What is visible, said of the history alone: the report is at most 24 hours old, no
      later report has its slug, and fewer than 256 slugs were put after it. */
  lemma VisibleIff(history: seq<Report>, now: int, r: Report)
    ensures r in Visible(history, now) <==>
            && now - r.receivedAt <= 24 * 60 * 60 * 1_000_000_000
            && exists i: nat :: AmongLast(history, i) && history[i] == r
  {
    hide Recent, Cap, SlugsOf, DistinctSlugs, Alive;
    var rs := Recent(history);
    AliveMembers(Cap(rs), now);
    RecentDistinct(history);
    CapRest(rs);
    if i: nat :| AmongLast(history, i) && history[i] == r {
      var k := LastStandsAt(history, i);
      StandsDistinct(history, i, k);
      InCap(rs, k);
    }
    if r in Cap(rs) {
      assert r in rs;
      var i := RecentIsLast(history, r);
      var k := LastStandsAt(history, i);
      StandsDistinct(history, i, k);
      InCap(rs, k);
      assert AmongLast(history, i);
    }
  }

  lemma StandsDistinct(history: seq<Report>, i: nat, k: nat)
    requires i < |history| && StandsAt(history, i, k) && DistinctSlugs(Recent(history))
    ensures k == |SlugsOf(history[i + 1..])|
  {
    hide Recent, SlugsOf;
    SlugCount(Recent(history)[..k]);
  }

  // ----- Reports of one instant

  /** The last report of its slug, and not expired. */
  ghost predicate Current(history: seq<Report>, now: int, r: Report)
  {
    r in Recent(history) && !Expired(r, now)
  }

  /** m files current reports only, at most 256, and leaves one out only if it is full of
      reports at least as new. */
  ghost predicate KeepsNewest(m: Store, history: seq<Report>, now: int)
  {
    && (forall s :: s in m ==> m[s].slug == s && Current(history, now, m[s]))
    && |m| <= MAX_REPORTS
    && (forall r :: Current(history, now, r) && r.slug !in m ==>
          |m| == MAX_REPORTS && forall s :: s in m ==> m[s].receivedAt >= r.receivedAt)
  }

  lemma {:induction false} RecentOnePerSlug(history: seq<Report>, x: Report, y: Report)
    requires x in Recent(history) && y in Recent(history) && x.slug == y.slug
    ensures x == y
  {
    var n := |history| - 1;
    var rep, before := history[n], Recent(history[..n]);
    DropMembers(before, rep.slug);
    if x != rep && y != rep {
      RecentOnePerSlug(history[..n], x, y);
    }
  }

  lemma RecentMembers(history: seq<Report>, rep: Report)
    ensures forall r :: r in Recent(history + [rep]) <==> r == rep || (r in Recent(history) && r.slug != rep.slug)
  {
    RecentSnoc(history, rep);
    DropMembers(Recent(history), rep.slug);
  }

  lemma ExpiresFirst(x: Report, y: Report, now: int)
    requires x.receivedAt >= y.receivedAt && !Expired(y, now)
    ensures !Expired(x, now)
  {
  }

  lemma ExpiresForGood(r: Report, t: int, now: int)
    requires t <= now && !Expired(r, now)
    ensures !Expired(r, t)
  {
  }

  lemma PruneKeepsNewest(m: Store, history: seq<Report>, t: int, now: int)
    requires KeepsNewest(m, history, t) && t <= now
    ensures KeepsNewest(Pruned(m, now), history, now)
  {
    hide Recent, Expired;
    var p := Pruned(m, now);
    assert p.Keys <= m.Keys;
    SubsetSize(p.Keys, m.Keys);
    forall r | Current(history, now, r) && r.slug !in p
      ensures |p| == MAX_REPORTS && forall s :: s in p ==> p[s].receivedAt >= r.receivedAt
    {
      ExpiresForGood(r, t, now);
      assert r.slug !in m by {
        if r.slug in m {
          RecentOnePerSlug(history, m[r.slug], r);
        }
      }
      forall s | s in m ensures !Expired(m[s], now) {
        ExpiresFirst(m[s], r, now);
      }
      assert p == m;
    }
  }

  lemma PutKeepsNewest(m: Store, history: seq<Report>, rep: Report, m': Store)
    requires KeepsNewest(Pruned(m, rep.receivedAt), history, rep.receivedAt) && PutStep(m, rep, rep.receivedAt, m')
    requires forall r :: r in Recent(history) ==> r.receivedAt <= rep.receivedAt
    ensures KeepsNewest(m', history + [rep], rep.receivedAt)
  {
    hide Recent, Expired, Pruned, PutStep, IsOldest;
    var p, now := Pruned(m, rep.receivedAt), rep.receivedAt;
    RecentMembers(history, rep);
    NotExpired(rep);
    PutSize(m, rep, now, m');
    PutShape(m, rep, now, m');
    forall r | Current(history + [rep], now, r) && r.slug !in m'
      ensures |m'| == MAX_REPORTS && forall s :: s in m' ==> m'[s].receivedAt >= r.receivedAt
    {
      assert Current(history, now, r) && r.slug != rep.slug;
      if r.slug in p {
        RecentOnePerSlug(history, p[r.slug], r);
        OldestIs(p, r.slug);
      }
    }
  }

  /** A put files the report and leaves the others, but for an oldest one if it is full. */
  lemma PutShape(m: Store, rep: Report, now: int, m': Store)
    requires PutStep(m, rep, now, m')
    ensures rep.slug in m' && m'[rep.slug] == rep
    ensures var p := Pruned(m, now);
            && (forall s :: s in m' && s != rep.slug ==> s in p && m'[s] == p[s])
            && (forall s :: s in p && s != rep.slug && s !in m' ==> |p| >= MAX_REPORTS && IsOldest(p, s))
  {
    hide Pruned, IsOldest;
  }

  lemma OldestIs(p: Store, slug: string)
    requires IsOldest(p, slug)
    ensures slug in p && forall s :: s in p ==> p[s].receivedAt >= p[slug].receivedAt
  {
  }

  lemma PutSize(m: Store, rep: Report, now: int, m': Store)
    requires PutStep(m, rep, now, m') && |Pruned(m, now)| <= MAX_REPORTS
    ensures |m'| <= MAX_REPORTS && (|Pruned(m, now)| == MAX_REPORTS ==> |m'| == MAX_REPORTS)
  {
    hide Pruned;
    var p := Pruned(m, now);
    if |p| >= MAX_REPORTS && rep.slug !in p {
      var oldest :| IsOldest(p, oldest) && m' == (p - {oldest})[rep.slug := rep];
      assert m'.Keys == (p.Keys - {oldest}) + {rep.slug};
    } else if rep.slug in p {
      assert m'.Keys == p.Keys;
    } else {
      assert m'.Keys == p.Keys + {rep.slug};
    }
  }

  /** Time never runs backwards. */
  ghost predicate Timed(ops: seq<Op>)
  {
    forall i, j :: 0 <= i < j < |ops| ==> TimeOf(ops[i]) <= TimeOf(ops[j])
  }

  lemma {:induction false} RecentFromPuts(ops: seq<Op>, now: int)
    requires forall i :: 0 <= i < |ops| ==> TimeOf(ops[i]) <= now
    ensures forall r :: r in Recent(Puts(ops)) ==> r.receivedAt <= now
  {
    if ops != [] {
      var n := |ops| - 1;
      RecentFromPuts(ops[..n], now);
      if ops[n].PutOp? {
        RecentMembers(Puts(ops[..n]), ops[n].rep);
      } else {
        assert Puts(ops) == Puts(ops[..n]);
      }
    }
  }

  /** After any history, reports of one instant included, the store files the last report
      of every slug that has not expired, or 256 of them that are no older than the rest. */
  lemma {:induction false} StoreKeepsNewest(ops: seq<Op>, states: seq<Store>)
    requires Timed(ops) && IsRun(ops, states)
    ensures ops != [] ==> KeepsNewest(states[|ops|], Puts(ops), TimeOf(ops[|ops|-1]))
  {
    hide KeepsNewest, PutStep, Recent, Pruned;
    if ops != [] {
      var n := |ops| - 1;
      var before, now := states[n], TimeOf(ops[n]);
      StoreKeepsNewest(ops[..n], states[..n + 1]);
      assert KeepsNewest(Pruned(before, now), Puts(ops[..n]), now) by {
        if n == 0 {
          EmptyKeepsNewest(now);
        } else {
          PruneKeepsNewest(before, Puts(ops[..n]), TimeOf(ops[n - 1]), now);
        }
      }
      assert OpStep(before, ops[n], states[n + 1]);
      if ops[n].PutOp? {
        RecentFromPuts(ops[..n], now);
        PutKeepsNewest(before, Puts(ops[..n]), ops[n].rep, states[n + 1]);
      } else {
        assert Puts(ops) == Puts(ops[..n]);
      }
    }
  }

  lemma EmptyKeepsNewest(now: int)
    ensures Pruned(map[], now) == map[] && KeepsNewest(map[], [], now)
  {
  }

  // ----- Clocks read before the lock is taken

  /** The report left the store at this step: expired by the step's clock, or as an oldest
      entry of a full store. */
  ghost predicate Dropped(m: Store, op: Op, m': Store, r: Report)
  {
    && r.slug in m && m[r.slug] == r && r.slug !in m'
    && (Expired(r, TimeOf(op)) || (op.PutOp? && |Pruned(m, TimeOf(op))| >= MAX_REPORTS
                                   && IsOldest(Pruned(m, TimeOf(op)), r.slug)))
  }

  /** m files the last report of a slug only, unexpired at now, at most 256. */
  ghost predicate FilesLast(m: Store, history: seq<Report>, now: int)
  {
    && (forall s :: s in m ==> m[s].slug == s && Current(history, now, m[s]))
    && |m| <= MAX_REPORTS
  }

  lemma PrunedFilesLast(m: Store, history: seq<Report>, t: int, now: int)
    requires FilesLast(m, history, t)
    ensures FilesLast(Pruned(m, now), history, now)
  {
    hide Recent, Expired;
    assert Pruned(m, now).Keys <= m.Keys;
    SubsetSize(Pruned(m, now).Keys, m.Keys);
  }

  lemma PutFilesLast(m: Store, history: seq<Report>, rep: Report, m': Store)
    requires FilesLast(Pruned(m, rep.receivedAt), history, rep.receivedAt) && PutStep(m, rep, rep.receivedAt, m')
    ensures FilesLast(m', history + [rep], rep.receivedAt)
  {
    hide Recent, Expired, Pruned, PutStep, IsOldest;
    RecentMembers(history, rep);
    NotExpired(rep);
    PutSize(m, rep, rep.receivedAt, m');
    PutShape(m, rep, rep.receivedAt, m');
  }

  /** A report that was filed and is still the last of its slug goes only by being dropped. */
  lemma GoneIsDropped(m: Store, op: Op, m': Store, r: Report)
    requires OpStep(m, op, m') && r.slug in m && m[r.slug] == r && r.slug !in m'
    ensures Dropped(m, op, m', r)
  {
    hide Expired, IsOldest;
    if op.PutOp? {
      PutShape(m, op.rep, op.rep.receivedAt, m');
    }
  }

  lemma {:induction false} RunFilesLast(ops: seq<Op>, states: seq<Store>)
    requires IsRun(ops, states)
    ensures ops != [] ==> FilesLast(states[|ops|], Puts(ops), TimeOf(ops[|ops|-1]))
  {
    hide FilesLast, Recent, Pruned, OpStep;
    if ops != [] {
      var n := |ops| - 1;
      var before, now, history := states[n], TimeOf(ops[n]), Puts(ops[..n]);
      RunFilesLast(ops[..n], states[..n + 1]);
      assert FilesLast(Pruned(before, now), history, now) by {
        if n == 0 {
          EmptyFilesLast(now);
        } else {
          PrunedFilesLast(before, history, TimeOf(ops[n - 1]), now);
        }
      }
      StepFilesLast(before, history, ops[n], states[n + 1]);
    }
  }

  /** Some call dropped the report. */
  ghost predicate SomeDropped(ops: seq<Op>, states: seq<Store>, r: Report)
    requires |states| == |ops| + 1
  {
    exists k :: 0 <= k < |ops| && Dropped(states[k], ops[k], states[k + 1], r)
  }

  lemma DroppedBefore(ops: seq<Op>, states: seq<Store>, n: nat, r: Report)
    requires |states| == |ops| + 1 && n <= |ops| && SomeDropped(ops[..n], states[..n + 1], r)
    ensures SomeDropped(ops, states, r)
  {
    hide Dropped;
    var k :| 0 <= k < n && Dropped(states[..n + 1][k], ops[..n][k], states[..n + 1][k + 1], r);
    assert Dropped(states[k], ops[k], states[k + 1], r);
  }

  lemma {:induction false} MissingIsDropped(ops: seq<Op>, states: seq<Store>, r: Report)
    requires IsRun(ops, states) && r in Recent(Puts(ops)) && r.slug !in states[|ops|]
    ensures SomeDropped(ops, states, r)
  {
    hide Recent, Dropped, OpStep;
    if ops == [] {
      NoneRecent();
    } else {
      var n := |ops| - 1;
      var before, op := states[n], ops[n];
      assert OpStep(before, op, states[n + 1]);
      assert r in Recent(Puts(ops[..n])) by { OlderRecent(before, Puts(ops[..n]), op, states[n + 1], r); }
      if r.slug in before {
        RunFilesLast(ops[..n], states[..n + 1]);
        FiledIsLast(ops[..n], states[..n + 1], r);
        GoneIsDropped(before, op, states[n + 1], r);
      } else {
        MissingIsDropped(ops[..n], states[..n + 1], r);
        DroppedBefore(ops, states, n, r);
      }
    }
  }

  /** However the clocks of the callers run, the store files only last reports that have not
      expired by the clock of the latest call, at most 256; and the last report of a slug is
      missing only because some call dropped it. */
  lemma StoreFilesLast(ops: seq<Op>, states: seq<Store>)
    requires IsRun(ops, states)
    ensures ops != [] ==> FilesLast(states[|ops|], Puts(ops), TimeOf(ops[|ops|-1]))
    ensures forall r :: r in Recent(Puts(ops)) && r.slug !in states[|ops|] ==> SomeDropped(ops, states, r)
  {
    hide FilesLast, Recent, Puts, SomeDropped, OpStep;
    RunFilesLast(ops, states);
    forall r | r in Recent(Puts(ops)) && r.slug !in states[|ops|] ensures SomeDropped(ops, states, r) {
      MissingIsDropped(ops, states, r);
    }
  }

  lemma NoneRecent()
    ensures Recent(Puts([])) == []
  {
  }

  lemma EmptyFilesLast(now: int)
    ensures Pruned(map[], now) == map[] && FilesLast(map[], [], now)
  {
  }

  lemma StepFilesLast(m: Store, history: seq<Report>, op: Op, m': Store)
    requires OpStep(m, op, m') && FilesLast(Pruned(m, TimeOf(op)), history, TimeOf(op))
    ensures FilesLast(m', history + (if op.PutOp? then [op.rep] else []), TimeOf(op))
  {
    hide FilesLast, PutStep, Pruned;
    if op.PutOp? {
      PutFilesLast(m, history, op.rep, m');
    } else {
      assert history + [] == history;
    }
  }

  /** A last report that is not filed after a step was the last one before it. */
  lemma OlderRecent(m: Store, history: seq<Report>, op: Op, m': Store, r: Report)
    requires OpStep(m, op, m') && r.slug !in m'
    requires r in Recent(history + (if op.PutOp? then [op.rep] else []))
    ensures r in Recent(history)
  {
    hide Recent, Pruned, IsOldest;
    if op.PutOp? {
      RecentMembers(history, op.rep);
      PutShape(m, op.rep, op.rep.receivedAt, m');
    } else {
      assert history + [] == history;
    }
  }

  lemma FiledIsLast(ops: seq<Op>, states: seq<Store>, r: Report)
    requires IsRun(ops, states) && ops != [] && FilesLast(states[|ops|], Puts(ops), TimeOf(ops[|ops|-1]))
    requires r in Recent(Puts(ops)) && r.slug in states[|ops|]
    ensures states[|ops|][r.slug] == r
  {
    hide Recent, Puts, OpStep, Expired;
    RecentOnePerSlug(Puts(ops), states[|ops|][r.slug], r);
  }
}
