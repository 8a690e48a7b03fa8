/** Paging through the audit log while it is written to and purged. */
module AuditPaging {
  import opened Options
  import opened Audit
  import opened AuditLog

  function Flatten(pages: seq<seq<AuditRow>>): seq<AuditRow>
  {
    if pages == [] then [] else pages[0] + Flatten(pages[1..])
  }

  function KeysOf(rs: seq<AuditRow>): seq<Key>
  {
    seq(|rs|, i requires 0 <= i < |rs| => KeyOf(rs[i]))
  }

  // ----- Writes that a later page does not see

  /** The rows of log are in grown where they were, selected below next as they were; no
      row that was added is selected there. */
  ghost predicate Unseen(log: seq<AuditRow>, grown: seq<AuditRow>, f: AuditFilter, next: Key)
  {
    && |log| <= |grown|
    && (forall i :: 0 <= i < |log| ==>
          KeyOf(grown[i]) == KeyOf(log[i]) && (Selected(f, Some(next), grown[i]) <==> Selected(f, Some(next), log[i])))
    && (forall j :: |log| <= j < |grown| ==> !Selected(f, Some(next), grown[j]))
  }

  lemma {:induction false} SelectNone(rs: seq<AuditRow>, f: AuditFilter, cursor: Option<Key>)
    requires forall i :: 0 <= i < |rs| ==> !Selected(f, cursor, rs[i])
    ensures Select(rs, f, cursor) == []
  {
    hide Selected;
    if rs != [] {
      SelectNone(rs[1..], f, cursor);
    }
  }

  lemma {:induction false} SelectKept(kept: seq<AuditRow>, extra: seq<AuditRow>, f: AuditFilter, cursor: Option<Key>)
    ensures |Select(kept + extra, f, cursor)| == |Select(kept, f, cursor)| + |Select(extra, f, cursor)|
    ensures Select(extra, f, cursor) == [] ==> Select(kept + extra, f, cursor) == Select(kept, f, cursor)
  {
    hide Selected;
    if kept == [] {
      assert kept + extra == extra;
    } else {
      SelectKept(kept[1..], extra, f, cursor);
      assert (kept + extra)[1..] == kept[1..] + extra;
    }
  }

  lemma {:induction false} SelectSameKeys(a: seq<AuditRow>, b: seq<AuditRow>, f: AuditFilter, cursor: Option<Key>)
    requires |a| == |b|
    requires forall i :: 0 <= i < |a| ==>
               KeyOf(b[i]) == KeyOf(a[i]) && (Selected(f, cursor, b[i]) <==> Selected(f, cursor, a[i]))
    ensures KeysOf(Select(a, f, cursor)) == KeysOf(Select(b, f, cursor))
  {
    hide Selected, KeyOf;
    if a != [] {
      SelectSameKeys(a[1..], b[1..], f, cursor);
      var restA, restB := Select(a[1..], f, cursor), Select(b[1..], f, cursor);
      KeysCons(a[0], restA);
      KeysCons(b[0], restB);
      assert [] + restA == restA && [] + restB == restB;
    }
  }

  /** Then the rows a later page has to choose from are the same. */
  lemma UnseenSelect(log: seq<AuditRow>, grown: seq<AuditRow>, f: AuditFilter, next: Key)
    requires Unseen(log, grown, f, next)
    ensures KeysOf(Select(grown, f, Some(next))) == KeysOf(Select(log, f, Some(next)))
  {
    hide Selected, Select, KeysOf, KeyOf;
    var kept, extra := grown[..|log|], grown[|log|..];
    assert grown == kept + extra;
    SelectNone(extra, f, Some(next));
    SelectKept(kept, extra, f, Some(next));
    SelectSameKeys(log, kept, f, Some(next));
  }

  lemma SamePlaceSelected(r: AuditRow, r2: AuditRow, f: AuditFilter, cursor: Option<Key>)
    requires SamePlace(r, r2) && f.requestId == ""
    ensures KeyOf(r2) == KeyOf(r) && (Selected(f, cursor, r2) <==> Selected(f, cursor, r))
  {
    hide Like;
  }

  /** Every row of log is in grown, in its place. */
  ghost predicate InPlace(log: seq<AuditRow>, grown: seq<AuditRow>)
  {
    |log| <= |grown| && forall i :: 0 <= i < |log| ==> SamePlace(log[i], grown[i])
  }

  lemma AdditionsUnseen(log: seq<AuditRow>, grown: seq<AuditRow>, f: AuditFilter, next: Key)
    requires InPlace(log, grown) && f.requestId == ""
    requires forall j :: |log| <= j < |grown| ==> !Selected(f, Some(next), grown[j])
    ensures Unseen(log, grown, f, next)
  {
    hide SamePlace, Selected;
    forall i | 0 <= i < |log|
      ensures KeyOf(grown[i]) == KeyOf(log[i])
              && (Selected(f, Some(next), grown[i]) <==> Selected(f, Some(next), log[i]))
    {
      SamePlaceSelected(log[i], grown[i], f, Some(next));
    }
  }

  lemma AdditionSeen(log: seq<AuditRow>, grown: seq<AuditRow>, f: AuditFilter, next: Key, j: nat)
    requires InPlace(log, grown) && f.requestId == ""
    requires |log| <= j < |grown| && Selected(f, Some(next), grown[j])
    ensures KeysOf(Select(grown, f, Some(next))) != KeysOf(Select(log, f, Some(next)))
  {
    hide SamePlace, Selected, Select, KeysOf;
    var kept, extra := grown[..|log|], grown[|log|..];
    assert grown == kept + extra;
    AdditionsUnseen(log, kept, f, next);
    UnseenSelect(log, kept, f, next);
    KeysLength(Select(kept, f, Some(next)), Select(log, f, Some(next)));
    SelectMembers(extra, f, Some(next));
    assert extra[j - |log|] in Select(extra, f, Some(next));
    SelectKept(kept, extra, f, Some(next));
    if KeysOf(Select(grown, f, Some(next))) == KeysOf(Select(log, f, Some(next))) {
      KeysLength(Select(grown, f, Some(next)), Select(log, f, Some(next)));
    }
  }

  /** While rows keep their places and others are added, later pages without a request-id
      filter are the same exactly when no row that was added matches below the cursor. */
  lemma AdditionsUnseenIff(log: seq<AuditRow>, grown: seq<AuditRow>, f: AuditFilter, next: Key)
    requires InPlace(log, grown) && f.requestId == ""
    ensures KeysOf(Select(grown, f, Some(next))) == KeysOf(Select(log, f, Some(next))) <==>
            forall j :: |log| <= j < |grown| ==> !Selected(f, Some(next), grown[j])
  {
    hide InPlace, Selected, Select, KeysOf;
    if j :| |log| <= j < |grown| && Selected(f, Some(next), grown[j]) {
      AdditionSeen(log, grown, f, next, j);
    } else {
      AdditionsUnseen(log, grown, f, next);
      UnseenSelect(log, grown, f, next);
    }
  }

  /** In particular rows inserted at or above the cursor, wherever that is. */
  lemma InsertedAboveUnseen(log: seq<AuditRow>, grown: seq<AuditRow>, f: AuditFilter, next: Key)
    requires InPlace(log, grown) && f.requestId == ""
    requires forall j :: |log| <= j < |grown| ==> !Below(KeyOf(grown[j]), next)
    ensures Unseen(log, grown, f, next)
  {
    hide InPlace, Matches, Below;
    AdditionsUnseen(log, grown, f, next);
  }

  lemma KeysLength(a: seq<AuditRow>, b: seq<AuditRow>)
    requires KeysOf(a) == KeysOf(b)
    ensures |a| == |b|
  {
    assert |a| == |KeysOf(a)| && |b| == |KeysOf(b)|;
  }

  // ----- Sorting looks at the keys alone

  lemma KeysCons(r: AuditRow, rs: seq<AuditRow>)
    ensures KeysOf([r] + rs) == [KeyOf(r)] + KeysOf(rs)
  {
  }

  lemma KeysTail(a: seq<AuditRow>, b: seq<AuditRow>)
    requires KeysOf(a) == KeysOf(b)
    ensures |a| == |b| && (a != [] ==> KeyOf(a[0]) == KeyOf(b[0]) && KeysOf(a[1..]) == KeysOf(b[1..]))
  {
    assert |a| == |KeysOf(a)| && |b| == |KeysOf(b)|;
    if a != [] {
      assert a == [a[0]] + a[1..] && b == [b[0]] + b[1..];
      KeysCons(a[0], a[1..]);
      KeysCons(b[0], b[1..]);
      assert ([KeyOf(a[0])] + KeysOf(a[1..]))[1..] == KeysOf(a[1..]);
      assert ([KeyOf(b[0])] + KeysOf(b[1..]))[1..] == KeysOf(b[1..]);
    }
  }

  /** Sorting looks at the keys alone. */
  lemma {:induction false} InsertSameKeys(a: seq<AuditRow>, b: seq<AuditRow>, r: AuditRow, r2: AuditRow)
    requires KeysOf(a) == KeysOf(b) && KeyOf(r) == KeyOf(r2)
    ensures KeysOf(Insert(a, r)) == KeysOf(Insert(b, r2))
  {
    hide Below, KeyOf, KeysOf;
    KeysTail(a, b);
    if a != [] && Below(KeyOf(r), KeyOf(a[0])) {
      InsertSameKeys(a[1..], b[1..], r, r2);
      KeysCons(a[0], Insert(a[1..], r));
      KeysCons(b[0], Insert(b[1..], r2));
    } else {
      KeysCons(r, a);
      KeysCons(r2, b);
      assert a == [] ==> [r] + a == [r] && [r2] + b == [r2];
    }
  }

  lemma {:induction false} SortSameKeys(a: seq<AuditRow>, b: seq<AuditRow>)
    requires KeysOf(a) == KeysOf(b)
    ensures KeysOf(SortDesc(a)) == KeysOf(SortDesc(b))
  {
    hide KeyOf, KeysOf;
    KeysTail(a, b);
    if a != [] {
      SortSameKeys(a[1..], b[1..]);
      InsertSameKeys(SortDesc(a[1..]), SortDesc(b[1..]), a[0], b[0]);
    }
  }

  // ----- Paging while the log is written

  /** pages[i] was read from logs[i]; between pages the log was written to, unseen below the
      cursor reached; the last page is empty. */
  ghost predicate PagedOver(logs: seq<seq<AuditRow>>, pages: seq<seq<AuditRow>>,
                            f: AuditFilter, cursor: Option<Key>, n: nat)
    decreases |pages|
  {
    && |logs| == |pages| && pages != []
    && UniqueIds(logs[0])
    && pages[0] == Page(logs[0], f, cursor, n)
    && if pages[0] == [] then |pages| == 1
       else
         var next := KeyOf(pages[0][|pages[0]|-1]);
         && |pages| > 1 && Unseen(logs[0], logs[1], f, next)
         && PagedOver(logs[1..], pages[1..], f, Some(next), n)
  }

  lemma KeysConcat(a: seq<AuditRow>, b: seq<AuditRow>)
    ensures KeysOf(a + b) == KeysOf(a) + KeysOf(b)
  {
  }

  /** If nothing is seen to change below the cursor, the pages are the rows that matched at
      the start, each once and in order. */
  lemma {:induction false} LivePagesCollectAll(logs: seq<seq<AuditRow>>, pages: seq<seq<AuditRow>>,
                                               f: AuditFilter, cursor: Option<Key>, n: nat)
    requires n > 0 && PagedOver(logs, pages, f, cursor, n)
    ensures KeysOf(Flatten(pages)) == KeysOf(SortDesc(Select(logs[0], f, cursor)))
    decreases |pages|
  {
    hide Select, SortDesc, Below, Unseen, KeysOf;
    var p, all := pages[0], SortDesc(Select(logs[0], f, cursor));
    if p == [] {
      assert pages[1..] == [] && p + [] == all;
    } else {
      var next := KeyOf(p[|p|-1]);
      LivePagesCollectAll(logs[1..], pages[1..], f, Some(next), n);
      UnseenSelect(logs[0], logs[1], f, next);
      SortSameKeys(Select(logs[0], f, Some(next)), Select(logs[1], f, Some(next)));
      CursorContinues(logs[0], f, cursor, |p|);
      assert all == p + all[|p|..];
      KeysConcat(p, all[|p|..]);
      KeysConcat(p, Flatten(pages[1..]));
    }
  }

  // ----- Which writers are unseen

  /** A write made at the cursor's time or later, or in the same instant with a later id. */
  predicate Above(w: Stamped, next: Key)
  {
    !Below(Key(w.now, w.id), next)
  }

  ghost predicate AllAbove(ws: seq<Stamped>, next: Key)
  {
    forall i :: 0 <= i < |ws| ==> Above(ws[i], next)
  }

  /** A row that a later denial of its burst would rewrite. */
  predicate Rewritable(r: AuditRow)
  {
    0 < r.count < MAX_COUNT && r.firstAt.Some?
  }

  /** There is no request-id filter, or no burst's row below the cursor passes the rest of
      the filter. */
  ghost predicate Steady(log: seq<AuditRow>, f: AuditFilter, next: Key)
  {
    f.requestId == "" ||
    forall i :: 0 <= i < |log| && Below(KeyOf(log[i]), next) && Rewritable(log[i]) ==>
      !Matches(f.(requestId := ""), log[i])
  }

  /** The request id is one of the filter's tests. */
  lemma MatchesSplit(f: AuditFilter, r: AuditRow)
    ensures Matches(f, r) <==> Matches(f.(requestId := ""), r) && (f.requestId == "" || r.requestId == f.requestId)
  {
    hide Like;
  }

  lemma SamePlaceMatches(r: AuditRow, r2: AuditRow, f: AuditFilter)
    requires SamePlace(r, r2)
    ensures KeyOf(r2) == KeyOf(r) && (Matches(f.(requestId := ""), r2) <==> Matches(f.(requestId := ""), r))
  {
    hide Like;
  }

  lemma RecountUnseen(r: AuditRow, w: Stamped, b: Burst, f: AuditFilter, next: Key)
    requires InBurst(r, b)
    requires f.requestId == "" || (Below(KeyOf(r), next) && Rewritable(r) ==> !Matches(f.(requestId := ""), r))
    ensures var r2 := Recounted(r, w);
            && KeyOf(r2) == KeyOf(r) && (Selected(f, Some(next), r2) <==> Selected(f, Some(next), r))
            && (f.requestId == "" || (Below(KeyOf(r2), next) && Rewritable(r2) ==> !Matches(f.(requestId := ""), r2)))
  {
    hide Matches;
    var r2 := Recounted(r, w);
    SamePlaceMatches(r, r2, f);
    MatchesSplit(f, r);
    MatchesSplit(f, r2);
  }

  lemma WriteUnseen(log: seq<AuditRow>, w: Stamped, f: AuditFilter, next: Key)
    requires Steady(log, f, next) && Above(w, next)
    ensures Unseen(log, AfterWrite(log, w), f, next) && Steady(AfterWrite(log, w), f, next)
  {
    hide InBurst, Matches, Recounted, Rewritable;
    var after := AfterWrite(log, w);
    assert KeyOf(NewRow(w)) == Key(w.now, w.id);
    if w.write.Denial? && RowOf(log, BurstOf(w.write)) < |log| {
      var b := BurstOf(w.write);
      var k := RowOf(log, b);
      RecountUnseen(log[k], w, b, f, next);
    }
  }

  lemma UnseenTwice(a: seq<AuditRow>, b: seq<AuditRow>, c: seq<AuditRow>, f: AuditFilter, next: Key)
    requires Unseen(a, b, f, next) && Unseen(b, c, f, next)
    ensures Unseen(a, c, f, next)
  {
    hide Selected;
  }

  /** Any number of writers above the cursor, in whatever order they commit. */
  lemma {:induction false} WritesUnseen(log: seq<AuditRow>, ws: seq<Stamped>, f: AuditFilter, next: Key)
    requires Steady(log, f, next) && AllAbove(ws, next)
    ensures Unseen(log, AfterWrites(log, ws), f, next) && Steady(AfterWrites(log, ws), f, next)
  {
    hide Unseen, Steady, AfterWrite, Above;
    if ws == [] {
      NothingUnseen(log, f, next);
    } else {
      var before := AfterWrites(log, ws[..|ws|-1]);
      WritesUnseen(log, ws[..|ws|-1], f, next);
      WriteUnseen(before, ws[|ws|-1], f, next);
      UnseenTwice(log, before, AfterWrite(before, ws[|ws|-1]), f, next);
    }
  }

  lemma NothingUnseen(log: seq<AuditRow>, f: AuditFilter, next: Key)
    ensures Unseen(log, log, f, next)
  {
    hide Selected;
  }

  /** Between pages i and i + 1 the writers wss[i] write at or above the cursor reached. */
  ghost predicate PagedWhileWritten(log: seq<AuditRow>, wss: seq<seq<Stamped>>, pages: seq<seq<AuditRow>>,
                                    f: AuditFilter, cursor: Option<Key>, n: nat)
    decreases |pages|
  {
    && |pages| == |wss| + 1
    && UniqueIds(log)
    && pages[0] == Page(log, f, cursor, n)
    && if pages[0] == [] then |pages| == 1
       else
         var next := KeyOf(pages[0][|pages[0]|-1]);
         && |pages| > 1 && AllAbove(wss[0], next)
         && PagedWhileWritten(AfterWrites(log, wss[0]), wss[1..], pages[1..], f, Some(next), n)
  }

  lemma SteadyBelow(log: seq<AuditRow>, f: AuditFilter, cursor: Option<Key>, n: nat, high: Key)
    requires UniqueIds(log) && Page(log, f, cursor, n) != [] && Steady(log, f, high)
    requires cursor == Some(high)
    ensures var p := Page(log, f, cursor, n); Steady(log, f, KeyOf(p[|p|-1]))
  {
    hide Matches, Rewritable, Select, SortDesc;
    var p, all := Page(log, f, cursor, n), SortDesc(Select(log, f, cursor));
    SelectedSorted(log, f, cursor);
    assert p[|p|-1] == all[|p|-1] && all[|p|-1] in all;
    assert Below(KeyOf(p[|p|-1]), high);
  }

  lemma {:induction false} WrittenLogs(
    log: seq<AuditRow>, wss: seq<seq<Stamped>>, pages: seq<seq<AuditRow>>, f: AuditFilter, cursor: Option<Key>, n: nat)
    returns (logs: seq<seq<AuditRow>>)
    requires PagedWhileWritten(log, wss, pages, f, cursor, n)
    requires pages[0] != [] ==> Steady(log, f, KeyOf(pages[0][|pages[0]|-1]))
    ensures logs != [] && logs[0] == log && PagedOver(logs, pages, f, cursor, n)
    decreases |pages|
  {
    hide Steady, AllAbove, Unseen, Page;
    if pages[0] == [] {
      logs := [log];
    } else {
      var next := KeyOf(pages[0][|pages[0]|-1]);
      WritesUnseen(log, wss[0], f, next);
      var log2 := AfterWrites(log, wss[0]);
      if pages[1] != [] {
        SteadyBelow(log2, f, Some(next), n, next);
      }
      var rest := WrittenLogs(log2, wss[1..], pages[1..], f, Some(next), n);
      logs := [log] + rest;
      assert logs[1..] == rest;
    }
  }

  /** Paging through a log that any writers write to at or above the cursor yields each row
      that matched at the start once, in order, and no other. */
  lemma WrittenPagesCollectAll(log: seq<AuditRow>, wss: seq<seq<Stamped>>, pages: seq<seq<AuditRow>>,
                               f: AuditFilter, cursor: Option<Key>, n: nat)
    requires n > 0 && PagedWhileWritten(log, wss, pages, f, cursor, n)
    requires pages[0] != [] ==> Steady(log, f, KeyOf(pages[0][|pages[0]|-1]))
    ensures KeysOf(Flatten(pages)) == KeysOf(SortDesc(Select(log, f, cursor)))
  {
    hide PagedWhileWritten, PagedOver, Steady, Select, SortDesc, KeysOf;
    var logs := WrittenLogs(log, wss, pages, f, cursor, n);
    LivePagesCollectAll(logs, pages, f, cursor, n);
  }

  // ----- And which are not

  lemma {:induction false} SomeLater(log: seq<AuditRow>, write: Write) returns (w: Stamped)
    ensures Later(log, w) && w.write == write
  {
    if log == [] {
      w := Stamped(write, 0, 0);
    } else {
      var v := SomeLater(log[1..], write);
      var r := log[0];
      w := Stamped(write, if r.id < v.id then v.id else r.id + 1, if r.createdAt <= v.now then v.now else r.createdAt);
      forall i | 0 <= i < |log| ensures log[i].id < w.id && log[i].createdAt <= w.now {
        assert i > 0 ==> log[i] == log[1..][i - 1];
      }
    }
  }

  /** Selecting or unselecting one row changes how many are selected. */
  lemma {:induction false} SelectFlips(log: seq<AuditRow>, i: nat, r2: AuditRow, f: AuditFilter, cursor: Option<Key>)
    requires i < |log| && (Selected(f, cursor, r2) <==> !Selected(f, cursor, log[i]))
    ensures |Select(log[i := r2], f, cursor)| != |Select(log, f, cursor)|
  {
    hide Selected;
    var log2 := log[i := r2];
    if i == 0 {
      assert log2[1..] == log[1..];
    } else {
      SelectFlips(log[1..], i - 1, r2, f, cursor);
      assert log2[1..] == log[1..][i - 1 := r2] && log2[0] == log[0];
    }
  }

  /** The burst of a row, and a denial of it with the given request id. */
  function DenialLike(r: AuditRow, requestId: string): Write
    requires r.firstAt.Some?
  {
    Denial(Entry(r.orgId, r.actor, r.action, r.targetId, r.detail, requestId, r.clientReqId),
           r.resourceFp, r.firstAt.value)
  }

  lemma RewriteFlips(r: AuditRow, w: Stamped, f: AuditFilter, next: Key)
    requires Rewritable(r) && f.requestId != "" && Matches(f.(requestId := ""), r) && Below(KeyOf(r), next)
    requires w.write == DenialLike(r, if r.requestId == f.requestId then f.requestId + "x" else f.requestId)
    ensures Selected(f, Some(next), Recounted(r, w)) <==> !Selected(f, Some(next), r)
  {
    hide Matches;
    var r2 := Recounted(r, w);
    assert |f.requestId + "x"| > |f.requestId|;
    SamePlaceMatches(r, r2, f);
    MatchesSplit(f, r);
    MatchesSplit(f, r2);
  }

  lemma UnsteadySeen(log: seq<AuditRow>, f: AuditFilter, next: Key) returns (w: Stamped)
    requires OneRowPerBurst(log) && !Steady(log, f, next)
    ensures Later(log, w)
    ensures KeysOf(Select(AfterWrite(log, w), f, Some(next))) != KeysOf(Select(log, f, Some(next)))
  {
    hide Matches, Select, Selected, Later, Recounted;
    var i :| 0 <= i < |log| && Below(KeyOf(log[i]), next) && Rewritable(log[i]) && Matches(f.(requestId := ""), log[i]);
    var r := log[i];
    w := SomeLater(log, DenialLike(r, if r.requestId == f.requestId then f.requestId + "x" else f.requestId));
    RowOfIs(log, BurstOf(w.write), i);
    RewriteFlips(r, w, f, next);
    SelectFlips(log, i, Recounted(r, w), f, Some(next));
    if KeysOf(Select(AfterWrite(log, w), f, Some(next))) == KeysOf(Select(log, f, Some(next))) {
      KeysLength(Select(AfterWrite(log, w), f, Some(next)), Select(log, f, Some(next)));
    }
  }

  lemma LaterAbove(log: seq<AuditRow>, w: Stamped, last: AuditRow)
    requires Later(log, w) && last in log
    ensures Above(w, KeyOf(last))
  {
  }

  lemma AfterOne(log: seq<AuditRow>, w: Stamped)
    ensures AfterWrites(log, [w]) == AfterWrite(log, w)
  {
    assert [w][..0] == [];
  }

  /** Writers at or above the cursor leave later pages as they are, whatever they write,
      exactly when there is no request-id filter or no burst's row below the cursor passes
      the rest of the filter; of serial writers one write decides it. */
  lemma WritesUnseenIff(log: seq<AuditRow>, f: AuditFilter, last: AuditRow)
    requires OneRowPerBurst(log) && last in log
    ensures var next := KeyOf(last);
            (forall ws :: AllAbove(ws, next) ==>
               KeysOf(Select(AfterWrites(log, ws), f, Some(next))) == KeysOf(Select(log, f, Some(next))))
            <==> Steady(log, f, next)
    ensures var next := KeyOf(last);
            (forall w :: Later(log, w) ==>
               KeysOf(Select(AfterWrite(log, w), f, Some(next))) == KeysOf(Select(log, f, Some(next))))
            <==> Steady(log, f, next)
  {
    hide Select, KeysOf, Steady, Later, Above, AfterWrites, AfterWrite, OneRowPerBurst, KeyOf;
    var next := KeyOf(last);
    if Steady(log, f, next) {
      forall ws | AllAbove(ws, next)
        ensures KeysOf(Select(AfterWrites(log, ws), f, Some(next))) == KeysOf(Select(log, f, Some(next)))
      {
        WritesUnseen(log, ws, f, next);
        UnseenSelect(log, AfterWrites(log, ws), f, next);
      }
      forall w | Later(log, w)
        ensures KeysOf(Select(AfterWrite(log, w), f, Some(next))) == KeysOf(Select(log, f, Some(next)))
      {
        LaterAbove(log, w, last);
        WriteUnseen(log, w, f, next);
        UnseenSelect(log, AfterWrite(log, w), f, next);
      }
    } else {
      var w := UnsteadySeen(log, f, next);
      LaterAbove(log, w, last);
      AfterOne(log, w);
      assert AllAbove([w], next);
    }
  }

  /** A log that only serial writers grew is one case. */
  lemma GrownUnseen(log: seq<AuditRow>, grown: seq<AuditRow>, f: AuditFilter, last: AuditRow)
    requires Grown(log, grown) && last in log && f.requestId == ""
    ensures Unseen(log, grown, f, KeyOf(last))
  {
    hide SamePlace;
    InsertedAboveUnseen(log, grown, f, KeyOf(last));
  }

  /** A row that commits late, between two that are there, is another. */
  lemma LateCommitUnseen()
    ensures exists log: seq<AuditRow>, w: Stamped, f: AuditFilter, next: Key ::
      && |log| == 2 && Above(w, next) && !Later(log, w) && next == KeyOf(log[0]) && Steady(log, f, next)
      && Unseen(log, AfterWrite(log, w), f, next) && !Grown(log, AfterWrite(log, w))
  {
    var e := Entry("o", "a", "x", "t", "", "q", "");
    var log := [NewRow(Stamped(Append(e), 1, 1)), NewRow(Stamped(Append(e), 3, 3))];
    var w, next := Stamped(Append(e), 2, 2), KeyOf(log[0]);
    assert Steady(log, ANYTHING, next) && Above(w, next);
    WriteUnseen(log, w, ANYTHING, next);
    var grown := AfterWrite(log, w);
    assert grown[2].id == 2 && log[1].id == 3;
    assert !Later(log, w) && !Grown(log, grown);
  }

  // ----- With a request-id filter a row can be missed

  const ANYTHING: AuditFilter := AuditFilter("o", "", "", "", ZERO_TIME, ZERO_TIME, "", "", None, 1)

  lemma SelectTwo(a: AuditRow, b: AuditRow, f: AuditFilter, cursor: Option<Key>)
    ensures Select([a, b], f, cursor)
            == (if Selected(f, cursor, a) then [a] else []) + (if Selected(f, cursor, b) then [b] else [])
  {
    hide Selected;
    assert [a, b][1..] == [b] && [b][1..] == [];
    assert Select([b][1..], f, cursor) == [];
  }

  lemma SortTwo(a: AuditRow, b: AuditRow)
    requires Below(KeyOf(a), KeyOf(b))
    ensures SortDesc([a, b]) == [b, a]
  {
    assert [a, b][1..] == [b] && [b][1..] == [];
    assert SortDesc([b][1..]) == [] && SortDesc([b]) == [b];
    assert Insert([b][1..], a) == [a];
  }

  /** A burst's row that matched at the start is rewritten by a later denial of the burst
      and no longer matches when the paging gets to it. */
  lemma RequestFilterMissesRow()
    ensures exists log: seq<AuditRow>, w: Stamped, f: AuditFilter, p: seq<AuditRow> ::
      && UniqueIds(log) && Later(log, w) && f.requestId != ""
      && p == Page(log, f, None, 1) && |p| == 1
      && |SortDesc(Select(log, f, None))| == 2
      && Page(AfterWrite(log, w), f, Some(KeyOf(p[0])), 1) == []
  {
    hide Select, SortDesc, Like;
    var denied := Entry("o", "a", "login.denied", "t", "", "q", "");
    var burst := NewRow(Stamped(Denial(denied, "fp", 0), 1, 1));
    var other := NewRow(Stamped(Append(denied), 2, 2));
    var f := ANYTHING.(requestId := "q");
    var log, w := [burst, other], Stamped(Denial(denied.(requestId := "r"), "fp", 0), 3, 3);
    SelectTwo(burst, other, f, None);
    assert Select(log, f, None) == [burst] + [other] == log;
    SortTwo(burst, other);
    assert Page(log, f, None, 1) == [other];
    var moved := Recounted(burst, w);
    assert RowOf(log, BurstOf(w.write)) == 0 && AfterWrite(log, w) == [moved, other];
    SelectTwo(moved, other, f, Some(KeyOf(other)));
    assert Select([moved, other], f, Some(KeyOf(other))) == [];
    assert SortDesc([]) == [] by { SortNone(); }
    assert UniqueIds(log) && Later(log, w);
  }

  lemma SortNone()
    ensures SortDesc([]) == []
  {
  }

  // ----- Paging while rows are purged

  /** The keys of the rows that a page from cursor can have. */
  ghost function Shown(log: seq<AuditRow>, f: AuditFilter, cursor: Option<Key>): set<Key>
  {
    set r | r in log && Selected(f, cursor, r) :: KeyOf(r)
  }

  /** As PagedOver, but rows below the cursor may also go. */
  ghost predicate PagedWhilePurged(logs: seq<seq<AuditRow>>, pages: seq<seq<AuditRow>>,
                                   f: AuditFilter, cursor: Option<Key>, n: nat)
    decreases |pages|
  {
    && |logs| == |pages| && pages != []
    && UniqueIds(logs[0])
    && pages[0] == Page(logs[0], f, cursor, n)
    && if pages[0] == [] then |pages| == 1
       else
         var next := KeyOf(pages[0][|pages[0]|-1]);
         && |pages| > 1 && Shown(logs[1], f, Some(next)) <= Shown(logs[0], f, Some(next))
         && PagedWhilePurged(logs[1..], pages[1..], f, Some(next), n)
  }

  ghost predicate DescendingKeys(ks: seq<Key>)
  {
    forall i, j :: 0 <= i < j < |ks| ==> Below(ks[j], ks[i])
  }

  lemma ShownNarrows(log: seq<AuditRow>, f: AuditFilter, cursor: Option<Key>, next: Key)
    requires cursor.None? || Below(next, cursor.value)
    ensures Shown(log, f, Some(next)) <= Shown(log, f, cursor)
    ensures forall k :: k in Shown(log, f, Some(next)) <==> k in Shown(log, f, cursor) && Below(k, next)
  {
    hide Matches;
    forall k | k in Shown(log, f, cursor) && Below(k, next) ensures k in Shown(log, f, Some(next)) {
      var r :| r in log && Selected(f, cursor, r) && KeyOf(r) == k;
      assert Selected(f, Some(next), r);
    }
    forall k | k in Shown(log, f, Some(next)) ensures k in Shown(log, f, cursor) && Below(k, next) {
      var r :| r in log && Selected(f, Some(next), r) && KeyOf(r) == k;
      assert Selected(f, cursor, r);
    }
  }

  /** A page is the top of what is shown: its keys are shown, in order, and what is shown
      and not on it is below its last key. */
  lemma PageTops(log: seq<AuditRow>, f: AuditFilter, cursor: Option<Key>, n: nat)
    requires UniqueIds(log) && n > 0
    ensures var p := Page(log, f, cursor, n);
            && DescendingKeys(KeysOf(p))
            && (forall k :: k in KeysOf(p) ==> k in Shown(log, f, cursor))
            && (p == [] ==> Shown(log, f, cursor) == {})
            && (p != [] ==> forall k :: k in Shown(log, f, cursor) ==>
                  k in KeysOf(p) || Below(k, KeyOf(p[|p|-1])))
  {
    hide Select, SortDesc, Selected;
    SelectedSorted(log, f, cursor);
    var p, all := Page(log, f, cursor, n), SortDesc(Select(log, f, cursor));
    forall k | k in KeysOf(p) ensures k in Shown(log, f, cursor) {
      var i :| 0 <= i < |KeysOf(p)| && KeysOf(p)[i] == k;
      assert p[i] == all[i] && all[i] in all;
    }
    forall k | k in Shown(log, f, cursor)
      ensures p != [] && (k in KeysOf(p) || Below(k, KeyOf(p[|p|-1])))
    {
      var r :| r in log && Selected(f, cursor, r) && KeyOf(r) == k;
      assert r in all;
      var i :| 0 <= i < |all| && all[i] == r;
      if i < |p| {
        assert KeysOf(p)[i] == k;
      } else {
        assert p[|p|-1] == all[|p|-1];
      }
    }
  }

  lemma CursorBelow(log: seq<AuditRow>, f: AuditFilter, cursor: Option<Key>, k: Key)
    requires k in Shown(log, f, cursor)
    ensures cursor.None? || Below(k, cursor.value)
  {
    hide Matches;
  }

  /** A row matched and was below the cursor each time a page was read, until it was
      returned or to the end. */
  ghost predicate Stays(logs: seq<seq<AuditRow>>, f: AuditFilter, cursor: Option<Key>, k: Key)
  {
    forall i :: 0 <= i < |logs| ==> k in Shown(logs[i], f, cursor)
  }

  lemma DescendingJoin(a: seq<Key>, b: seq<Key>, last: Key)
    requires DescendingKeys(a) && DescendingKeys(b) && a != [] && a[|a|-1] == last
    requires forall k :: k in b ==> Below(k, last)
    ensures DescendingKeys(a + b)
  {
    var ks := a + b;
    forall i, j | 0 <= i < j < |ks| ensures Below(ks[j], ks[i]) {
      if i < |a| <= j {
        assert ks[j] in b && Below(ks[j], last);
        assert i == |a| - 1 || Below(last, a[i]);
      }
    }
  }

  /** Whatever is added above the cursor, rewritten or purged meanwhile: no row is returned
      twice or out of order, none that did not match at the start, and every row that
      matched throughout is returned. */
  lemma {:induction false} PagesSurvivePurge(logs: seq<seq<AuditRow>>, pages: seq<seq<AuditRow>>,
                                             f: AuditFilter, cursor: Option<Key>, n: nat)
    requires n > 0 && PagedWhilePurged(logs, pages, f, cursor, n)
    ensures DescendingKeys(KeysOf(Flatten(pages)))
    ensures forall k :: k in KeysOf(Flatten(pages)) ==> k in Shown(logs[0], f, cursor)
    ensures forall k :: Stays(logs, f, cursor, k) ==> k in KeysOf(Flatten(pages))
    decreases |pages|
  {
    hide Page, Shown, Below, KeysOf, DescendingKeys;
    var p := pages[0];
    PageTops(logs[0], f, cursor, n);
    if p == [] {
      assert pages[1..] == [] && p + [] == [];
      KeysNone();
      assert forall k :: Stays(logs, f, cursor, k) ==> k in Shown(logs[0], f, cursor);
    } else {
      var last := p[|p|-1];
      var next := KeyOf(last);
      var rest := Flatten(pages[1..]);
      PagesSurvivePurge(logs[1..], pages[1..], f, Some(next), n);
      KeysConcat(p, rest);
      KeysAt(p);
      assert next in Shown(logs[0], f, cursor);
      CursorBelow(logs[0], f, cursor, next);
      ShownNarrows(logs[0], f, cursor, next);
      forall k | k in KeysOf(rest) ensures Below(k, next) && k in Shown(logs[0], f, cursor) {
        assert k in Shown(logs[1], f, Some(next));
      }
      DescendingJoin(KeysOf(p), KeysOf(rest), next);
      forall k | Stays(logs, f, cursor, k) ensures k in KeysOf(p + rest) {
        assert k in Shown(logs[0], f, cursor);
        if k !in KeysOf(p) {
          forall i | 0 <= i < |logs[1..]| ensures k in Shown(logs[1..][i], f, Some(next)) {
            assert logs[1..][i] == logs[i + 1];
            ShownNarrows(logs[i + 1], f, cursor, next);
          }
          assert Stays(logs[1..], f, Some(next), k);
        }
      }
    }
  }

  lemma KeysNone()
    ensures KeysOf([]) == [] && DescendingKeys([])
  {
  }

  lemma KeysAt(p: seq<AuditRow>)
    requires p != []
    ensures |KeysOf(p)| == |p| && KeysOf(p)[|p|-1] == KeyOf(p[|p|-1])
  {
  }

  /** Purging shows nothing new, and nothing that is written above the cursor does. */
  lemma StepShowsNothingNew(log: seq<AuditRow>, e: Step, f: AuditFilter, next: Key)
    requires Steady(log, f, next) && (e.Wrote? ==> Above(e.w, next))
    ensures Shown(AfterStep(log, e), f, Some(next)) <= Shown(log, f, Some(next))
    ensures Steady(AfterStep(log, e), f, next)
  {
    hide AfterWrite, Matches, Selected, Below, Above;
    match e
    case Wrote(w) =>
      WriteUnseen(log, w, f, next);
      UnseenShown(log, AfterWrite(log, w), f, next);
    case Purge(now, olderThan) =>
      var kept := Retained(log, now - olderThan);
      RetainedMembers(log, now - olderThan);
      forall i | 0 <= i < |kept| ensures kept[i] in log {
      }
  }

  lemma UnseenShown(log: seq<AuditRow>, grown: seq<AuditRow>, f: AuditFilter, next: Key)
    requires Unseen(log, grown, f, next)
    ensures Shown(grown, f, Some(next)) <= Shown(log, f, Some(next))
  {
    hide Selected, KeyOf;
    forall k | k in Shown(grown, f, Some(next)) ensures k in Shown(log, f, Some(next)) {
      var r :| r in grown && Selected(f, Some(next), r) && KeyOf(r) == k;
      var i :| 0 <= i < |grown| && grown[i] == r;
      assert i < |log| && log[i] in log;
    }
  }
}
