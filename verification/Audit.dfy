/** The audit feed: the filtered, keyset-paged query. */
module Audit {
  import opened Options

  datatype AuditRow = AuditRow(
    id: int,
    orgId: string,
    actor: string,
    action: string,
    targetId: string,
    detail: string,
    requestId: string,
    clientReqId: string,
    count: int,
    firstAt: Option<int>,
    lastAt: Option<int>,
    createdAt: int,
    resourceFp: string)

  datatype AuditFilter = AuditFilter(
    orgId: string,
    actionPrefix: string,
    actor: string,
    targetPrefix: string,
    fromTime: int,
    toTime: int,
    requestId: string,
    clientReqId: string,
    cursor: Option<Key>,
    limit: int)

  /** The paging key (created_at, id). */
  datatype Key = Key(createdAt: int, id: int)

  /** Go's zero time, and the upper sentinel; times are nanoseconds since the zero time. */
  const ZERO_TIME: int := 0
  const TO_SENTINEL: int := 315537897599_000_000_000

  const VIEW_MAX_ROWS: nat := 200
  const VIEW_SPAN: int := 90 * 24 * 60 * 60 * 1_000_000_000

  // ----- The WHERE clause

  /** SQL LIKE with % and _ and the default escape character. */
  predicate Like(s: string, p: string)
    decreases |p| + |s|
  {
    if p == "" then s == ""
    else if p[0] == '%' then Like(s, p[1..]) || (s != "" && Like(s[1..], p))
    else if p[0] == '_' then s != "" && Like(s[1..], p[1..])
    else if p[0] == '\\' then |p| > 1 && s != "" && s[0] == p[1] && Like(s[1..], p[2..])
    else s != "" && s[0] == p[0] && Like(s[1..], p[1..])
  }

  function UpperBound(f: AuditFilter): int
  {
    if f.toTime == ZERO_TIME then TO_SENTINEL else f.toTime
  }

  predicate Matches(f: AuditFilter, r: AuditRow)
  {
    && r.orgId == f.orgId
    && (f.actionPrefix == "" || Like(r.action, f.actionPrefix + "%"))
    && (f.actor == "" || r.actor == f.actor)
    && (f.targetPrefix == "" || Like(r.targetId, f.targetPrefix + "%"))
    && (f.fromTime == ZERO_TIME || r.createdAt >= f.fromTime)
    && (UpperBound(f) == TO_SENTINEL || r.createdAt <= UpperBound(f))
    && (f.requestId == "" || r.requestId == f.requestId)
    && (f.clientReqId == "" || r.clientReqId == f.clientReqId)
  }

  function KeyOf(r: AuditRow): Key
  {
    Key(r.createdAt, r.id)
  }

  /** Row comparison (created_at, id) < (k.createdAt, k.id). */
  predicate Below(a: Key, b: Key)
  {
    a.createdAt < b.createdAt || (a.createdAt == b.createdAt && a.id < b.id)
  }

  predicate Selected(f: AuditFilter, cursor: Option<Key>, r: AuditRow)
  {
    Matches(f, r) && (cursor.None? || Below(KeyOf(r), cursor.value))
  }

  function Select(table: seq<AuditRow>, f: AuditFilter, cursor: Option<Key>): seq<AuditRow>
  {
    if table == [] then []
    else (if Selected(f, cursor, table[0]) then [table[0]] else []) + Select(table[1..], f, cursor)
  }

  // ----- ORDER BY created_at DESC, id DESC

  function Insert(rs: seq<AuditRow>, r: AuditRow): seq<AuditRow>
  {
    if rs == [] then [r]
    else if Below(KeyOf(r), KeyOf(rs[0])) then [rs[0]] + Insert(rs[1..], r)
    else [r] + rs
  }

  function SortDesc(rs: seq<AuditRow>): seq<AuditRow>
  {
    if rs == [] then [] else Insert(SortDesc(rs[1..]), rs[0])
  }

  ghost predicate Descending(rs: seq<AuditRow>)
  {
    forall i, j :: 0 <= i < j < |rs| ==> Below(KeyOf(rs[j]), KeyOf(rs[i]))
  }

  /** id is the table's primary key. */
  ghost predicate UniqueIds(rs: seq<AuditRow>)
  {
    forall i, j :: 0 <= i < j < |rs| ==> rs[i].id != rs[j].id
  }

  // ----- LIMIT and the query

  function Take(rs: seq<AuditRow>, n: nat): seq<AuditRow>
  {
    if |rs| <= n then rs else rs[..n]
  }

  function Page(table: seq<AuditRow>, f: AuditFilter, cursor: Option<Key>, n: nat): seq<AuditRow>
  {
    Take(SortDesc(Select(table, f, cursor)), n)
  }

  /** Partial: the rows read before the scan or the stream failed. */
  datatype Reply = Rows(rows: seq<AuditRow>) | Invalid | QueryFailed | Partial(rows: seq<AuditRow>)

  predicate Validate(f: AuditFilter, maxSpan: int)
  {
    && f.orgId != ""
    && f.limit > 0
    && (f.fromTime != ZERO_TIME && f.toTime != ZERO_TIME ==> f.toTime <= f.fromTime + maxSpan)
  }

  /** runAuditQuery over an in-memory table. queryOk: whether the query could be sent;
      stopsAt: after how many rows reading them fails, if it does. */
  method RunAuditQuery(table: seq<AuditRow>, f: AuditFilter, maxRows: nat, maxSpan: int,
                       queryOk: bool, stopsAt: Option<nat>)
    returns (r: Reply)
    requires UniqueIds(table)
    ensures r.Invalid? <==>
              || f.orgId == ""
              || f.limit <= 0
              || (f.fromTime != ZERO_TIME && f.toTime != ZERO_TIME && f.toTime - f.fromTime > maxSpan)
    ensures r.QueryFailed? <==> Validate(f, maxSpan) && !queryOk
    ensures Validate(f, maxSpan) && queryOk ==>
              var p := Page(table, f, f.cursor, if f.limit > maxRows then maxRows else f.limit);
              && (r.Partial? <==> stopsAt.Some? && stopsAt.value <= |p|)
              && r.rows == (if r.Partial? then p[..stopsAt.value] else p)
              && |r.rows| <= maxRows && Descending(r.rows)
              && forall x :: x in r.rows ==> x in table && x.orgId == f.orgId
  {
    hide Select, SortDesc, Descending, Matches;
    if !Validate(f, maxSpan) {
      return Invalid;
    }
    var limit := f.limit;
    if limit > maxRows {
      limit := maxRows;
    }
    if !queryOk {
      return QueryFailed;
    }
    var rows := Page(table, f, f.cursor, limit);
    PageRows(table, f, f.cursor, limit);
    var out := [];
    for i := 0 to |rows|
      invariant out == rows[..i]
      invariant stopsAt.Some? ==> i <= stopsAt.value
    {
      if stopsAt == Some(i) {
        assert Descending(out) by { DescendingPrefix(rows, i); }
        return Partial(out);
      }
      out := out + [rows[i]];
    }
    assert out == rows;
    return if stopsAt == Some(|rows|) then Partial(out) else Rows(out);
  }

  lemma DescendingPrefix(rs: seq<AuditRow>, n: nat)
    requires Descending(rs) && n <= |rs|
    ensures Descending(rs[..n])
  {
  }

  method ViewAudit(table: seq<AuditRow>, f: AuditFilter, queryOk: bool, stopsAt: Option<nat>) returns (r: Reply)
    requires UniqueIds(table)
    ensures r.Invalid? <==>
              || f.orgId == ""
              || f.limit <= 0
              || (f.fromTime != ZERO_TIME && f.toTime != ZERO_TIME && f.toTime - f.fromTime > VIEW_SPAN)
    ensures r.QueryFailed? ==> !queryOk
    ensures r.Rows? || r.Partial? ==>
              && |r.rows| <= 200 && |r.rows| <= f.limit
              && r.rows <= Page(table, f, f.cursor, if f.limit > 200 then 200 else f.limit)
    ensures r.Rows? ==> r.rows == Page(table, f, f.cursor, if f.limit > 200 then 200 else f.limit)
  {
    hide Page;
    r := RunAuditQuery(table, f, VIEW_MAX_ROWS, VIEW_SPAN, queryOk, stopsAt);
    if Validate(f, VIEW_SPAN) {
      PageRows(table, f, f.cursor, if f.limit > 200 then 200 else f.limit);
    }
  }

  // ----- Facts about the query

  lemma {:induction false} SelectMembers(table: seq<AuditRow>, f: AuditFilter, cursor: Option<Key>)
    ensures forall x :: x in Select(table, f, cursor) <==> x in table && Selected(f, cursor, x)
    ensures UniqueIds(table) ==> UniqueIds(Select(table, f, cursor))
  {
    hide Selected;
    if table != [] {
      SelectMembers(table[1..], f, cursor);
      assert table == [table[0]] + table[1..];
      if UniqueIds(table) {
        UniqueCons(table[0], Select(table[1..], f, cursor));
      }
    }
  }

  lemma UniqueCons(r: AuditRow, rs: seq<AuditRow>)
    requires UniqueIds(rs) && forall x :: x in rs ==> x.id != r.id
    ensures UniqueIds([r] + rs)
  {
  }

  lemma DescendingCons(r: AuditRow, rs: seq<AuditRow>)
    requires Descending(rs) && forall x :: x in rs ==> Below(KeyOf(x), KeyOf(r))
    ensures Descending([r] + rs)
  {
  }

  lemma {:induction false} InsertOk(rs: seq<AuditRow>, r: AuditRow)
    requires Descending(rs) && forall x :: x in rs ==> x.id != r.id
    ensures Descending(Insert(rs, r))
    ensures forall x :: x in Insert(rs, r) <==> x in rs || x == r
  {
    if rs != [] {
      assert rs == [rs[0]] + rs[1..];
      if Below(KeyOf(r), KeyOf(rs[0])) {
        InsertOk(rs[1..], r);
        DescendingCons(rs[0], Insert(rs[1..], r));
      } else {
        DescendingCons(r, rs);
      }
    }
  }

  lemma {:induction false} SortDescOk(rs: seq<AuditRow>)
    requires UniqueIds(rs)
    ensures Descending(SortDesc(rs))
    ensures forall x :: x in SortDesc(rs) <==> x in rs
  {
    if rs != [] {
      assert rs == [rs[0]] + rs[1..];
      SortDescOk(rs[1..]);
      InsertOk(SortDesc(rs[1..]), rs[0]);
    }
  }

  lemma SelectedSorted(table: seq<AuditRow>, f: AuditFilter, cursor: Option<Key>)
    requires UniqueIds(table)
    ensures Descending(SortDesc(Select(table, f, cursor)))
    ensures forall x :: x in SortDesc(Select(table, f, cursor)) <==> x in table && Selected(f, cursor, x)
  {
    hide Selected, Select;
    SelectMembers(table, f, cursor);
    SortDescOk(Select(table, f, cursor));
  }

  /** A page is in order, within its limit, and of the organisation asked for. */
  lemma PageRows(table: seq<AuditRow>, f: AuditFilter, cursor: Option<Key>, n: nat)
    requires UniqueIds(table)
    ensures var p := Page(table, f, cursor, n);
            && |p| <= n && Descending(p)
            && forall x :: x in p ==> x in table && x.orgId == f.orgId
  {
    hide Select, SortDesc, Like;
    SelectedSorted(table, f, cursor);
    var all, p := SortDesc(Select(table, f, cursor)), Page(table, f, cursor, n);
    forall x | x in p ensures x in table && x.orgId == f.orgId {
      assert x in all;
    }
  }

  /** A set of rows has one descending order. */
  lemma {:induction false} DescendingUnique(a: seq<AuditRow>, b: seq<AuditRow>)
    requires Descending(a) && Descending(b)
    requires forall x :: x in a <==> x in b
    ensures a == b
  {
    assert a == [] <==> b == [] by {
      if a != [] {
        assert a[0] in b;
      }
      if b != [] {
        assert b[0] in a;
      }
    }
    if a != [] {
      assert a[0] in b && b[0] in a;
      assert a[0] == b[0];
      assert a == [a[0]] + a[1..] && b == [b[0]] + b[1..];
      forall x ensures x in a[1..] ==> x in a && x != a[0]
               ensures x in b[1..] ==> x in b && x != b[0] {
      }
      DescendingUnique(a[1..], b[1..]);
    }
  }

  /** Asking again from the key of row k-1 continues exactly at row k. */
  lemma CursorContinues(table: seq<AuditRow>, f: AuditFilter, cursor: Option<Key>, k: nat)
    requires UniqueIds(table) && 0 < k <= |SortDesc(Select(table, f, cursor))|
    ensures var all := SortDesc(Select(table, f, cursor));
            SortDesc(Select(table, f, Some(KeyOf(all[k - 1])))) == all[k..]
  {
    hide Matches, Select, SortDesc;
    var all := SortDesc(Select(table, f, cursor));
    var next := Some(KeyOf(all[k - 1]));
    SelectedSorted(table, f, cursor);
    SelectedSorted(table, f, next);
    var rest := SortDesc(Select(table, f, next));
    assert all[k - 1] in all;
    forall x | x in all[k..] ensures x in rest {
      assert x in all;
    }
    forall x | x in rest ensures x in all[k..] {
      assert x in all;
      var i :| 0 <= i < |all| && all[i] == x;
      assert i >= k;
      assert all[k..][i - k] == x;
    }
    DescendingUnique(rest, all[k..]);
  }

  // ----- Following the cursor

  lemma {:induction false} SortLength(rs: seq<AuditRow>)
    ensures |SortDesc(rs)| == |rs|
  {
    if rs != [] {
      SortLength(rs[1..]);
      InsertLength(SortDesc(rs[1..]), rs[0]);
    }
  }

  lemma {:induction false} InsertLength(rs: seq<AuditRow>, r: AuditRow)
    ensures |Insert(rs, r)| == |rs| + 1
  {
    if rs != [] {
      InsertLength(rs[1..], r);
    }
  }

  /** A page that is not empty leaves strictly fewer rows below its last key. */
  lemma PageShrinks(table: seq<AuditRow>, f: AuditFilter, cursor: Option<Key>, n: nat)
    requires UniqueIds(table) && n > 0 && Page(table, f, cursor, n) != []
    ensures var p := Page(table, f, cursor, n);
            |Select(table, f, Some(KeyOf(p[|p|-1])))| == |Select(table, f, cursor)| - |p|
  {
    hide Select, SortDesc;
    var p := Page(table, f, cursor, n);
    CursorContinues(table, f, cursor, |p|);
    SortLength(Select(table, f, cursor));
    SortLength(Select(table, f, Some(KeyOf(p[|p|-1]))));
  }

  /** The rows a client collects by following the cursor until a page is empty. */
  ghost function Follow(table: seq<AuditRow>, f: AuditFilter, cursor: Option<Key>, n: nat): seq<AuditRow>
    requires UniqueIds(table) && n > 0
    decreases |Select(table, f, cursor)|
  {
    var p := Page(table, f, cursor, n);
    if p == [] then []
    else
      PageShrinks(table, f, cursor, n);
      p + Follow(table, f, Some(KeyOf(p[|p|-1])), n)
  }

  /** Paging loses nothing and repeats nothing: the pages, put together, are the
      matching rows in order. */
  lemma {:induction false} FollowCollectsAll(table: seq<AuditRow>, f: AuditFilter, cursor: Option<Key>, n: nat)
    requires UniqueIds(table) && n > 0
    ensures Follow(table, f, cursor, n) == SortDesc(Select(table, f, cursor))
    decreases |Select(table, f, cursor)|
  {
    hide Select, SortDesc;
    var p, all := Page(table, f, cursor, n), SortDesc(Select(table, f, cursor));
    if p != [] {
      PageShrinks(table, f, cursor, n);
      CursorContinues(table, f, cursor, |p|);
      FollowCollectsAll(table, f, Some(KeyOf(p[|p|-1])), n);
      assert all == p + all[|p|..];
    }
  }

  // ----- What a prefix filter matches

  predicate Plain(p: string)
  {
    '%' !in p && '_' !in p && '\\' !in p
  }

  /** A string that the pattern p + "%" matches. */
  function Instance(p: string): string
  {
    if p == "" then ""
    else if p[0] == '%' then Instance(p[1..])
    else if p[0] == '_' then "a" + Instance(p[1..])
    else if p[0] == '\\' then (if |p| > 1 then [p[1]] + Instance(p[2..]) else "%")
    else [p[0]] + Instance(p[1..])
  }

  lemma {:induction false} LikeRest(s: string)
    ensures Like(s, "%")
  {
    if s != "" {
      LikeRest(s[1..]);
    } else {
      assert "%"[1..] == "";
    }
  }

  lemma {:induction false} LikePlain(p: string, s: string)
    requires Plain(p)
    ensures Like(s, p + "%") <==> p <= s
  {
    if p == "" {
      assert p + "%" == "%";
      LikeRest(s);
    } else {
      assert (p + "%")[1..] == p[1..] + "%";
      assert p == [p[0]] + p[1..];
      if s != "" {
        LikePlain(p[1..], s[1..]);
        assert s == [s[0]] + s[1..];
      }
    }
  }

  lemma {:induction false} LikeInstance(p: string)
    ensures Like(Instance(p), p + "%")
    ensures |Instance(p)| <= |p|
    ensures Plain(p) <==> p <= Instance(p)
  {
    var q, s := p + "%", Instance(p);
    if p == "" {
      assert q == "%";
      LikeRest("");
    } else if p[0] == '\\' {
      if |p| > 1 {
        LikeInstance(p[2..]);
        assert q[2..] == p[2..] + "%" && s[1..] == Instance(p[2..]);
      } else {
        assert q == "\\%" && s == "%" && q[2..] == "" && s[1..] == "";
      }
      assert p[0] in p;
    } else {
      LikeInstance(p[1..]);
      assert q[1..] == p[1..] + "%";
      assert p == [p[0]] + p[1..];
      if p[0] != '%' {
        assert s[1..] == Instance(p[1..]);
        assert s == [s[0]] + s[1..];
      }
    }
  }

  /** As a prefix filter, p selects the strings that start with p. */
  ghost predicate SelectsByPrefix(p: string)
  {
    forall s: string :: Like(s, p + "%") <==> p <= s
  }

  /** The prefix filters select by prefix exactly when the given prefix has none of the
      pattern characters of LIKE. */
  lemma PrefixFilterIff(p: string)
    ensures SelectsByPrefix(p) <==> Plain(p)
  {
    hide Like, Plain, Instance;
    if Plain(p) {
      forall s: string ensures Like(s, p + "%") <==> p <= s {
        LikePlain(p, s);
      }
    } else {
      LikeInstance(p);
      assert SelectsByPrefix(p) ==> (Like(Instance(p), p + "%") <==> p <= Instance(p));
    }
  }

  // ----- What a pattern matches

  /** A pattern is any run of characters (%), any one (_), or a character that stands for
      itself, which a backslash makes of the next one. */
  datatype Token = Any | One | Literal(c: char)

  function Tokens(p: string): seq<Token>
  {
    if p == "" then []
    else if p[0] == '\\' && |p| > 1 then [Literal(p[1])] + Tokens(p[2..])
    else [if p[0] == '%' then Any else if p[0] == '_' then One else Literal(p[0])] + Tokens(p[1..])
  }

  predicate Fits(s: string, t: Token)
  {
    t.Any? || (t.One? && |s| == 1) || (t.Literal? && s == [t.c])
  }

  function Flat(ws: seq<string>): string
  {
    if ws == [] then "" else ws[0] + Flat(ws[1..])
  }

  /** The string falls into pieces that fit the tokens one by one. */
  ghost predicate FallsInto(s: string, ts: seq<Token>)
  {
    exists ws: seq<string> :: |ws| == |ts| && Flat(ws) == s && forall i :: 0 <= i < |ts| ==> Fits(ws[i], ts[i])
  }

  lemma FallsCons(w: string, s: string, t: Token, ts: seq<Token>)
    requires Fits(w, t) && FallsInto(s, ts)
    ensures FallsInto(w + s, [t] + ts)
  {
    hide Fits;
    var ws: seq<string> :| |ws| == |ts| && Flat(ws) == s && forall i :: 0 <= i < |ts| ==> Fits(ws[i], ts[i]);
    var all := [w] + ws;
    assert all[1..] == ws;
    assert Flat(all) == w + s;
  }

  lemma FallsHead(s: string, t: Token, ts: seq<Token>) returns (k: nat)
    requires FallsInto(s, [t] + ts)
    ensures k <= |s| && Fits(s[..k], t) && FallsInto(s[k..], ts)
  {
    hide Fits;
    var all := [t] + ts;
    var ws: seq<string> :| |ws| == |all| && Flat(ws) == s && forall i :: 0 <= i < |all| ==> Fits(ws[i], all[i]);
    k := |ws[0]|;
    var rest := ws[1..];
    assert s == ws[0] + Flat(rest) && s[..k] == ws[0] && s[k..] == Flat(rest);
    assert Fits(ws[0], all[0]);
    forall i | 0 <= i < |ts| ensures Fits(rest[i], ts[i]) {
      assert rest[i] == ws[i + 1] && ts[i] == all[i + 1];
    }
  }

  lemma FallsNone(s: string)
    ensures FallsInto(s, []) <==> s == ""
  {
    if s == "" {
      assert Flat([]) == s;
    }
  }

  lemma AnySkips(s: string, ts: seq<Token>)
    requires s != ""
    ensures FallsInto(s[1..], [Any] + ts) ==> FallsInto(s, [Any] + ts)
  {
    hide FallsInto;
    if FallsInto(s[1..], [Any] + ts) {
      var k := FallsHead(s[1..], Any, ts);
      assert s == s[..k + 1] + s[1..][k..];
      FallsCons(s[..k + 1], s[1..][k..], Any, ts);
    }
  }

  lemma AnyLeaves(s: string, ts: seq<Token>)
    ensures FallsInto(s, [Any] + ts) <==> FallsInto(s, ts) || (s != "" && FallsInto(s[1..], [Any] + ts))
  {
    hide FallsInto;
    if FallsInto(s, ts) {
      FallsCons("", s, Any, ts);
      assert "" + s == s;
    }
    if s != "" {
      AnySkips(s, ts);
    }
    if FallsInto(s, [Any] + ts) {
      var k := FallsHead(s, Any, ts);
      if k == 0 {
        assert s[0..] == s;
      } else {
        assert s[1..] == s[1..k] + s[k..];
        FallsCons(s[1..k], s[k..], Any, ts);
      }
    }
  }

  lemma OneLeaves(s: string, t: Token, ts: seq<Token>)
    requires !t.Any?
    ensures FallsInto(s, [t] + ts) <==> s != "" && Fits([s[0]], t) && FallsInto(s[1..], ts)
  {
    hide FallsInto;
    if FallsInto(s, [t] + ts) {
      var k := FallsHead(s, t, ts);
      assert k == 1 && s[..1] == [s[0]];
    }
    if s != "" && Fits([s[0]], t) && FallsInto(s[1..], ts) {
      FallsCons([s[0]], s[1..], t, ts);
      assert s == [s[0]] + s[1..];
    }
  }

  /** LIKE matches a pattern that does not end in a lone backslash exactly as its tokens
      say. The filters' patterns end in "%". */
  lemma {:induction false} LikeIs(s: string, p: string)
    requires p == "" || p[|p|-1] != '\\'
    ensures Like(s, p) <==> FallsInto(s, Tokens(p))
    decreases |p| + |s|
  {
    hide FallsInto;
    if p == "" {
      FallsNone(s);
    } else if p[0] == '%' {
      LikeIs(s, p[1..]);
      AnyLeaves(s, Tokens(p[1..]));
      if s != "" {
        LikeIs(s[1..], p);
      }
    } else if p[0] == '\\' {
      OneLeaves(s, Literal(p[1]), Tokens(p[2..]));
      if s != "" {
        LikeIs(s[1..], p[2..]);
      }
    } else {
      OneLeaves(s, Tokens(p)[0], Tokens(p[1..]));
      if s != "" {
        LikeIs(s[1..], p[1..]);
      }
    }
  }

  // ----- What the query returns

  /** As the prefix filter reads it: the string starts with the prefix, where the prefix
      has no pattern character; else it begins as the prefix's tokens say. */
  ghost predicate Begins(s: string, prefix: string)
  {
    if Plain(prefix) then prefix <= s else FallsInto(s, Tokens(prefix + "%"))
  }

  /** What the filter asks of a row, field by field. The last second of the year 9999 stands
      for no upper bound. */
  ghost predicate Asked(f: AuditFilter, r: AuditRow)
  {
    && r.orgId == f.orgId
    && (f.actor != "" ==> r.actor == f.actor)
    && (f.requestId != "" ==> r.requestId == f.requestId)
    && (f.clientReqId != "" ==> r.clientReqId == f.clientReqId)
    && (f.fromTime != ZERO_TIME ==> f.fromTime <= r.createdAt)
    && (f.toTime != ZERO_TIME && f.toTime != 315537897599_000_000_000 ==> r.createdAt <= f.toTime)
    && (f.actionPrefix != "" ==> Begins(r.action, f.actionPrefix))
    && (f.targetPrefix != "" ==> Begins(r.targetId, f.targetPrefix))
  }

  lemma BeginsIs(s: string, prefix: string)
    ensures Like(s, prefix + "%") <==> Begins(s, prefix)
  {
    hide Like, FallsInto;
    if Plain(prefix) {
      LikePlain(prefix, s);
    } else {
      LikeIs(s, prefix + "%");
    }
  }

  lemma MatchesIsAsked(f: AuditFilter, r: AuditRow)
    ensures Matches(f, r) <==> Asked(f, r)
  {
    hide Like, Begins;
    BeginsIs(r.action, f.actionPrefix);
    BeginsIs(r.targetId, f.targetPrefix);
  }

  /** The row lies strictly below the cursor: older, or as old with a smaller id. */
  predicate Under(r: AuditRow, cursor: Option<Key>)
  {
    cursor.Some? ==>
      r.createdAt < cursor.value.createdAt || (r.createdAt == cursor.value.createdAt && r.id < cursor.value.id)
  }

  /** Newest first, and of one instant the larger id first. */
  ghost predicate NewestFirst(rs: seq<AuditRow>)
  {
    forall i, j :: 0 <= i < j < |rs| ==>
      rs[i].createdAt > rs[j].createdAt || (rs[i].createdAt == rs[j].createdAt && rs[i].id > rs[j].id)
  }

  lemma NewestFirstIs(rs: seq<AuditRow>)
    ensures Descending(rs) <==> NewestFirst(rs)
  {
  }

  /** All the rows there are to page through: those that meet the filter below the cursor. */
  lemma SortedIsExact(table: seq<AuditRow>, f: AuditFilter, cursor: Option<Key>)
    requires UniqueIds(table)
    ensures var all := SortDesc(Select(table, f, cursor));
            NewestFirst(all) && forall r :: r in all <==> r in table && Asked(f, r) && Under(r, cursor)
  {
    hide Select, SortDesc, Asked, Matches, NewestFirst, Descending;
    SelectedSorted(table, f, cursor);
    NewestFirstIs(SortDesc(Select(table, f, cursor)));
    forall r ensures Matches(f, r) <==> Asked(f, r) {
      MatchesIsAsked(f, r);
    }
  }

  /** The first n of rows that are newest first. */
  lemma TakeIsExact(all: seq<AuditRow>, n: nat)
    requires NewestFirst(all)
    ensures var p := Take(all, n);
            && |p| <= n && NewestFirst(p) && (forall r :: r in p ==> r in all)
            && (forall r :: r in all && r !in p ==> |p| == n && forall i :: 0 <= i < |p| ==> NewestFirst([p[i], r]))
  {
    var p := Take(all, n);
    forall r | r in all && r !in p ensures |p| == n && forall i :: 0 <= i < |p| ==> NewestFirst([p[i], r]) {
      var k :| 0 <= k < |all| && all[k] == r;
      assert forall i :: 0 <= i < |p| ==> p[i] == all[i] && p[i] in p;
    }
  }

  /** A page is what was asked for: rows of the table that meet the filter below the
      cursor, newest first, as many as the limit allows, and the newest of them. */
  lemma PageIsExact(table: seq<AuditRow>, f: AuditFilter, cursor: Option<Key>, n: nat)
    requires UniqueIds(table)
    ensures var p := Page(table, f, cursor, n);
            && |p| <= n && NewestFirst(p)
            && (forall r :: r in p ==> r in table && Asked(f, r) && Under(r, cursor))
            && (forall r :: r in table && Asked(f, r) && Under(r, cursor) && r !in p ==>
                  |p| == n && forall i :: 0 <= i < |p| ==> NewestFirst([p[i], r]))
  {
    hide Select, SortDesc, Asked, Under, NewestFirst, Take;
    SortedIsExact(table, f, cursor);
    TakeIsExact(SortDesc(Select(table, f, cursor)), n);
  }

  /** Following the cursor collects exactly the rows that meet the filter below where it
      starts, each once and newest first. */
  lemma FollowIsExact(table: seq<AuditRow>, f: AuditFilter, cursor: Option<Key>, n: nat)
    requires UniqueIds(table) && n > 0
    ensures var rs := Follow(table, f, cursor, n);
            && NewestFirst(rs)
            && forall r :: r in rs <==> r in table && Asked(f, r) && Under(r, cursor)
  {
    hide Select, SortDesc, Asked, Under, NewestFirst, Follow;
    FollowCollectsAll(table, f, cursor, n);
    SortedIsExact(table, f, cursor);
  }
}
