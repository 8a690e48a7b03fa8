/** The CSV export of the audit feed. */
module AuditExport {
  import opened Options
  import opened Audit
  import opened AuditLog

  function Without(s: string, c: char): string
  {
    if s == "" then "" else (if s[0] == c then "" else [s[0]]) + Without(s[1..], c)
  }

  function Spaced(s: string, c: char): string
  {
    if s == "" then "" else (if s[0] == c then " " else [s[0]]) + Spaced(s[1..], c)
  }

  predicate FormulaStart(c: char)
  {
    c == '=' || c == '+' || c == '-' || c == '@' || c == '\t'
  }

  function CsvSafeCell(s: string): string
  {
    var t := Spaced(Spaced(Without(s, '\r'), '\n'), '\t');
    if t != "" && FormulaStart(t[0]) then "'" + t else t
  }

  /** No control character a reader could trip over, no formula. */
  predicate SafeCell(s: string)
  {
    '\r' !in s && '\n' !in s && '\t' !in s && (s != "" ==> !FormulaStart(s[0]))
  }

  lemma {:induction false} WithoutGone(s: string, c: char)
    ensures c !in Without(s, c)
    ensures forall x :: x in Without(s, c) ==> x in s
    ensures c !in s ==> Without(s, c) == s
  {
    if s != "" {
      WithoutGone(s[1..], c);
      assert s == [s[0]] + s[1..];
    }
  }

  lemma {:induction false} SpacedGone(s: string, c: char)
    requires c != ' '
    ensures c !in Spaced(s, c)
    ensures forall x :: x in Spaced(s, c) ==> x in s || x == ' '
    ensures c !in s ==> Spaced(s, c) == s
  {
    if s != "" {
      SpacedGone(s[1..], c);
      assert s == [s[0]] + s[1..];
    }
  }

  /** Every cell comes out safe, and safe cells are left alone (so the defence may be
      applied twice). */
  lemma CsvSafeCellOk(s: string)
    ensures SafeCell(CsvSafeCell(s))
    ensures CsvSafeCell(s) == s <==> SafeCell(s)
  {
    var a := Without(s, '\r');
    var b := Spaced(a, '\n');
    WithoutGone(s, '\r');
    SpacedGone(a, '\n');
    SpacedGone(b, '\t');
  }

  // ----- What is left of a cell

  /** Character by character: carriage returns go, line feeds and tabs become blanks. */
  function Plainly(c: char): string
  {
    if c == '\r' then "" else if c == '\n' || c == '\t' then " " else [c]
  }

  lemma {:induction false} WithoutSnoc(s: string, c: char, x: char)
    ensures Without(s + [x], c) == Without(s, c) + if x == c then "" else [x]
  {
    if s == "" {
      assert s + [x] == [x] && [x][1..] == "";
    } else {
      WithoutSnoc(s[1..], c, x);
      assert (s + [x])[1..] == s[1..] + [x];
    }
  }

  lemma {:induction false} SpacedSnoc(s: string, c: char, x: char)
    ensures Spaced(s + [x], c) == Spaced(s, c) + if x == c then " " else [x]
  {
    if s == "" {
      assert s + [x] == [x] && [x][1..] == "";
    } else {
      SpacedSnoc(s[1..], c, x);
      assert (s + [x])[1..] == s[1..] + [x];
    }
  }

  function Blanked(s: string): string
  {
    Spaced(Spaced(Without(s, '\r'), '\n'), '\t')
  }

  lemma BlankedSnoc(s: string, x: char)
    ensures Blanked("") == "" && Blanked(s + [x]) == Blanked(s) + Plainly(x)
  {
    WithoutSnoc(s, '\r', x);
    var a := Without(s, '\r');
    assert a + "" == a && Spaced(a, '\n') + "" == Spaced(a, '\n');
    if x != '\r' {
      SpacedSnoc(a, '\n', x);
      SpacedSnoc(Spaced(a, '\n'), '\t', if x == '\n' then ' ' else x);
    } else {
      assert Blanked(s) + "" == Blanked(s);
    }
  }

  /** The text with each character as it is written, and nothing else. */
  ghost predicate WrittenAs(s: string, t: string)
  {
    if s == "" then t == ""
    else
      var x := Plainly(s[|s|-1]);
      |x| <= |t| && t[|t| - |x|..] == x && WrittenAs(s[..|s|-1], t[..|t| - |x|])
  }

  lemma {:induction false} BlankedIs(s: string, t: string)
    ensures Blanked(s) == t <==> WrittenAs(s, t)
  {
    hide Blanked, Plainly;
    if s == "" {
      BlankedSnoc("", 'a');
    } else {
      var n := |s| - 1;
      var x := Plainly(s[n]);
      BlankedSnoc(s[..n], s[n]);
      assert s == s[..n] + [s[n]];
      if |x| <= |t| {
        BlankedIs(s[..n], t[..|t| - |x|]);
        assert t == t[..|t| - |x|] + t[|t| - |x|..];
      }
      if Blanked(s) == t {
        assert t[..|t| - |x|] == Blanked(s[..n]) && t[|t| - |x|..] == x;
      }
    }
  }

  /** A cell keeps its text, character by character, behind a quote exactly if it would
      otherwise begin as a formula does. */
  lemma CsvSafeCellIs(s: string)
    ensures var t := CsvSafeCell(s);
            || (WrittenAs(s, t) && (t == "" || (t[0] != '=' && t[0] != '+' && t[0] != '-' && t[0] != '@')))
            || (|t| >= 2 && t[0] == '\'' && WrittenAs(s, t[1..])
                && (t[1] == '=' || t[1] == '+' || t[1] == '-' || t[1] == '@'))
  {
    hide WrittenAs, Without, Spaced;
    var t := Blanked(s);
    BlankedIs(s, t);
    SpacedGone(Spaced(Without(s, '\r'), '\n'), '\t');
    assert ("'" + t)[1..] == t;
  }

  function Digits(n: nat): string
  {
    if n < 10 then [(n as char) + '0'] else Digits(n / 10) + [((n % 10) as char) + '0']
  }

  /** fmt's %d. */
  function Decimal(n: int): string
  {
    if n < 0 then "-" + Digits(-n) else Digits(n)
  }

  function OptTime(t: Option<int>, iso: int -> string): string
  {
    if t.None? then "" else iso(t.value)
  }

  function RowCells(r: AuditRow, iso: int -> string): seq<string>
  {
    [ CsvSafeCell(r.orgId), CsvSafeCell(r.actor), CsvSafeCell(r.action), CsvSafeCell(r.targetId),
      CsvSafeCell(r.detail), CsvSafeCell(r.requestId), CsvSafeCell(r.clientReqId), Decimal(r.count),
      CsvSafeCell(OptTime(r.firstAt, iso)), CsvSafeCell(OptTime(r.lastAt, iso)),
      CsvSafeCell(iso(r.createdAt)), CsvSafeCell(r.resourceFp) ]
  }

  const HEADER: seq<string> :=
    [ "org_id", "actor", "action", "target_id", "detail", "request_id", "client_request_id",
      "count", "first_at", "last_at", "created_at", "resource_fingerprint" ]

  lemma {:induction false} DigitsSafe(n: nat)
    ensures Digits(n) != "" && forall c :: c in Digits(n) ==> '0' <= c <= '9'
  {
    if n >= 10 {
      DigitsSafe(n / 10);
    }
  }

  /** The number that digits stand for. */
  function ValueOf(s: string): int
  {
    if s == "" then 0 else 10 * ValueOf(s[..|s|-1]) + (s[|s|-1] as int - '0' as int)
  }

  /** A count is written as the digits of its value, without leading zeros, behind a minus
      sign if it is negative. */
  lemma DecimalIs(n: int)
    ensures var digits := if n < 0 then Decimal(n)[1..] else Decimal(n);
            && (n < 0 ==> Decimal(n)[0] == '-') && digits != "" && (|digits| > 1 ==> digits[0] != '0')
            && (forall c :: c in digits ==> '0' <= c <= '9') && ValueOf(digits) == if n < 0 then -n else n
  {
    DigitsSafe(if n < 0 then -n else n);
    DigitsAre(if n < 0 then -n else n);
  }

  lemma {:induction false} DigitsAre(n: nat)
    ensures ValueOf(Digits(n)) == n && Digits(n) != "" && (n > 0 ==> Digits(n)[0] != '0')
    ensures |Digits(n)| > 1 ==> n >= 10
  {
    if n >= 10 {
      DigitsAre(n / 10);
      assert Digits(n)[..|Digits(n)| - 1] == Digits(n / 10);
    } else {
      assert Digits(n)[..0] == "";
    }
  }

  /** Which field of a row, made safe, stands under which name of the header. */
  lemma ColumnsAre(r: AuditRow, iso: int -> string)
    ensures |HEADER| == 12 && |RowCells(r, iso)| == 12
    ensures var cells := RowCells(r, iso);
            forall i :: 0 <= i < 12 ==>
              && (HEADER[i] == "org_id" ==> cells[i] == CsvSafeCell(r.orgId))
              && (HEADER[i] == "actor" ==> cells[i] == CsvSafeCell(r.actor))
              && (HEADER[i] == "action" ==> cells[i] == CsvSafeCell(r.action))
              && (HEADER[i] == "target_id" ==> cells[i] == CsvSafeCell(r.targetId))
              && (HEADER[i] == "detail" ==> cells[i] == CsvSafeCell(r.detail))
              && (HEADER[i] == "request_id" ==> cells[i] == CsvSafeCell(r.requestId))
              && (HEADER[i] == "client_request_id" ==> cells[i] == CsvSafeCell(r.clientReqId))
              && (HEADER[i] == "count" ==> cells[i] == Decimal(r.count))
              && (HEADER[i] == "first_at" ==>
                    cells[i] == CsvSafeCell(if r.firstAt.Some? then iso(r.firstAt.value) else ""))
              && (HEADER[i] == "last_at" ==>
                    cells[i] == CsvSafeCell(if r.lastAt.Some? then iso(r.lastAt.value) else ""))
              && (HEADER[i] == "created_at" ==> cells[i] == CsvSafeCell(iso(r.createdAt)))
              && (HEADER[i] == "resource_fingerprint" ==> cells[i] == CsvSafeCell(r.resourceFp))
  {
    hide CsvSafeCell, Decimal;
    forall i, j | 0 <= i < 12 && 0 <= j < 12 && i != j ensures HEADER[i] != HEADER[j] {
      NamesDiffer(i, j);
    }
  }

  /** No two columns have the same name. */
  lemma NamesDiffer(i: nat, j: nat)
    requires i < 12 && j < 12 && i != j
    ensures HEADER[i] != HEADER[j]
  {
    var lengths := [6, 5, 6, 9, 6, 10, 17, 5, 8, 7, 10, 20];
    assert forall k :: 0 <= k < 12 ==> |HEADER[k]| == lengths[k];
    if lengths[i] == lengths[j] {
      assert HEADER[0][0] == 'o' && HEADER[2][0] == 'a' && HEADER[4][0] == 'd';
      assert HEADER[1][0] == 'a' && HEADER[7][0] == 'c' && HEADER[5][0] == 'r' && HEADER[10][0] == 'c';
    }
  }

  ghost predicate SafeLine(cells: seq<string>)
  {
    forall i :: 0 <= i < |cells| ==> SafeCell(cells[i])
  }

  /** A row is free of formulas exactly when its count is not negative: the count column
      alone is written without the defence. */
  lemma RowSafeIff(r: AuditRow, iso: int -> string)
    ensures SafeLine(RowCells(r, iso)) <==> r.count >= 0
  {
    hide CsvSafeCell, SafeCell;
    var cells := RowCells(r, iso);
    forall s: string ensures SafeCell(CsvSafeCell(s)) {
      CsvSafeCellOk(s);
    }
    assert SafeCell(Decimal(r.count)) <==> r.count >= 0 by { DecimalSafe(r.count); }
    assert cells[7] == Decimal(r.count);
  }

  lemma DecimalSafe(n: int)
    ensures SafeCell(Decimal(n)) <==> n >= 0
  {
    if n < 0 {
      DigitsSafe(-n);
    } else {
      DigitsSafe(n);
      assert Digits(n)[0] in Digits(n);
    }
  }

  /** The lines of a complete export. */
  function Lines(rows: seq<AuditRow>, iso: int -> string): seq<seq<string>>
  {
    [HEADER] + seq(|rows|, i requires 0 <= i < |rows| => RowCells(rows[i], iso))
  }

  function Least(a: nat, b: Option<nat>): nat
  {
    if b.Some? && b.value < a then b.value else a
  }

  /** writeAuditCSV. stopsAt: after how many rows reading them fails; failsAt: the line
      whose writing fails. The count returned includes the header line. */
  method WriteAuditCsv(rows: seq<AuditRow>, iso: int -> string, stopsAt: Option<nat>, failsAt: Option<nat>)
    returns (lines: seq<seq<string>>, count: nat, ok: bool)
    ensures |lines| == count && lines <= Lines(rows, iso)
    ensures ok <==> (stopsAt.None? || stopsAt.value > |rows|) && (failsAt.None? || failsAt.value > |rows|)
    ensures ok ==> lines == Lines(rows, iso)
    ensures count == Least(if stopsAt.Some? then Least(|rows| + 1, Some(stopsAt.value + 1)) else |rows| + 1, failsAt)
  {
    hide RowCells;
    lines := [];
    if failsAt == Some(0) {
      return lines, 0, false;
    }
    lines := [HEADER];
    count := 1;
    for i := 0 to |rows|
      invariant count == i + 1 && lines == Lines(rows, iso)[..i + 1]
      invariant (stopsAt.Some? ==> stopsAt.value >= i) && (failsAt.Some? ==> failsAt.value > i)
    {
      if stopsAt == Some(i) {
        return lines, count, false;
      }
      var row := RowCells(rows[i], iso);
      if failsAt == Some(count) {
        return lines, count, false;
      }
      lines := lines + [row];
      count := count + 1;
    }
    ok := stopsAt != Some(|rows|);
  }

  const EXPORT_MAX_ROWS: nat := 100_000
  const EXPORT_SPAN: int := 30 * 24 * 60 * 60 * 1_000_000_000

  /** ExportAudit: the query of the feed under the export's bounds, written as CSV; flushOk:
      whether what is buffered at the end could be written out. */
  method ExportAudit(table: seq<AuditRow>, f: AuditFilter, iso: int -> string,
                     queryOk: bool, stopsAt: Option<nat>, failsAt: Option<nat>, flushOk: bool)
    returns (lines: seq<seq<string>>, count: nat, ok: bool)
    requires UniqueIds(table)
    ensures var limit := if f.limit < 0 then 0 else if f.limit > 100_000 then 100_000 else f.limit;
            var p := Page(table, f, f.cursor, limit);
            && |lines| == count <= EXPORT_MAX_ROWS + 1 && lines <= Lines(p, iso)
            && (ok <==> Validate(f, EXPORT_SPAN) && queryOk && flushOk && (stopsAt.None? || stopsAt.value > |p|)
                        && (failsAt.None? || failsAt.value > |p|))
            && (ok ==> lines == Lines(p, iso))
    ensures !Validate(f, EXPORT_SPAN) || !queryOk ==> !ok && lines == []
    ensures CountsOk(table) ==> forall i :: 0 < i < |lines| ==> SafeLine(lines[i])
  {
    hide Page, RowCells, SafeLine;
    if !Validate(f, EXPORT_SPAN) || !queryOk {
      return [], 0, false;
    }
    var limit := f.limit;
    if limit > EXPORT_MAX_ROWS {
      limit := EXPORT_MAX_ROWS;
    }
    var rows := Page(table, f, f.cursor, limit);
    PageRows(table, f, f.cursor, limit);
    lines, count, ok := WriteAuditCsv(rows, iso, stopsAt, failsAt);
    if ok {
      ok := flushOk;
    }
    if CountsOk(table) {
      LinesSafe(table, rows, iso);
    }
  }

  lemma LinesSafe(table: seq<AuditRow>, rows: seq<AuditRow>, iso: int -> string)
    requires CountsOk(table) && forall r :: r in rows ==> r in table
    ensures forall i :: 0 < i < |Lines(rows, iso)| ==> SafeLine(Lines(rows, iso)[i])
  {
    hide SafeLine, RowCells;
    forall i | 0 < i < |Lines(rows, iso)| ensures SafeLine(Lines(rows, iso)[i]) {
      assert rows[i - 1] in rows;
      RowSafeIff(rows[i - 1], iso);
    }
  }

  /** No writer makes a count negative, so whatever was written to a log, every cell of
      every row exported from it is free of formulas. */
  lemma EveryExportIsSafe(steps: seq<Step>, f: AuditFilter, cursor: Option<Key>, n: nat, iso: int -> string)
    requires UniqueIds(AfterSteps([], steps))
    ensures var lines := Lines(Page(AfterSteps([], steps), f, cursor, n), iso);
            forall i :: 0 < i < |lines| ==> SafeLine(lines[i])
  {
    hide AfterSteps, Page, Lines, SafeLine;
    StepsKeepCounts([], steps);
    PageRows(AfterSteps([], steps), f, cursor, n);
    LinesSafe(AfterSteps([], steps), Page(AfterSteps([], steps), f, cursor, n), iso);
  }
}
