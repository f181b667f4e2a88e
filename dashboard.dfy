/**
 * The data logic of the web dashboard (dashboard.py): the text view of the moderation log,
 * the pivot of grouped (date, action, count) rows into chart labels and zero-filled series,
 * and the credential check of the login form. The SQL queries are not modelled: their
 * result rows are the inputs, and whether the database file exists is a flag.
 */
module Dashboard {
  import opened Wrappers
  import opened Text

  // ---------- get_logs_text ----------

  const NO_DATABASE: string := "No database yet."
  const NO_LOGS: string := "No moderation logs yet."

  /** One row of the log query; `time` is `created_at` as strftime renders it. */
  datatype LogRow = LogRow(
    userId: Option<int>,
    actorId: Option<int>,
    action: string,
    reason: Option<string>,
    time: string)

  /** `str(n)` never renders as the placeholder "-" and never holds a line break. */
  lemma IntToStringShape(n: int)
    ensures IntToString(n) != "-" && '\n' !in IntToString(n)
  {
    var m := if n < 0 then -n else n;
    NatToStringRoundTrip(m);
    assert forall c :: c in NatToString(m) ==> IsDigit(c);
  }

  /** `r["user_id"] or "-"`: a missing or zero target shows as "-". */
  function TargetText(u: Option<int>): (t: string)
    ensures t == "-" <==> u.None? || u.value == 0
    ensures '\n' !in t
  {
    if u.None? || u.value == 0 then "-"
    else IntToStringShape(u.value); IntToString(u.value)
  }

  /** `{r['actor_id']}` in an f-string: the number, or "None". */
  function ActorText(a: Option<int>): (t: string)
    ensures '\n' !in t
  {
    if a.None? then "None"
    else IntToStringShape(a.value); IntToString(a.value)
  }

  /** `r["reason"] or "-"`: a missing or empty reason shows as "-". */
  function ReasonText(r: Option<string>): string
  {
    if r.None? || r.value == "" then "-" else r.value
  }

  /** The pieces of the line `get_logs_text` writes for one row. */
  function LogLineParts(r: LogRow): seq<string>
  {
    ["[", r.time, "] action=", r.action, ", target=", TargetText(r.userId),
     ", by=", ActorText(r.actorId), ", reason=", ReasonText(r.reason)]
  }

  /** The line `get_logs_text` writes for one row: its pieces run together. */
  function LogLine(r: LogRow): string
  {
    Join(LogLineParts(r), "")
  }

  /** The log's lines, one per row in row order. */
  function LogLines(rows: seq<LogRow>): (lines: seq<string>)
    ensures |lines| == |rows|
    ensures forall k :: 0 <= k < |rows| ==> lines[k] == LogLine(rows[k])
  {
    seq(|rows|, k requires 0 <= k < |rows| => LogLine(rows[k]))
  }

  /** The `lines.append` loop: one line per row, in row order. */
  method FormatLines(rows: seq<LogRow>) returns (lines: seq<string>)
    ensures lines == LogLines(rows)
  {
    ghost var all := LogLines(rows);
    lines := [];
    var i := 0;
    while i < |rows|
      invariant 0 <= i <= |rows| && lines == all[..i]
    {
      lines := lines + [LogLine(rows[i])];
      i := i + 1;
      assert all[..i] == all[..i-1] + [all[i-1]];
    }
  }

  /** `get_logs_text` after the query: a notice when there is no database or no row,
      otherwise the rows' lines joined by line breaks. */
  method GetLogsText(dbExists: bool, rows: seq<LogRow>) returns (text: string)
    ensures !dbExists ==> text == NO_DATABASE
    ensures dbExists && rows == [] ==> text == NO_LOGS
    ensures dbExists && rows != [] ==> text == Join(LogLines(rows), "\n")
  {
    if !dbExists {
      return NO_DATABASE;
    }
    if rows == [] {
      return NO_LOGS;
    }
    var lines := FormatLines(rows);
    text := Join(lines, "\n");
  }

  /** No free-text field of the row holds a line break. */
  predicate SingleLine(r: LogRow)
  {
    '\n' !in r.time && '\n' !in r.action && (r.reason.Some? ==> '\n' !in r.reason.value)
  }

  lemma LogLineSingle(r: LogRow)
    requires SingleLine(r)
    ensures '\n' !in LogLine(r)
  {
    JoinAvoids(LogLineParts(r), "", '\n');
  }

  /** The text holds exactly one line per row, in row order, when no field holds a line
      break: splitting it at the line breaks gives back the rows' lines. */
  lemma LogsTextLines(rows: seq<LogRow>)
    requires rows != []
    requires forall k :: 0 <= k < |rows| ==> SingleLine(rows[k])
    ensures Split(Join(LogLines(rows), "\n"), '\n') == LogLines(rows)
  {
    forall k | 0 <= k < |rows|
      ensures '\n' !in LogLines(rows)[k]
    {
      LogLineSingle(rows[k]);
    }
    SplitJoin(LogLines(rows), '\n');
  }

  // ---------- sorted(set(...)) ----------

  predicate StrictlyAscending(s: seq<string>)
  {
    forall i, j :: 0 <= i < j < |s| ==> Less(s[i], s[j])
  }

  lemma TailAscending(s: seq<string>)
    requires s != [] && StrictlyAscending(s)
    ensures StrictlyAscending(s[1..])
    ensures forall z :: z in s[1..] ==> Less(s[0], z)
  {
    forall i, j | 0 <= i < j < |s| - 1
      ensures Less(s[1..][i], s[1..][j])
    {
      assert s[1..][i] == s[i + 1] && s[1..][j] == s[j + 1];
    }
  }

  lemma ConsAscending(y: string, t: seq<string>)
    requires StrictlyAscending(t)
    requires forall z :: z in t ==> Less(y, z)
    ensures StrictlyAscending([y] + t)
  {
    var s := [y] + t;
    forall i, j | 0 <= i < j < |s|
      ensures Less(s[i], s[j])
    {
      assert s[j] == t[j - 1];
      if i > 0 {
        assert s[i] == t[i - 1];
      }
    }
  }

  lemma BelowHead(x: string, s: seq<string>)
    requires s != [] && StrictlyAscending(s) && Less(x, s[0])
    ensures forall z :: z in s ==> Less(x, z)
  {
    forall z | z in s
      ensures Less(x, z)
    {
      var j :| 0 <= j < |s| && s[j] == z;
      if j > 0 {
        LessTransitive(x, s[0], z);
      }
    }
  }

  /** Inserts `x` into an ascending sequence if it is not there yet. */
  function Insert(x: string, s: seq<string>): (r: seq<string>)
    requires StrictlyAscending(s)
    ensures StrictlyAscending(r)
    ensures forall y :: y in r <==> y == x || y in s
    decreases |s|
  {
    if s == [] then [x]
    else if x == s[0] then s
    else if Less(x, s[0]) then
      BelowHead(x, s);
      ConsAscending(x, s);
      [x] + s
    else
      LessTotal(x, s[0]);
      TailAscending(s);
      var t := Insert(x, s[1..]);
      ConsAscending(s[0], t);
      assert s == [s[0]] + s[1..];
      [s[0]] + t
  }

  /** Python's `sorted(set(xs))`: the distinct values in ascending order. */
  function SortedDistinct(xs: seq<string>): (r: seq<string>)
    ensures StrictlyAscending(r)
    ensures forall y :: y in r <==> y in xs
    decreases |xs|
  {
    if xs == [] then []
    else
      var init := xs[..|xs| - 1];
      assert xs == init + [xs[|xs| - 1]];
      Insert(xs[|xs| - 1], SortedDistinct(init))
  }

  lemma SameElementsEmpty(a: seq<string>, b: seq<string>)
    requires forall y :: y in a <==> y in b
    ensures a == [] <==> b == []
  {
    if a != [] {
      assert a[0] in b;
    }
    if b != [] {
      assert b[0] in a;
    }
  }

  /** An ascending sequence without repeats is determined by its elements: any such
      sequence with the elements of `xs` is `SortedDistinct(xs)`. */
  lemma {:induction false} AscendingUnique(a: seq<string>, b: seq<string>)
    requires StrictlyAscending(a) && StrictlyAscending(b)
    requires forall y :: y in a <==> y in b
    ensures a == b
    decreases |a|
  {
    SameElementsEmpty(a, b);
    if a != [] {
      TailAscending(a);
      TailAscending(b);
      // Each head is the least element of the common set, so the heads agree.
      assert a[0] in b && b[0] in a;
      assert a == [a[0]] + a[1..] && b == [b[0]] + b[1..];
      LessTotal(a[0], b[0]);
      assert a[0] == b[0];
      forall y
        ensures y in a[1..] <==> y in b[1..]
      {
        if y in a[1..] {
          LessIrreflexive(a[0]);
          assert y in b && y != b[0];
          assert y in b[1..] by { assert b == [b[0]] + b[1..]; }
        }
        if y in b[1..] {
          LessIrreflexive(b[0]);
          assert y in a && y != a[0];
          assert y in a[1..] by { assert a == [a[0]] + a[1..]; }
        }
      }
      AscendingUnique(a[1..], b[1..]);
      assert a == [a[0]] + a[1..] && b == [b[0]] + b[1..];
    }
  }

  // ---------- get_stats ----------

  /** One row of the grouped query: a date (as SQLite's `date()` renders it), an action
      and the number of log entries with that date and action. */
  datatype StatRow = StatRow(date: string, action: string, count: int)

  datatype Series = Series(name: string, chartType: string, smooth: bool, data: seq<int>)

  datatype Stats = Stats(labels: seq<string>, series: seq<Series>)

  function DatesOf(rows: seq<StatRow>): (ds: seq<string>)
    ensures |ds| == |rows| && forall k :: 0 <= k < |rows| ==> ds[k] == rows[k].date
  {
    seq(|rows|, k requires 0 <= k < |rows| => rows[k].date)
  }

  function ActionsOf(rows: seq<StatRow>): (acts: seq<string>)
    ensures |acts| == |rows| && forall k :: 0 <= k < |rows| ==> acts[k] == rows[k].action
  {
    seq(|rows|, k requires 0 <= k < |rows| => rows[k].action)
  }

  /** `GROUP BY d, action`: no two rows share a date and an action. */
  predicate UniquePairs(rows: seq<StatRow>)
  {
    forall i, j :: 0 <= i < j < |rows| ==>
      rows[i].date != rows[j].date || rows[i].action != rows[j].action
  }

  /** The count the fill loop leaves for (d, a): that of the last row with this date and
      action, or 0 when there is none. */
  function LastCount(rows: seq<StatRow>, d: string, a: string): int
    decreases |rows|
  {
    if rows == [] then 0
    else if rows[|rows| - 1].date == d && rows[|rows| - 1].action == a then rows[|rows| - 1].count
    else LastCount(rows[..|rows| - 1], d, a)
  }

  /** With one row per (date, action), the filled count is that row's count. */
  lemma {:induction false} CountOfGroup(rows: seq<StatRow>, k: nat)
    requires UniquePairs(rows) && k < |rows|
    ensures LastCount(rows, rows[k].date, rows[k].action) == rows[k].count
    decreases |rows|
  {
    if k < |rows| - 1 {
      var init := rows[..|rows| - 1];
      assert UniquePairs(init);
      CountOfGroup(init, k);
    }
  }

  /** Without a row for (d, a), the filled count is 0. */
  lemma {:induction false} CountOfAbsent(rows: seq<StatRow>, d: string, a: string)
    requires forall k :: 0 <= k < |rows| ==> rows[k].date != d || rows[k].action != a
    ensures LastCount(rows, d, a) == 0
    decreases |rows|
  {
    if rows != [] {
      CountOfAbsent(rows[..|rows| - 1], d, a);
    }
  }

  /** `{d: i for i, d in enumerate(dates)}`. */
  function DateIndex(dates: seq<string>): (index: map<string, nat>)
    requires StrictlyAscending(dates)
    ensures forall d :: d in index <==> d in dates
    ensures forall i :: 0 <= i < |dates| ==> index[dates[i]] == i
  {
    LessDistinct(dates);
    map i | 0 <= i < |dates| :: dates[i] := i
  }

  lemma LessDistinct(s: seq<string>)
    requires StrictlyAscending(s)
    ensures forall i, j :: 0 <= i < |s| && 0 <= j < |s| && i != j ==> s[i] != s[j]
  {
    forall i, j | 0 <= i < |s| && 0 <= j < |s| && i != j
      ensures s[i] != s[j]
    {
      if i < j { LessIrreflexive(s[i]); } else { LessIrreflexive(s[j]); }
    }
  }

  /** `{action: [0] * len(dates) for action in actions}`. */
  function ZeroSeries(actions: seq<string>, width: nat): (m: map<string, seq<int>>)
    ensures forall a :: a in m <==> a in actions
    ensures forall a :: a in m ==> |m[a]| == width && forall j :: 0 <= j < width ==> m[a][j] == 0
  {
    map a | a in actions :: seq(width, _ => 0)
  }

  /** The fill loop `data_map[a][date_index[d]] = c` over all rows. */
  method FillCounts(rows: seq<StatRow>, dates: seq<string>, actions: seq<string>)
    returns (dataMap: map<string, seq<int>>)
    requires StrictlyAscending(dates)
    requires forall k :: 0 <= k < |rows| ==> rows[k].date in dates && rows[k].action in actions
    ensures forall a :: a in dataMap <==> a in actions
    ensures forall a :: a in dataMap ==> |dataMap[a]| == |dates|
    ensures forall a, j :: a in dataMap && 0 <= j < |dates| ==>
              dataMap[a][j] == LastCount(rows, dates[j], a)
  {
    var dateIndex := DateIndex(dates);
    LessDistinct(dates);
    dataMap := ZeroSeries(actions, |dates|);
    var i := 0;
    while i < |rows|
      invariant 0 <= i <= |rows|
      invariant forall a :: a in dataMap <==> a in actions
      invariant forall a :: a in dataMap ==> |dataMap[a]| == |dates|
      invariant forall a, j :: a in dataMap && 0 <= j < |dates| ==>
                  dataMap[a][j] == LastCount(rows[..i], dates[j], a)
    {
      var r := rows[i];
      var idx := dateIndex[r.date];
      assert rows[..i + 1][..i] == rows[..i];
      dataMap := dataMap[r.action := dataMap[r.action][idx := r.count]];
      i := i + 1;
    }
    assert rows[..i] == rows;
  }

  /** The `series.append` loop, in the (ascending) order of the actions. */
  method BuildSeries(actions: seq<string>, dataMap: map<string, seq<int>>)
    returns (series: seq<Series>)
    requires forall a :: a in actions ==> a in dataMap
    ensures |series| == |actions|
    ensures forall k :: 0 <= k < |actions| ==>
              series[k] == Series(actions[k], "line", true, dataMap[actions[k]])
  {
    series := [];
    var i := 0;
    while i < |actions|
      invariant 0 <= i <= |actions| && |series| == i
      invariant forall k :: 0 <= k < i ==>
                  series[k] == Series(actions[k], "line", true, dataMap[actions[k]])
    {
      series := series + [Series(actions[i], "line", true, dataMap[actions[i]])];
      i := i + 1;
    }
  }

  /** The names of the series, in order. */
  function SeriesNames(series: seq<Series>): (names: seq<string>)
    ensures |names| == |series| && forall k :: 0 <= k < |series| ==> names[k] == series[k].name
  {
    seq(|series|, k requires 0 <= k < |series| => series[k].name)
  }

  /** The labels ascend strictly and are exactly the distinct members of `values`. */
  ghost predicate AscendingValues(labels: seq<string>, values: seq<string>)
  {
    StrictlyAscending(labels) && forall d :: d in labels <==> d in values
  }

  /** The labels the contract allows are exactly `sorted(set(values))`. */
  lemma AscendingValuesDetermined(labels: seq<string>, values: seq<string>)
    requires AscendingValues(labels, values)
    ensures labels == SortedDistinct(values)
  {
    AscendingUnique(labels, SortedDistinct(values));
  }

  /** Every series is a smooth line with one cell per label, holding the filled count of
      its action at that label's date. */
  predicate FilledSeries(rows: seq<StatRow>, labels: seq<string>, series: seq<Series>)
  {
    forall k :: 0 <= k < |series| ==>
      && series[k].chartType == "line" && series[k].smooth
      && |series[k].data| == |labels|
      && forall j :: 0 <= j < |labels| ==> series[k].data[j] == LastCount(rows, labels[j], series[k].name)
  }

  /** `get_stats` after the query: empty without a database or rows; otherwise the
      distinct dates in ascending order as labels, and one line series per distinct
      action, in ascending order, holding for every label the count for that date and
      action, or 0. */
  method GetStats(dbExists: bool, rows: seq<StatRow>) returns (stats: Stats)
    ensures !dbExists || rows == [] ==> stats == Stats([], [])
    ensures dbExists && rows != [] ==>
      && AscendingValues(stats.labels, DatesOf(rows))
      && AscendingValues(SeriesNames(stats.series), ActionsOf(rows))
      && FilledSeries(rows, stats.labels, stats.series)
  {
    if !dbExists || rows == [] {
      return Stats([], []);
    }
    var dates := SortedDistinct(DatesOf(rows));
    var actions := SortedDistinct(ActionsOf(rows));
    forall k | 0 <= k < |rows|
      ensures rows[k].date in dates && rows[k].action in actions
    {
      assert DatesOf(rows)[k] in DatesOf(rows);
      assert ActionsOf(rows)[k] in ActionsOf(rows);
    }
    var dataMap := FillCounts(rows, dates, actions);
    var series := BuildSeries(actions, dataMap);
    assert SeriesNames(series) == actions;
    stats := Stats(dates, series);
  }

  /** The pivot in terms of the query's groups: with one row per (date, action), each
      row's count sits in its action's series at its date's label, and every other cell
      is 0. */
  lemma PivotCells(rows: seq<StatRow>, d: string, a: string)
    requires UniquePairs(rows)
    ensures forall k :: 0 <= k < |rows| && rows[k].date == d && rows[k].action == a ==>
              LastCount(rows, d, a) == rows[k].count
    ensures (forall k :: 0 <= k < |rows| ==> rows[k].date != d || rows[k].action != a) ==>
              LastCount(rows, d, a) == 0
  {
    forall k | 0 <= k < |rows| && rows[k].date == d && rows[k].action == a
      ensures LastCount(rows, d, a) == rows[k].count
    {
      CountOfGroup(rows, k);
    }
    if forall k :: 0 <= k < |rows| ==> rows[k].date != d || rows[k].action != a {
      CountOfAbsent(rows, d, a);
    }
  }

  // ---------- do_login ----------

  const DASHBOARD_USERNAME: string := "admin"
  const DASHBOARD_PASSWORD: string := "DEV"
  const SESSION_COOKIE_NAME: string := "ub_session"
  const SESSION_MAX_AGE: int := 60 * 60 * 24 * 7

  /** The session cookie: the signed username (`serializer.dumps`), kept for a week,
      HTTP-only, SameSite=lax. */
  datatype Cookie = Cookie(name: string, signedUser: string, maxAge: int, httpOnly: bool, sameSite: string)

  /** What the login form's POST answers: a redirect to "/" setting the session cookie,
      or the login page again with an error. */
  datatype LoginResponse = RedirectHome(cookie: Cookie) | LoginFailed

  /** `do_login`: exact, case-sensitive comparison of both fields with the configured
      credentials. */
  function DoLogin(username: string, password: string): (resp: LoginResponse)
  {
    if username == DASHBOARD_USERNAME && password == DASHBOARD_PASSWORD then
      RedirectHome(Cookie(SESSION_COOKIE_NAME, username, SESSION_MAX_AGE, true, "lax"))
    else LoginFailed
  }

  /** A session cookie is issued exactly for the configured pair, it signs that user,
      and it lasts 604800 seconds. */
  lemma LoginExact(username: string, password: string)
    ensures DoLogin(username, password).RedirectHome? <==>
              username == "admin" && password == "DEV"
    ensures DoLogin(username, password).RedirectHome? ==>
              DoLogin(username, password).cookie == Cookie("ub_session", "admin", 604800, true, "lax")
  {
  }

  /** Comparison is case-sensitive and needs both fields. */
  lemma LoginRejects()
    ensures DoLogin("Admin", "DEV") == LoginFailed
    ensures DoLogin("admin", "dev") == LoginFailed
    ensures DoLogin("admin", "") == LoginFailed
    ensures DoLogin("", "DEV") == LoginFailed
  {
    assert "Admin"[0] != "admin"[0];
    assert "dev"[0] != "DEV"[0];
  }
}
