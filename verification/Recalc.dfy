/**
 The batch recount: scan every retained log generation, aggregate one site's
 records per day, and report the days in order. It is the simple form that
 the incremental accountant refines.
 */
module Recalc {
  import opened Common
  import opened BwLog
  import opened BwState
  import opened BwAccountant
  import opened BwSpan
  import opened BwRuns
  import opened BwTheorems

  // ---------------------------------------------------------------------
  // Scanner tokens
  // ---------------------------------------------------------------------

  /** The scanner's buffer limit; a longer line ends the scan of its file. */
  const MAX_TOKEN := 1024 * 1024

  function DropCR(s: string): string {
    if s != "" && s[|s| - 1] == '\r' then s[..|s| - 1] else s
  }

  /** What a line scanner yields, a last line without newline included. */
  function Tokens(s: string): seq<string>
    decreases |s|
  {
    if s == "" then []
    else
      var k := FirstNewline(s);
      if k >= MAX_TOKEN then []
      else if k == |s| then [DropCR(s)]
      else [DropCR(s[..k])] + Tokens(s[k + 1..])
  }

  predicate ShortLines(s: string) {
    forall l :: l in Lines(s) ==> |l| <= MAX_TOKEN
  }

  /** A directory entry the glob matched; compressed ones hold their expanded bytes. */
  datatype Entry = Entry(stats: bool, opens: bool, bytes: string)

  function AllTokens(es: seq<Entry>): seq<string> {
    if es == [] then []
    else
      var e := es[|es| - 1];
      AllTokens(es[..|es| - 1]) + (if e.stats && e.opens then Tokens(e.bytes) else [])
  }

  // ---------------------------------------------------------------------
  // Amounts
  // ---------------------------------------------------------------------

  predicate NotAfter(a: Day, b: Day) {
    a.month < b.month || (a.month == b.month && a.dom <= b.dom)
  }

  predicate Earlier(a: Day, b: Day) {
    NotAfter(a, b) && a != b
  }

  /** The record of a token, when it is the site's. */
  function Mine(p: Parser, site: string, tok: string): Option<Record> {
    var r := ParseRecord(p, tok);
    if r.Some? && r.value.site == site then r else None
  }

  /** Bytes of the site's records on the given days. */
  ghost function DaysBill(p: Parser, site: string, days: iset<Day>, toks: seq<string>): nat {
    if toks == [] then 0
    else
      var r := Mine(p, site, toks[|toks| - 1]);
      DaysBill(p, site, days, toks[..|toks| - 1])
      + (if r.Some? && r.value.day in days then r.value.req + r.value.resp else 0)
  }

  lemma {:induction false} DaysBillConcat(p: Parser, site: string, days: iset<Day>, a: seq<string>, b: seq<string>)
    ensures DaysBill(p, site, days, a + b) == DaysBill(p, site, days, a) + DaysBill(p, site, days, b)
    decreases |b|
  {
    if b == [] {
      assert a + b == a;
    } else {
      DaysBillConcat(p, site, days, a, b[..|b| - 1]);
      assert (a + b)[..|a + b| - 1] == a + b[..|b| - 1];
    }
  }

  /** Days are counted apart: disjoint day sets add up. */
  lemma {:induction false} DaysBillSplit(p: Parser, site: string, x: iset<Day>, y: iset<Day>, toks: seq<string>)
    requires x !! y
    ensures DaysBill(p, site, x + y, toks) == DaysBill(p, site, x, toks) + DaysBill(p, site, y, toks)
    decreases |toks|
  {
    if toks != [] { DaysBillSplit(p, site, x, y, toks[..|toks| - 1]); }
  }

  /** Only days on which the site has a record matter. */
  lemma {:induction false} DaysBillSupport(p: Parser, site: string, x: iset<Day>, y: iset<Day>, toks: seq<string>)
    requires forall i :: 0 <= i < |toks| ==>
               var r := Mine(p, site, toks[i]); r.Some? ==> (r.value.day in x <==> r.value.day in y)
    ensures DaysBill(p, site, x, toks) == DaysBill(p, site, y, toks)
    decreases |toks|
  {
    if toks != [] {
      var n := |toks| - 1;
      assert forall i :: 0 <= i < n ==> toks[..n][i] == toks[i];
      DaysBillSupport(p, site, x, y, toks[..n]);
      assert toks[n] == toks[|toks| - 1];
    }
  }

  ghost function Between(from: Day, to: Day): iset<Day> {
    iset d: Day | NotAfter(from, d) && NotAfter(d, to)
  }

  // ---------------------------------------------------------------------
  // The scan
  // ---------------------------------------------------------------------

  datatype RecalcDay = RecalcDay(date: Day, req: nat, resp: nat, total: nat)

  function TotalOf(ds: seq<RecalcDay>): nat {
    if ds == [] then 0 else TotalOf(ds[..|ds| - 1]) + ds[|ds| - 1].total
  }

  ghost predicate Ascending(ds: seq<RecalcDay>) {
    forall i, j :: 0 <= i < j < |ds| ==> Earlier(ds[i].date, ds[j].date)
  }

  /** The same records with their request bytes only. */
  function Requests(p: Parser): Parser {
    (l: string) => match p(l) case Some(r) => Some(r.(resp := 0)) case None => None
  }

  /** The per-day table agrees with the tokens read so far. */
  ghost predicate Tallied(p: Parser, site: string, from: Day, to: Day, table: map<Day, RecalcDay>, toks: seq<string>) {
    && (forall d :: d in table ==>
          && table[d].date == d && NotAfter(from, d) && NotAfter(d, to)
          && table[d].total == DaysBill(p, site, iset{d}, toks)
          && table[d].req == DaysBill(Requests(p), site, iset{d}, toks)
          && table[d].total == table[d].req + table[d].resp)
    && (forall i :: 0 <= i < |toks| ==>
          var r := Mine(p, site, toks[i]);
          r.Some? && NotAfter(from, r.value.day) && NotAfter(r.value.day, to) ==> r.value.day in table)
  }

  /** The same records, each of one byte. */
  function Counting(p: Parser): Parser {
    (l: string) => match p(l) case Some(r) => Some(r.(req := 1, resp := 0)) case None => None
  }

  /** One token's effect on the table. */
  function Added(p: Parser, site: string, from: Day, to: Day, table: map<Day, RecalcDay>,
                 tok: string): map<Day, RecalcDay> {
    var r := Mine(p, site, tok);
    if r.None? || !NotAfter(from, r.value.day) || !NotAfter(r.value.day, to) then table
    else
      var day := r.value.day;
      var d := if day in table then table[day] else RecalcDay(day, 0, 0, 0);
      table[day := RecalcDay(day, d.req + r.value.req, d.resp + r.value.resp, d.total + (r.value.req + r.value.resp))]
  }

  lemma {:induction false} NothingOnDay(p: Parser, site: string, d: Day, toks: seq<string>)
    requires forall i :: 0 <= i < |toks| ==> var r := Mine(p, site, toks[i]); r.Some? ==> r.value.day != d
    ensures DaysBill(p, site, iset{d}, toks) == 0
    decreases |toks|
  {
    if toks != [] {
      var n := |toks| - 1;
      assert forall i :: 0 <= i < n ==> toks[..n][i] == toks[i];
      NothingOnDay(p, site, d, toks[..n]);
    }
  }

  lemma {:induction false} DaysBillNext(p: Parser, site: string, days: iset<Day>, toks: seq<string>, tok: string)
    ensures var r := Mine(p, site, tok);
            DaysBill(p, site, days, toks + [tok]) ==
            DaysBill(p, site, days, toks) + (if r.Some? && r.value.day in days then r.value.req + r.value.resp else 0)
  {
    assert (toks + [tok])[..|toks|] == toks;
  }

  lemma {:induction false} DayNext(p: Parser, site: string, d: Day, toks: seq<string>, tok: string)
    ensures var r := Mine(p, site, tok);
            var mine := r.Some? && r.value.day == d;
            && DaysBill(p, site, iset{d}, toks + [tok])
               == DaysBill(p, site, iset{d}, toks) + (if mine then r.value.req + r.value.resp else 0)
            && DaysBill(Requests(p), site, iset{d}, toks + [tok])
               == DaysBill(Requests(p), site, iset{d}, toks) + (if mine then r.value.req else 0)
  {
    DaysBillNext(p, site, iset{d}, toks, tok);
    DaysBillNext(Requests(p), site, iset{d}, toks, tok);
  }

  lemma {:induction false} NothingYet(p: Parser, site: string, d: Day, toks: seq<string>)
    requires forall i :: 0 <= i < |toks| ==> var r := Mine(p, site, toks[i]); r.Some? ==> r.value.day != d
    ensures DaysBill(p, site, iset{d}, toks) == 0 == DaysBill(Requests(p), site, iset{d}, toks)
  {
    NothingOnDay(p, site, d, toks);
    assert forall i :: 0 <= i < |toks| ==> Mine(p, site, toks[i]).Some? == Mine(Requests(p), site, toks[i]).Some?;
    NothingOnDay(Requests(p), site, d, toks);
  }

  lemma {:induction false} AddedTallies(p: Parser, site: string, from: Day, to: Day, table: map<Day, RecalcDay>,
                                        toks: seq<string>, tok: string)
    requires Tallied(p, site, from, to, table, toks)
    ensures Tallied(p, site, from, to, Added(p, site, from, to, table, tok), toks + [tok])
  {
    var table' := Added(p, site, from, to, table, tok);
    forall d | d in table'
      ensures table'[d].total == DaysBill(p, site, iset{d}, toks + [tok])
      ensures table'[d].req == DaysBill(Requests(p), site, iset{d}, toks + [tok])
    {
      DayNext(p, site, d, toks, tok);
      if d !in table { NothingYet(p, site, d, toks); }
    }
    Appended(toks, tok);
  }

  predicate DistinctDates(ds: seq<RecalcDay>) {
    forall x, y :: 0 <= x < y < |ds| ==> ds[x].date != ds[y].date
  }

  /** Ordered up to `i`, were it not for the entry now at `j`. */
  ghost predicate Sinking(ds: seq<RecalcDay>, j: nat, i: nat)
    requires j <= i < |ds|
  {
    && (forall x, y :: 0 <= x < y <= i && x != j && y != j ==> Earlier(ds[x].date, ds[y].date))
    && (forall y :: j < y <= i ==> Earlier(ds[j].date, ds[y].date))
  }

  lemma {:induction false} SinkOne(ds: seq<RecalcDay>, j: nat, i: nat)
    requires 0 < j <= i < |ds| && DistinctDates(ds) && Sinking(ds, j, i)
    requires Earlier(ds[j].date, ds[j - 1].date)
    ensures var t := ds[j := ds[j - 1]][j - 1 := ds[j]];
            && DistinctDates(t) && Sinking(t, j - 1, i) && multiset(t) == multiset(ds)
  {
    var t := ds[j := ds[j - 1]][j - 1 := ds[j]];
    forall y | j - 1 < y <= i
      ensures Earlier(t[j - 1].date, t[y].date)
    {
      if y > j { assert t[y] == ds[y]; }
    }
    forall x, y | 0 <= x < y <= i && x != j - 1 && y != j - 1
      ensures Earlier(t[x].date, t[y].date)
    {
      var x', y' := if x == j then j - 1 else x, if y == j then j - 1 else y;
      assert t[x] == ds[x'] && t[y] == ds[y'];
      assert x' < y';
    }
  }

  lemma {:induction false} SunkIsAscending(ds: seq<RecalcDay>, j: nat, i: nat)
    requires j <= i < |ds| && DistinctDates(ds) && Sinking(ds, j, i)
    requires j > 0 ==> !Earlier(ds[j].date, ds[j - 1].date)
    ensures Ascending(ds[..i + 1])
  {
    forall x | 0 <= x < j
      ensures Earlier(ds[x].date, ds[j].date)
    {
      assert Earlier(ds[j - 1].date, ds[j].date);
      if x < j - 1 { assert Earlier(ds[x].date, ds[j - 1].date); }
    }
  }

  /** Sorting step: sink entry `i` into the ordered prefix by adjacent swaps. */
  method SinkDay(a: array<RecalcDay>, i: nat)
    requires i < a.Length && DistinctDates(a[..]) && Ascending(a[..i])
    modifies a
    ensures multiset(a[..]) == old(multiset(a[..]))
    ensures DistinctDates(a[..]) && Ascending(a[..i + 1])
  {
    var j := i;
    assert Sinking(a[..], j, i) by {
      assert forall x :: 0 <= x < i ==> a[..i][x] == a[..][x];
    }
    while j > 0 && Earlier(a[j].date, a[j - 1].date)
      invariant 0 <= j <= i
      invariant multiset(a[..]) == old(multiset(a[..]))
      invariant DistinctDates(a[..]) && Sinking(a[..], j, i)
    {
      ghost var ds := a[..];
      SinkOne(ds, j, i);
      a[j], a[j - 1] := a[j - 1], a[j];
      assert a[..] == ds[j := ds[j - 1]][j - 1 := ds[j]];
      j := j - 1;
    }
    SunkIsAscending(a[..], j, i);
    assert a[..i + 1] == a[..][..i + 1];
  }

  method SortDays(a: array<RecalcDay>)
    requires DistinctDates(a[..])
    modifies a
    ensures multiset(a[..]) == old(multiset(a[..])) && Ascending(a[..])
  {
    if a.Length == 0 {
      return;
    }
    var i := 1;
    while i < a.Length
      invariant 1 <= i <= a.Length
      invariant multiset(a[..]) == old(multiset(a[..]))
      invariant DistinctDates(a[..]) && Ascending(a[..i])
    {
      SinkDay(a, i);
      i := i + 1;
    }
    assert a[..i] == a[..];
  }

  lemma {:induction false} TotalOfConcat(a: seq<RecalcDay>, b: seq<RecalcDay>)
    ensures TotalOf(a + b) == TotalOf(a) + TotalOf(b)
    decreases |b|
  {
    if b == [] {
      assert a + b == a;
    } else {
      TotalOfConcat(a, b[..|b| - 1]);
      assert (a + b)[..|a + b| - 1] == a + b[..|b| - 1];
    }
  }

  lemma {:induction false} WithoutOne(init: seq<RecalcDay>, l: seq<RecalcDay>, r: seq<RecalcDay>, x: RecalcDay)
    requires multiset(init + [x]) == multiset(l + [x] + r)
    ensures multiset(init) == multiset(l + r)
  {
    assert multiset(init) == multiset(init + [x]) - multiset{x};
    assert multiset(l + r) == multiset(l + [x] + r) - multiset{x};
  }

  lemma {:induction false} TotalWithout(l: seq<RecalcDay>, r: seq<RecalcDay>, x: RecalcDay)
    ensures TotalOf(l + [x] + r) == TotalOf(l + r) + x.total
  {
    TotalOfConcat(l, r);
    TotalOfConcat(l, [x]);
    TotalOfConcat(l + [x], r);
    assert [x][..0] == [];
  }

  /** The total does not depend on the order of the days. */
  lemma {:induction false} TotalOfPermuted(a: seq<RecalcDay>, b: seq<RecalcDay>)
    requires multiset(a) == multiset(b)
    ensures TotalOf(a) == TotalOf(b)
    decreases |a|
  {
    if a == [] {
      assert |multiset(b)| == 0;
      assert b == [];
    } else {
      var x := a[|a| - 1];
      assert x in multiset(b);
      var i :| 0 <= i < |b| && b[i] == x;
      var init, l, r := a[..|a| - 1], b[..i], b[i + 1..];
      assert a == init + [x] && b == l + [x] + r;
      WithoutOne(init, l, r, x);
      TotalOfPermuted(init, l + r);
      TotalWithout(l, r, x);
    }
  }

  lemma {:induction false} AllTokensNext(es: seq<Entry>, n: nat)
    requires n < |es|
    ensures AllTokens(es[..n + 1]) ==
            AllTokens(es[..n]) + (if es[n].stats && es[n].opens then Tokens(es[n].bytes) else [])
  {
    assert es[..n + 1][..n] == es[..n];
  }

  datatype Outcome = Outcome(days: seq<RecalcDay>, total: nat, files: nat, matched: nat)

  /** A reported day: in range, with exactly the site's bytes of that day, split as logged. */
  ghost predicate Reported(p: Parser, site: string, from: Day, to: Day, toks: seq<string>, d: RecalcDay) {
    && NotAfter(from, d.date) && NotAfter(d.date, to)
    && d.total == DaysBill(p, site, iset{d.date}, toks)
    && d.req == DaysBill(Requests(p), site, iset{d.date}, toks) && d.resp == d.total - d.req
  }

  /** The inner loop: one file's tokens into the table. */
  method ScanFile(p: Parser, site: string, from: Day, to: Day, table0: map<Day, RecalcDay>, matched0: nat,
                  ghost toks: seq<string>, bytes: string)
    returns (table: map<Day, RecalcDay>, matched: nat)
    requires Tallied(p, site, from, to, table0, toks)
    requires matched0 == DaysBill(Counting(p), site, Between(from, to), toks)
    ensures Tallied(p, site, from, to, table, toks + Tokens(bytes))
    ensures matched == DaysBill(Counting(p), site, Between(from, to), toks + Tokens(bytes))
  {
    table, matched := table0, matched0;
    var ts := Tokens(bytes);
    NothingAdded(toks);
    for j := 0 to |ts|
      invariant Tallied(p, site, from, to, table, toks + ts[..j])
      invariant matched == DaysBill(Counting(p), site, Between(from, to), toks + ts[..j])
    {
      AddedTallies(p, site, from, to, table, toks + ts[..j], ts[j]);
      DaysBillNext(Counting(p), site, Between(from, to), toks + ts[..j], ts[j]);
      TakeNext(ts, j);
      Assoc(toks, ts[..j], [ts[j]]);
      table := Added(p, site, from, to, table, ts[j]);
      var r := Mine(p, site, ts[j]);
      if r.Some? && NotAfter(from, r.value.day) && NotAfter(r.value.day, to) {
        matched := matched + 1;
      }
    }
    assert ts[..|ts|] == ts;
  }

  /** The outer loop: every file that can be read. */
  method ScanFiles(p: Parser, es: seq<Entry>, site: string, from: Day, to: Day)
    returns (table: map<Day, RecalcDay>, matched: nat, files: nat)
    ensures Tallied(p, site, from, to, table, AllTokens(es))
    ensures matched == DaysBill(Counting(p), site, Between(from, to), AllTokens(es))
    ensures files == |set i | 0 <= i < |es| && es[i].stats|
  {
    table, matched, files := map[], 0, 0;
    ghost var toks: seq<string> := [];
    ghost var counted: set<int> := {};
    for n := 0 to |es|
      invariant toks == AllTokens(es[..n])
      invariant Tallied(p, site, from, to, table, toks)
      invariant matched == DaysBill(Counting(p), site, Between(from, to), toks)
      invariant counted == (set i | 0 <= i < n && es[i].stats) && files == |counted|
    {
      var e := es[n];
      AllTokensNext(es, n);
      if e.stats {
        assert n !in counted;
        files := files + 1;
        counted := counted + {n};
        if e.opens {
          table, matched := ScanFile(p, site, from, to, table, matched, toks, e.bytes);
          toks := toks + Tokens(e.bytes);
        }
      }
    }
    assert es[..|es|] == es;
  }

  /** The same days in date order. */
  method Ordered(days: seq<RecalcDay>) returns (out: seq<RecalcDay>)
    requires DistinctDates(days)
    ensures Ascending(out) && multiset(out) == multiset(days) && TotalOf(out) == TotalOf(days)
    ensures forall x :: x in out ==> x in days
  {
    var a := new RecalcDay[|days|](i requires 0 <= i < |days| => days[i]);
    assert a[..] == days;
    SortDays(a);
    out := a[..];
    TotalOfPermuted(days, out);
    forall x | x in out
      ensures x in days
    {
      assert x in multiset(out);
    }
  }

  lemma {:induction false} NoDays(p: Parser, site: string, toks: seq<string>)
    ensures DaysBill(p, site, iset{}, toks) == 0
    decreases |toks|
  {
    if toks != [] { NoDays(p, site, toks[..|toks| - 1]); }
  }

  /** The table's entries in whatever order the map yields them, and their sum. */
  method Listed(p: Parser, site: string, from: Day, to: Day, table: map<Day, RecalcDay>, ghost toks: seq<string>)
    returns (days: seq<RecalcDay>, total: nat)
    requires Tallied(p, site, from, to, table, toks)
    ensures forall x :: x in days ==> x.date in table && table[x.date] == x
    ensures DistinctDates(days)
    ensures total == TotalOf(days) == DaysBill(p, site, Between(from, to), toks)
  {
    days, total := [], 0;
    var left := table.Keys;
    ghost var done: iset<Day> := iset{};
    NoDays(p, site, toks);
    while left != {}
      invariant left <= table.Keys
      invariant done == iset d | d in table && d !in left
      invariant forall x :: x in days ==> x.date in done && x.date in table && table[x.date] == x
      invariant DistinctDates(days)
      invariant total == TotalOf(days) == DaysBill(p, site, done, toks)
      decreases |left|
    {
      var d :| d in left;
      DaysBillSplit(p, site, done, iset{d}, toks);
      assert done + iset{d} == iset x | x in table && x !in left - {d};
      Appended(days, table[d]);
      days := days + [table[d]];
      total := total + table[d].total;
      left := left - {d};
      done := done + iset{d};
    }
    DaysBillSupport(p, site, done, Between(from, to), toks);
  }

  /** recalcScan: all files, per-day sums, then the ordered report. */
  method RecalcScan(p: Parser, es: seq<Entry>, site: string, from: Day, to: Day) returns (out: Outcome)
    ensures Ascending(out.days) && forall d :: d in out.days ==> Reported(p, site, from, to, AllTokens(es), d)
    ensures out.total == TotalOf(out.days) == DaysBill(p, site, Between(from, to), AllTokens(es))
    ensures out.files == |set i | 0 <= i < |es| && es[i].stats|
    ensures out.matched == DaysBill(Counting(p), site, Between(from, to), AllTokens(es))
  {
    var table, matched, files := ScanFiles(p, es, site, from, to);
    var days, total := Listed(p, site, from, to, table, AllTokens(es));
    var sorted := Ordered(days);
    out := Outcome(sorted, total, files, matched);
    forall d | d in sorted
      ensures Reported(p, site, from, to, AllTokens(es), d)
    {
      assert d.date in table && table[d.date] == d;
    }
  }

  // ---------------------------------------------------------------------
  // The accountant refines the scan
  // ---------------------------------------------------------------------

  /** All generations retained and readable. */
  function Retained(h: History): seq<Entry> {
    seq(|h|, i requires 0 <= i < |h| => Entry(true, true, h[i]))
  }

  /** Dates come from a calendar. */
  ghost predicate CalendarDays(p: Parser) {
    forall l: string :: p(l).Some? ==> 1 <= p(l).value.day.dom <= 31
  }

  ghost function MonthDays(m: Month): iset<Day> {
    Between(Day(m, 1), Day(m, 31))
  }

  /** A line and its token carry the same record. */
  lemma {:induction false} TokenIsLine(p: Parser, m: Month, site: string, line: string)
    requires CalendarDays(p) && WholeLine(line)
    ensures DaysBill(p, site, MonthDays(m), [DropCR(line[..|line| - 1])]) == Bill(p, m, site, [line])
  {
    var tok := DropCR(line[..|line| - 1]);
    assert TrimCRLF(line) == TrimCRLF(line[..|line| - 1]) == TrimCRLF(tok);
    assert [line][..0] == [] && [tok][..0] == [];
    assert DaysBill(p, site, MonthDays(m), [tok]) ==
           var r := Mine(p, site, tok);
           if r.Some? && r.value.day in MonthDays(m) then r.value.req + r.value.resp else 0;
    assert Bill(p, m, site, [line]) == LineBytes(p, m, site, line);
  }

  lemma {:induction false} TokensBill(p: Parser, m: Month, site: string, s: string)
    requires CalendarDays(p) && Tail(s) == "" && ShortLines(s)
    ensures DaysBill(p, site, MonthDays(m), Tokens(s)) == BillBytes(p, m, site, s)
    decreases |s|
  {
    if s == "" {
      NoLines(s);
    } else {
      var k := FirstNewline(s);
      var line, rest := s[..k + 1], s[k + 1..];
      assert Lines(s) == [line] + Lines(rest);
      assert line in Lines(s);
      assert forall l :: l in Lines(rest) ==> l in Lines(s);
      assert line[..|line| - 1] == s[..k];
      TokenIsLine(p, m, site, line);
      TokensBill(p, m, site, rest);
      BillConcat(p, m, site, [line], Lines(rest));
      DaysBillConcat(p, site, MonthDays(m), [DropCR(s[..k])], Tokens(rest));
    }
  }

  lemma {:induction false} RetainedLast(h: History, n: nat)
    requires n + 1 == |h|
    ensures AllTokens(Retained(h)) == AllTokens(Retained(h[..n])) + Tokens(h[n])
  {
    var es := Retained(h);
    assert es[..n] == Retained(h[..n]);
    assert es[|es| - 1] == Entry(true, true, h[n]);
  }

  /** Over retained whole records the scan of a month finds all that was logged in it. */
  lemma {:induction false} BatchIsLogged(p: Parser, h: History, m: Month, site: string)
    requires CalendarDays(p) && WholeRecords(h) && forall g :: 0 <= g < |h| ==> ShortLines(h[g])
    ensures DaysBill(p, site, MonthDays(m), AllTokens(Retained(h))) == Logged(p, h, m, site)
    decreases |h|
  {
    if h != [] {
      var n := |h| - 1;
      var h' := h[..n];
      BatchIsLogged(p, h', m, site);
      RetainedLast(h, n);
      TokensBill(p, m, site, h[n]);
      DaysBillConcat(p, site, MonthDays(m), AllTokens(Retained(h')), Tokens(h[n]));
    }
  }

  /** From zero totals, the live month total never exceeds the recount of that month. */
  lemma {:induction false} IncrementalWithinBatch(p: Parser, s: Node, steps: seq<Step>, m: Month, site: string)
    requires Initial(s) && Load(s.disk).sites == map[]
    requires AllRightStamp(Claim(p, false, 0, Load(s.disk)), s, steps)
    requires CalendarDays(p)
    requires var t := Run(p, s, steps);
             && t.mem.Some? && t.mem.value.month == Some(m)
             && forall g :: 0 <= g < |t.hist| ==> ShortLines(t.hist[g])
    ensures var t := Run(p, s, steps);
            Get(t.mem.value.http, site) <= DaysBill(p, site, MonthDays(m), AllTokens(Retained(t.hist)))
  {
    var k := Claim(p, false, 0, Load(s.disk));
    var t := Run(p, s, steps);
    NeverOverbilled(p, s, steps);
    EnforcementSumBound(k, t, site, m, 0, 0);
    BatchIsLogged(p, t.hist, m, site);
  }

  /** The running accountant stands at the end of a log of ordinary lines. */
  ghost predicate AllRead(t: Node) {
    && t.mem.Some? && t.hist != [] && t.mem.value.cp == Some(End(t.hist, |t.hist| - 1))
    && forall g :: 0 <= g < |t.hist| ==> ShortLines(t.hist[g])
  }

  lemma {:induction false} WholeSpanIsLogged(p: Parser, h: History, m: Month, site: string)
    requires WholeRecords(h) && h != []
    requires var z := End(h, |h| - 1); In(h, Checkpoint(0, 0)) && In(h, z) && Before(Checkpoint(0, 0), z)
    ensures Span(p, h, Some(m), site, Checkpoint(0, 0), End(h, |h| - 1)) == Logged(p, h, m, site)
  {
    SpanWithinLogged(p, h, m, site, Checkpoint(0, 0), End(h, |h| - 1));
    assert h[..|h| - 1 + 1] == h;
  }

  /** What lies between the start and the end of a log is what the scan finds in it. */
  lemma {:induction false} WholeSpanIsBatch(p: Parser, h: History, m: Month, site: string)
    requires CalendarDays(p) && WholeRecords(h) && h != []
    requires forall g :: 0 <= g < |h| ==> ShortLines(h[g])
    requires var z := End(h, |h| - 1); In(h, Checkpoint(0, 0)) && In(h, z) && Before(Checkpoint(0, 0), z)
    ensures Span(p, h, Some(m), site, Checkpoint(0, 0), End(h, |h| - 1))
            == DaysBill(p, site, MonthDays(m), AllTokens(Retained(h)))
  {
    WholeSpanIsLogged(p, h, m, site);
    BatchIsLogged(p, h, m, site);
  }

  lemma {:induction false} EndTotalIsBatch(p: Parser, m: Month, t: Node, site: string, l: State)
    requires Layout(t) && CalendarDays(p) && AllRead(t)
    requires l.sites == map[] && l.log == Some(Checkpoint(0, 0))
    requires BillsExactly(p, m, t.hist, site, l, t.mem.value.http, t.mem.value.cp)
    ensures Get(t.mem.value.http, site) == DaysBill(p, site, MonthDays(m), AllTokens(Retained(t.hist)))
  {
    WholeSpanIsBatch(p, t.hist, m, site);
  }

  /**
   Started on an empty log, in a single-month run with no generation skipped or
   appended to after it was drained, the two agree once all is read.
   */
  lemma {:induction false} IncrementalEqualsBatch(p: Parser, m: Month, s: Node, steps: seq<Step>, site: string)
    requires Initial(s) && Load(s.disk).sites == map[] && Load(s.disk).log == Some(Checkpoint(0, 0))
    requires AllGentle(Claim(p, true, m, Load(s.disk)), s, steps)
    requires AllRightStamp(Claim(p, true, m, Load(s.disk)), s, steps)
    requires CalendarDays(p)
    requires AllRead(Run(p, s, steps))
    ensures var t := Run(p, s, steps);
            Get(t.mem.value.http, site) == DaysBill(p, site, MonthDays(m), AllTokens(Retained(t.hist)))
  {
    DurableTotalIsExact(p, m, s, steps, site);
    EndTotalIsBatch(p, m, Run(p, s, steps), site, Load(s.disk));
  }

  /** A line is read, and the scan goes on behind it, exactly when it fits in a mebibyte with its newline. */
  lemma {:induction false} ScanReadsOnIff(line: string, rest: string)
    requires WholeLine(line)
    ensures Tokens(line + rest) == [DropCR(line[..|line| - 1])] + Tokens(rest) <==> |line| <= 1024 * 1024
  {
    var s := line + rest;
    FirstNewlineUnique(s, |line| - 1);
    assert s[..|line| - 1] == line[..|line| - 1] && s[|line|..] == rest;
  }

  /** The range is inclusive and runs over the calendar. */
  lemma {:induction false} RangeIs(from: Day, to: Day, d: Day)
    ensures d in Between(from, to) <==>
            && (from.month < d.month || (from.month == d.month && from.dom <= d.dom))
            && (d.month < to.month || (d.month == to.month && d.dom <= to.dom))
    ensures Earlier(from, to) <==> from.month < to.month || (from.month == to.month && from.dom < to.dom)
  {
  }

  /** An over-long line hides the rest of its file from the recount. */
  lemma {:induction false} LongLineEndsScan(line: string, rest: string)
    requires WholeLine(line) && |line| > MAX_TOKEN
    ensures Tokens(line + rest) == []
  {
    FirstNewlineUnique(line + rest, |line| - 1);
  }
}
