/** What holds of the accounting pipeline over whole runs. */
module BwTheorems {
  import opened Common
  import opened BwLog
  import opened BwState
  import opened BwAccountant
  import opened BwSpan
  import opened BwRuns

  // ---------------------------------------------------------------------
  // Side conditions along a run
  // ---------------------------------------------------------------------

  ghost predicate AllGentle(k: Claim, s: Node, steps: seq<Step>) {
    steps == [] ||
    var n := |steps| - 1;
    AllGentle(k, s, steps[..n]) && Gentle(k, Run(k.p, s, steps[..n]), steps[n])
  }

  ghost predicate AllRightStamp(k: Claim, s: Node, steps: seq<Step>) {
    steps == [] ||
    var n := |steps| - 1;
    AllRightStamp(k, s, steps[..n]) && RightStamp(k, Run(k.p, s, steps[..n]), steps[n])
  }

  /** One enforce call at a time, as the agent's single job loop runs them. */
  ghost predicate Serial(p: Parser, s: Node, steps: seq<Step>) {
    steps == [] ||
    var n := |steps| - 1;
    Serial(p, s, steps[..n]) && (steps[n].EnforceLoad? ==> Run(p, s, steps[..n]).loans == map[])
  }

  lemma {:induction false} RunKeeps(k: Claim, s: Node, steps: seq<Step>)
    requires Inv(k, s) && AllGentle(k, s, steps) && AllRightStamp(k, s, steps)
    ensures Inv(k, Run(k.p, s, steps))
    decreases |steps|
  {
    if steps != [] {
      var n := |steps| - 1;
      RunKeeps(k, s, steps[..n]);
      NextKeeps(k, Run(k.p, s, steps[..n]), steps[n]);
    }
  }

  lemma {:induction false} InitialGood(k: Claim, s: Node)
    requires Initial(s) && k.init == Load(s.disk)
    requires k.exact ==> k.init.month == Some(k.month) || k.init.sites == map[]
    ensures Inv(k, s)
  {
    var d := Load(s.disk);
    if d.log.Some? {
      var c := d.log.value;
      assert s.hist[c.inode][c.offset..c.offset] == "";
      NoLines("");
      assert Worth(k, s.hist, d.month, d.sites, c, c);
    }
  }

  // ---------------------------------------------------------------------
  // Never more than was logged
  // ---------------------------------------------------------------------

  /** Bytes billed to `site` in month `m` by every record ever logged. */
  function Logged(p: Parser, h: History, m: Month, site: string): nat {
    if h == [] then 0
    else Logged(p, h[..|h| - 1], m, site) + BillBytes(p, m, site, h[|h| - 1])
  }

  lemma {:induction false} LoggedGrows(p: Parser, h: History, n: nat, m: Month, site: string)
    requires n <= |h|
    ensures Logged(p, h[..n], m, site) <= Logged(p, h, m, site)
    decreases |h|
  {
    if n < |h| {
      LoggedGrows(p, h[..|h| - 1], n, m, site);
      assert h[..|h| - 1][..n] == h[..n];
    } else {
      assert h[..n] == h;
    }
  }

  /** A stretch of whole records bills at most what its file does. */
  lemma {:induction false} PieceWithin(p: Parser, m: Month, site: string, s: string, x: nat, y: nat)
    requires x <= y && Boundary(s, x) && Boundary(s, y)
    ensures BillBytes(p, m, site, s[x..y]) <= BillBytes(p, m, site, s[..y]) <= BillBytes(p, m, site, s)
    ensures x == 0 ==> s[x..y] == s[..y]
    ensures y == |s| ==> s[..y] == s
  {
    assert s == s[..y] + s[y..] && s[..y] == s[..x] + s[x..y];
    BillBytesAppend(p, m, site, s[..y], s[y..]);
    BillBytesAppend(p, m, site, s[..x], s[x..y]);
  }

  lemma {:induction false} LoggedLast(p: Parser, h: History, g: nat, m: Month, site: string)
    requires g < |h|
    ensures Logged(p, h[..g + 1], m, site) == Logged(p, h[..g], m, site) + BillBytes(p, m, site, h[g])
  {
    assert h[..g + 1][..g] == h[..g];
  }

  /** A span counts no record twice: it is at most all that was logged. */
  lemma {:induction false} SpanWithinLogged(p: Parser, h: History, m: Month, site: string, a: Checkpoint, b: Checkpoint)
    requires WholeRecords(h) && In(h, a) && In(h, b) && Before(a, b)
    ensures Span(p, h, Some(m), site, a, b) <= Logged(p, h[..b.inode + 1], m, site)
    ensures a == Checkpoint(0, 0) && b == End(h, b.inode) ==>
              Span(p, h, Some(m), site, a, b) == Logged(p, h[..b.inode + 1], m, site)
    decreases b.inode
  {
    LoggedLast(p, h, b.inode, m, site);
    if a.inode == b.inode {
      PieceWithin(p, m, site, h[b.inode], a.offset, b.offset);
    } else {
      assert h[b.inode][..0] == "";
      NoLines("");
      PieceWithin(p, m, site, h[b.inode], 0, b.offset);
      EndIn(h, b.inode - 1);
      SpanWithinLogged(p, h, m, site, a, End(h, b.inode - 1));
    }
  }

  lemma {:induction false} BoundAsksNothing(k: Claim, s: Node, steps: seq<Step>)
    requires !k.exact
    ensures AllGentle(k, s, steps)
    decreases |steps|
  {
    if steps != [] { BoundAsksNothing(k, s, steps[..|steps| - 1]); }
  }

  /**
   In every run, with any clocks, rotations, crashes and interrupted saves, the
   totals in memory and on disk are at most what the initial state carried for
   their month plus the bytes of that month's records between a start position
   and the checkpoint, provided each completed save stamps the month of the
   totals it writes.
   */
  lemma {:induction false} NeverOverbilled(p: Parser, s: Node, steps: seq<Step>)
    requires Initial(s) && AllRightStamp(Claim(p, false, 0, Load(s.disk)), s, steps)
    ensures Inv(Claim(p, false, 0, Load(s.disk)), Run(p, s, steps))
  {
    var k := Claim(p, false, 0, Load(s.disk));
    InitialGood(k, s);
    assert AllGentle(k, s, steps) by { BoundAsksNothing(k, s, steps); }
    RunKeeps(k, s, steps);
  }

  /** A process that starts empty or rightly labelled starts good. */
  lemma {:induction false} BootIsGood(s: Node, p: Parser, now: Month)
    requires Initial(s)
    ensures var k := Claim(p, false, 0, Load(s.disk)); Layout(s) && GoodMem(k, Next(p, s, Boot(now)))
  {
    var k := Claim(p, false, 0, Load(s.disk));
    InitialGood(k, s);
    GoodBoot(k, s.hist, s.starts, Load(s.disk), now);
  }

  /**
   Within one process no condition on stamps is needed: the accumulator holds
   only bytes of records stamped in its own month, however the clock moves, and
   the enforcement sum adds them only in that month.
   */
  lemma {:induction false} InProcessBound(k: Claim, s: Node, steps: seq<Step>)
    requires !k.exact && Layout(s) && GoodMem(k, s)
    requires forall i :: 0 <= i < |steps| ==> !steps[i].Boot?
    ensures Layout(Run(k.p, s, steps)) && GoodMem(k, Run(k.p, s, steps))
    decreases |steps|
  {
    if steps != [] {
      var n := |steps| - 1;
      InProcessBound(k, s, steps[..n]);
      NextKeepsMem(k, Run(k.p, s, steps[..n]), steps[n]);
    }
  }

  /**
   So through the whole life of the process: only bytes of records stamped in
   its own month, beyond what it restored for that month.
   */
  lemma {:induction false} ProcessBound(s: Node, p: Parser, now: Month, steps: seq<Step>)
    requires Initial(s) && forall i :: 0 <= i < |steps| ==> !steps[i].Boot?
    ensures var k, t := Claim(p, false, 0, Load(s.disk)), Run(p, Next(p, s, Boot(now)), steps);
            Layout(t) && GoodMem(k, t)
  {
    BootIsGood(s, p, now);
    InProcessBound(Claim(p, false, 0, Load(s.disk)), Next(p, s, Boot(now)), steps);
  }

  lemma {:induction false} SpanOfLogged(p: Parser, h: History, m: Month, site: string, a: Checkpoint, b: Checkpoint)
    requires WholeRecords(h) && In(h, a) && In(h, b) && Before(a, b)
    ensures Span(p, h, Some(m), site, a, b) <= Logged(p, h, m, site)
  {
    SpanWithinLogged(p, h, m, site, a, b);
    LoggedGrows(p, h, b.inode + 1, m, site);
  }

  lemma {:induction false} WorthWithinLogged(k: Claim, h: History, m: Month, sites: Totals, a: Checkpoint,
                                             c: Checkpoint, site: string)
    requires !k.exact && WholeRecords(h) && Worth(k, h, Some(m), sites, a, c)
    ensures Get(sites, site) <= Seed(k, Some(m), site) + Logged(k.p, h, m, site)
  {
    assert Agrees(k, Get(sites, site), Seed(k, Some(m), site) + Span(k.p, h, Some(m), site, a, c));
    SpanOfLogged(k.p, h, m, site, a, c);
  }

  lemma {:induction false} EnforcementSumBound(k: Claim, s: Node, site: string, now: Month, rx: nat, tx: nat)
    requires !k.exact && Layout(s) && GoodMem(k, s) && s.mem.Some?
    ensures PeriodBytes(s.mem.value, site, now, rx, tx)
            <= rx + tx + Seed(k, Some(now), site) + Logged(k.p, s.hist, now, site)
  {
    var a := s.mem.value;
    if site in a.http && a.month == Some(now) && a.cp.Some? {
      var start :| start in s.starts && Worth(k, s.hist, a.month, a.http, start, a.cp.value);
      WorthWithinLogged(k, s.hist, now, a.http, start, a.cp.value, site);
    } else if site in a.http && a.month == Some(now) {
      assert Agrees(k, Get(a.http, site), Seed(k, a.month, site));
    }
  }

  // ---------------------------------------------------------------------
  // Exactly what was logged
  // ---------------------------------------------------------------------

  /**
   In a single-month run in which every tally finds its checkpoint's generation
   under the current path or `.1`, and nothing is appended to a generation
   already drained, every pair equals the initial totals plus the bytes of
   exactly the records between a start position and its checkpoint. This holds
   under every interleaving with the enforce path's load and later save.
   */
  lemma {:induction false} ExactInOneMonth(p: Parser, m: Month, s: Node, steps: seq<Step>)
    requires Initial(s) && (Load(s.disk).month == Some(m) || Load(s.disk).sites == map[])
    requires AllGentle(Claim(p, true, m, Load(s.disk)), s, steps)
    requires AllRightStamp(Claim(p, true, m, Load(s.disk)), s, steps)
    ensures Inv(Claim(p, true, m, Load(s.disk)), Run(p, s, steps))
  {
    var k := Claim(p, true, m, Load(s.disk));
    InitialGood(k, s);
    RunKeeps(k, s, steps);
  }

  /** Every checkpoint, wherever kept, exists; no tally ever seeks to the end again. */
  ghost predicate AllHaveLog(s: Node) {
    && (s.mem.Some? ==> s.mem.value.cp.Some?)
    && Load(s.disk).log.Some?
    && forall id :: id in s.loans ==> s.loans[id].log.Some?
  }

  lemma {:induction false} StartTally(p: Parser, t: Node, st: Step)
    requires AllHaveLog(t) && Uncorrupted(t.disk) && st.Tally? && t.mem.Some?
    ensures var t' := AfterTally(p, t, st); AllHaveLog(t') && Uncorrupted(t'.disk) && t'.starts == t.starts
  {
    DiskAfterTally(p, t, st);
    assert TallyOf(p, t.mem.value, View(t, st), st.now).0.cp.Some?;
  }

  lemma {:induction false} StartStep(p: Parser, t: Node, st: Step)
    requires AllHaveLog(t) && Uncorrupted(t.disk)
    ensures var t' := Next(p, t, st); AllHaveLog(t') && Uncorrupted(t'.disk) && t'.starts == t.starts
  {
    if st.Tally? && t.mem.Some? {
      StartTally(p, t, st);
    } else if st.EnforceSave? && st.id in t.loans {
      DiskAfterEnforce(t, st);
    }
  }

  lemma {:induction false} StartIsFixed(p: Parser, s: Node, steps: seq<Step>)
    requires Initial(s) && Load(s.disk).log.Some?
    ensures AllHaveLog(Run(p, s, steps)) && Uncorrupted(Run(p, s, steps).disk)
    ensures Run(p, s, steps).starts == {Load(s.disk).log.value}
    decreases |steps|
  {
    if steps != [] {
      var n := |steps| - 1;
      StartIsFixed(p, s, steps[..n]);
      StartStep(p, Run(p, s, steps[..n]), steps[n]);
    }
  }

  /** The site's total is what `l` held plus the bytes of exactly the records between its checkpoint and this one. */
  ghost predicate BillsExactly(p: Parser, m: Month, h: History, site: string, l: State, sites: Totals,
                               cp: Option<Checkpoint>)
    requires WholeRecords(h) && l.log.Some?
  {
    && cp.Some? && In(h, l.log.value) && In(h, cp.value) && Before(l.log.value, cp.value)
    && Get(sites, site) == Get(l.sites, site) + Span(p, h, Some(m), site, l.log.value, cp.value)
  }

  lemma {:induction false} GoodIsExact(k: Claim, h: History, starts: set<Checkpoint>, tag: Option<Month>, sites: Totals,
                                       log: Option<Checkpoint>, site: string)
    requires WholeRecords(h) && k.exact && k.init.log.Some? && starts == {k.init.log.value}
    requires Good(k, h, starts, tag, sites, log) && log.Some?
    ensures BillsExactly(k.p, k.month, h, site, k.init, sites, log)
  {
    var a :| a in starts && Worth(k, h, tag, sites, a, log.value);
    assert Agrees(k, Get(sites, site), Seed(k, tag, site) + Span(k.p, h, Some(k.month), site, a, log.value));
  }

  /** The billed total of a site, read off the durable state or the memory, record for record. */
  lemma {:induction false} DurableTotalIsExact(p: Parser, m: Month, s: Node, steps: seq<Step>, site: string)
    requires Initial(s) && (Load(s.disk).month == Some(m) || Load(s.disk).sites == map[])
    requires Load(s.disk).log.Some?
    requires AllGentle(Claim(p, true, m, Load(s.disk)), s, steps)
    requires AllRightStamp(Claim(p, true, m, Load(s.disk)), s, steps)
    ensures Layout(Run(p, s, steps))
    ensures var t, l := Run(p, s, steps), Load(s.disk);
            && BillsExactly(p, m, t.hist, site, l, Load(t.disk).sites, Load(t.disk).log)
            && (t.mem.Some? ==> BillsExactly(p, m, t.hist, site, l, t.mem.value.http, t.mem.value.cp))
  {
    ExactInOneMonth(p, m, s, steps);
    StartIsFixed(p, s, steps);
    var k := Claim(p, true, m, Load(s.disk));
    var t := Run(p, s, steps);
    var d := Load(t.disk);
    GoodIsExact(k, t.hist, t.starts, d.month, d.sites, d.log, site);
    if t.mem.Some? {
      GoodIsExact(k, t.hist, t.starts, t.mem.value.month, t.mem.value.http, t.mem.value.cp, site);
    }
  }

  /** So the enforcement sum of that month is exact too. */
  lemma {:induction false} EnforcementSumIsExact(p: Parser, m: Month, h: History, site: string, l: State, a: Acc,
                                                 rx: nat, tx: nat)
    requires WholeRecords(h) && l.log.Some? && a.month == Some(m) && BillsExactly(p, m, h, site, l, a.http, a.cp)
    ensures PeriodBytes(a, site, m, rx, tx) ==
            rx + tx + Get(l.sites, site) + Span(p, h, Some(m), site, l.log.value, a.cp.value)
  {
    PeriodBytesIs(a, site, m, rx, tx);
  }

  /** What one tally over a rotated log passes over without reading. */
  function Skipped(p: Parser, s: Node, st: Step, m: Month, site: string, c: Checkpoint): nat
    requires Layout(s) && st.Tally? && In(s.hist, c) && s.cur.Some? && c.inode < s.cur.value
  {
    var from := if Predecessor(View(s, st), c.inode).Some? then End(s.hist, c.inode) else c;
    EndIn(s.hist, c.inode);
    assert s.hist[s.cur.value][..0] == "";
    NoLines("");
    Span(p, s.hist, Some(m), site, from, Checkpoint(s.cur.value, 0))
  }

  /** Spans add up at any record boundary between their ends. */
  lemma {:induction false} SpanAdds(p: Parser, h: History, m: Month, site: string, a: Checkpoint, b: Checkpoint,
                                    c: Checkpoint)
    requires WholeRecords(h) && In(h, a) && In(h, b) && In(h, c) && Before(a, b) && Before(b, c)
    ensures Span(p, h, Some(m), site, a, c) == Span(p, h, Some(m), site, a, b) + Span(p, h, Some(m), site, b, c)
    decreases c.inode
  {
    if b.inode == c.inode {
      SpanExtend(p, h, Some(m), site, a, b, c);
    } else {
      EndIn(h, c.inode - 1);
      SpanAdds(p, h, m, site, a, b, End(h, c.inode - 1));
    }
  }

  /**
   With readable files, a tally over a rotated log adds exactly the records up
   to its new checkpoint if and only if no billable record was passed over.
   */
  lemma {:induction false} RotatedTallyExactIff(p: Parser, s: Node, st: Step, site: string)
    requires Layout(s) && st.Tally? && st.curReads && st.oneReads && st.twoReads
    requires s.mem.Some? && s.mem.value.cp.Some? && s.mem.value.month == Some(st.now) && s.mem.value.partial == ""
    requires In(s.hist, s.mem.value.cp.value) && s.cur.Some? && s.mem.value.cp.value.inode < s.cur.value
    ensures var a, c := s.mem.value, s.mem.value.cp.value;
            var r := TallyOf(p, a, View(s, st), st.now).0;
            && r.cp == Some(End(s.hist, s.cur.value)) && In(s.hist, r.cp.value)
            && (Get(r.http, site) == Get(a.http, site) + Span(p, s.hist, Some(st.now), site, c, r.cp.value)
                <==> Skipped(p, s, st, st.now, site, c) == 0)
  {
    var h, a, c, g, m := s.hist, s.mem.value, s.mem.value.cp.value, s.cur.value, st.now;
    var v := View(s, st);
    var prev := Predecessor(v, c.inode);
    var z := Checkpoint(g, 0);
    assert h[g][..0] == "";
    NoLines("");
    EndIn(h, c.inode);
    EndIn(h, g);
    var d := if prev.Some? then ReadInto(p, a, prev.value) else a;
    if prev.Some? {
      ReadToEnd(p, h, a, prev.value);
      var more := h[c.inode][c.offset..|h[c.inode]|];
      FoldBills(p, m, a.http, Lines(more), site);
      SpanAdds(p, h, m, site, c, End(h, c.inode), z);
    }
    var d0 := d.(partial := "", cp := Some(z));
    ReadToEnd(p, h, d0, v.cur.value);
    FoldBills(p, m, d0.http, Lines(h[g][0..|h[g]|]), site);
    SpanExtend(p, h, Some(m), site, c, z, End(h, g));
  }

  // ---------------------------------------------------------------------
  // Two writers, one file
  // ---------------------------------------------------------------------

  ghost predicate PairsKnown(s: Node) {
    && (Load(s.disk).sites, Load(s.disk).log) in s.pairs
    && forall id :: id in s.loans ==> (s.loans[id].sites, s.loans[id].log) in s.pairs
  }

  lemma {:induction false} PairsTally(p: Parser, t: Node, st: Step)
    requires PairsKnown(t) && Uncorrupted(t.disk) && st.Tally? && t.mem.Some?
    ensures PairsKnown(AfterTally(p, t, st)) && Uncorrupted(AfterTally(p, t, st).disk)
  {
    DiskAfterTally(p, t, st);
    assert TallyOf(p, t.mem.value, View(t, st), st.now).0.month == Some(st.now);
  }

  lemma {:induction false} PairsStep(p: Parser, t: Node, st: Step)
    requires PairsKnown(t) && Uncorrupted(t.disk)
    ensures PairsKnown(Next(p, t, st)) && Uncorrupted(Next(p, t, st).disk)
  {
    if st.Tally? && t.mem.Some? {
      PairsTally(p, t, st);
    } else if st.EnforceSave? && st.id in t.loans {
      DiskAfterEnforce(t, st);
    }
  }

  /**
   Under every interleaving the (Sites, Log) on disk is one the accountant
   committed together, or the one the run began with.
   */
  lemma {:induction false} PairsWrittenTogether(p: Parser, s: Node, steps: seq<Step>)
    requires Initial(s)
    ensures PairsKnown(Run(p, s, steps)) && Uncorrupted(Run(p, s, steps).disk)
    decreases |steps|
  {
    if steps != [] {
      var n := |steps| - 1;
      PairsWrittenTogether(p, s, steps[..n]);
      PairsStep(p, Run(p, s, steps[..n]), steps[n]);
    }
  }

  /** The chain stamps of all enforce saves that completed, in order. */
  ghost function Stamps(p: Parser, s: Node, steps: seq<Step>): map<string, Month> {
    if steps == [] then Load(s.disk).chains
    else
      var n := |steps| - 1;
      var st := steps[n];
      if st.EnforceSave? && st.run.Complete? && st.id in Run(p, s, steps[..n]).loans
      then Stamps(p, s, steps[..n])[st.chain := st.month]
      else Stamps(p, s, steps[..n])
  }

  lemma {:induction false} OnlyLoan(m: map<nat, State>, id: nat)
    requires |m| <= 1 && id in m
    ensures m - {id} == map[]
  {
    assert |m.Keys - {id}| == |m.Keys| - 1;
    assert (m - {id}).Keys == m.Keys - {id};
  }

  lemma {:induction false} FirstLoan(m: map<nat, State>, id: nat, l: State)
    requires m == map[]
    ensures |m[id := l]| == 1 && m[id := l].Keys == {id}
  {
    assert m[id := l].Keys == {id};
  }

  /** These are the stamps on disk, and those of the one enforce call under way. */
  ghost predicate Stamped(t: Node, chains: map<string, Month>) {
    && Uncorrupted(t.disk) && Load(t.disk).chains == chains
    && |t.loans| <= 1 && forall id :: id in t.loans ==> t.loans[id].chains == chains
  }

  /** Steps outside the two writers leave the state file alone, and enforce calls too unless the process dies. */
  lemma {:induction false} OtherStep(p: Parser, t: Node, st: Step)
    requires !(st.Tally? && t.mem.Some?) && !st.EnforceLoad? && !(st.EnforceSave? && st.id in t.loans)
    requires !(st.EnforceDrop? && st.id in t.loans)
    ensures var t' := Next(p, t, st); t'.disk == t.disk && (t'.loans == t.loans || t'.loans == map[])
  {
    if st.EnforceDrop? { assert t.loans - {st.id} == t.loans; }
  }

  lemma {:induction false} StampsLoad(p: Parser, t: Node, st: Step, chains: map<string, Month>)
    requires Stamped(t, chains) && st.EnforceLoad? && t.loans == map[]
    ensures Stamped(Next(p, t, st), chains)
  {
    FirstLoan(t.loans, st.id, Load(t.disk));
  }

  lemma {:induction false} StampsSave(t: Node, st: Step, chains: map<string, Month>)
    requires Uncorrupted(t.disk) && Load(t.disk).chains == chains && |t.loans| <= 1
    requires st.EnforceSave? && st.id in t.loans && t.loans[st.id].chains == chains
    ensures var t' := AfterEnforceSave(t, st);
            && Uncorrupted(t'.disk) && t'.loans == map[]
            && Load(t'.disk).chains == if st.run.Complete? then chains[st.chain := st.month] else chains
  {
    DiskAfterEnforce(t, st);
    OnlyLoan(t.loans, st.id);
  }

  lemma {:induction false} StampsTally(p: Parser, t: Node, st: Step)
    requires Uncorrupted(t.disk) && st.Tally? && t.mem.Some?
    ensures var t' := AfterTally(p, t, st);
            Uncorrupted(t'.disk) && Load(t'.disk).chains == Load(t.disk).chains && t'.loans == t.loans
  {
    DiskAfterTally(p, t, st);
  }

  lemma {:induction false} StampsStep(p: Parser, t: Node, st: Step, chains: map<string, Month>)
    requires Stamped(t, chains) && (st.EnforceLoad? ==> t.loans == map[])
    ensures var saved := st.EnforceSave? && st.run.Complete? && st.id in t.loans;
            Stamped(Next(p, t, st), if saved then chains[st.chain := st.month] else chains)
  {
    if st.Tally? && t.mem.Some? {
      StampsTally(p, t, st);
    } else if st.EnforceSave? && st.id in t.loans {
      StampsSave(t, st, chains);
    } else if st.EnforceDrop? && st.id in t.loans {
      OnlyLoan(t.loans, st.id);
    } else if st.EnforceLoad? {
      StampsLoad(p, t, st, chains);
    } else {
      OtherStep(p, t, st);
    }
  }

  /** With one enforce call at a time no stamp is ever lost or invented. */
  lemma {:induction false} StampsSurvive(p: Parser, s: Node, steps: seq<Step>)
    requires Initial(s) && Serial(p, s, steps)
    ensures Stamped(Run(p, s, steps), Stamps(p, s, steps))
    decreases |steps|
  {
    if steps != [] {
      var n := |steps| - 1;
      StampsSurvive(p, s, steps[..n]);
      StampsStep(p, Run(p, s, steps[..n]), steps[n], Stamps(p, s, steps[..n]));
    }
  }
}
