/**
 Whole runs of the accounting pipeline: nginx appending records, logrotate,
 the accountant with its failing persists, crashes and restarts, and the
 enforce path that loads the shared state, unlocks, and saves it later.
 */
module BwRuns {
  import opened Common
  import opened BwLog
  import opened BwState
  import opened BwAccountant
  import opened BwSpan

  /**
   The node. `cur`, `one` and `two` say which generation each path names; no
   accountant runs while `mem` is None; `loans` are enforce calls between load
   and save. `starts` and `pairs` only record history: where a first tally
   sought to, and each (Sites, Log) the accountant committed.
   */
  datatype Node = Node(
    hist: History,
    cur: Option<nat>, one: Option<nat>, two: Option<nat>,
    mem: Option<Acc>,
    disk: FS,
    loans: map<nat, State>,
    starts: set<Checkpoint>,
    pairs: set<(Totals, Option<Checkpoint>)>)

  datatype Step =
    | Append(bytes: string)
    | LateAppend(bytes: string)
    | RenameLog(keepTwo: bool)
    | CreateLog
    | Tally(now: Month, stamp: Month, curReads: bool, oneReads: bool, twoReads: bool, run: SaveRun)
    | Crash
    | Boot(now: Month)
    | EnforceLoad(id: nat)
    | EnforceDrop(id: nat)
    | EnforceSave(id: nat, chain: string, month: Month, stamp: Month, run: SaveRun)

  function FileAt(h: History, g: Option<nat>, readable: bool): Option<File> {
    if g.Some? && g.value < |h| then Some(File(g.value, h[g.value], readable)) else None
  }

  function View(s: Node, st: Step): LogView
    requires st.Tally?
  {
    LogView(FileAt(s.hist, s.cur, st.curReads), FileAt(s.hist, s.one, st.oneReads), FileAt(s.hist, s.two, st.twoReads))
  }

  /** Restore is only called when there is something to restore. */
  function BootAcc(st: State, now: Month): Acc {
    if st.sites == map[] && st.log.None? then FRESH else Restored(st, now)
  }

  function Grown(h: History, g: Option<nat>, bytes: string): History {
    if g.Some? && g.value < |h| && Tail(bytes) == "" then h[g.value := h[g.value] + bytes] else h
  }

  function AfterTally(p: Parser, s: Node, st: Step): Node
    requires st.Tally? && s.mem.Some?
  {
    var (a, persists) := TallyOf(p, s.mem.value, View(s, st), st.now);
    var s1 := s.(mem := Some(a),
                 starts := if s.mem.value.cp.None? && a.cp.Some? then s.starts + {a.cp.value} else s.starts);
    if !persists then s1
    else
      s1.(disk := Save(s.disk, Persisted(Load(s.disk), a, st.now).(month := Some(st.stamp)), st.run),
          pairs := if st.run.Complete? then s.pairs + {(a.http, a.cp)} else s.pairs)
  }

  function AfterEnforceSave(s: Node, st: Step): Node
    requires st.EnforceSave? && st.id in s.loans
  {
    var l := s.loans[st.id];
    s.(disk := Save(s.disk, State(Some(st.stamp), l.chains[st.chain := st.month], l.sites, l.log), st.run),
       loans := s.loans - {st.id})
  }

  /** One step; a step that is not possible in this state changes nothing. */
  function Next(p: Parser, s: Node, st: Step): Node {
    match st
    case Append(b) => s.(hist := Grown(s.hist, s.cur, b))
    case LateAppend(b) => s.(hist := Grown(s.hist, s.one, b))
    case RenameLog(keep) =>
      if s.cur.None? then s else s.(cur := None, one := s.cur, two := if keep then s.one else None)
    case CreateLog =>
      if s.cur.Some? then s else s.(hist := s.hist + [""], cur := Some(|s.hist|))
    case Tally(_, _, _, _, _, _) => if s.mem.None? then s else AfterTally(p, s, st)
    case Crash => s.(mem := None, loans := map[])
    case Boot(now) => if s.mem.Some? then s else s.(mem := Some(BootAcc(Load(s.disk), now)))
    case EnforceLoad(id) => s.(loans := s.loans[id := Load(s.disk)])
    case EnforceDrop(id) => s.(loans := s.loans - {id})
    case EnforceSave(id, _, _, _, _) => if id in s.loans then AfterEnforceSave(s, st) else s
  }

  function Run(p: Parser, s: Node, steps: seq<Step>): Node {
    if steps == [] then s else Next(p, Run(p, s, steps[..|steps| - 1]), steps[|steps| - 1])
  }

  /** What renaming and creating files keeps true of the paths. */
  predicate Layout(s: Node) {
    && WholeRecords(s.hist)
    && (s.cur.Some? ==> s.cur.value == |s.hist| - 1)
    && (s.one.Some? ==> s.one.value < |s.hist|)
    && (s.cur.Some? && s.one.Some? ==> s.one.value == |s.hist| - 2)
    && (s.cur.None? && s.one.Some? ==> s.one.value == |s.hist| - 1)
  }

  /** A node whose agent is down, with any log and any readable state file. */
  predicate Initial(s: Node) {
    && s.mem.None? && s.loans == map[]
    && Layout(s) && Uncorrupted(s.disk)
    && (Load(s.disk).log.Some? ==> In(s.hist, Load(s.disk).log.value))
    && s.starts == (if Load(s.disk).log.Some? then {Load(s.disk).log.value} else {})
    && s.pairs == {(Load(s.disk).sites, Load(s.disk).log)}
  }

  // ---------------------------------------------------------------------
  // What a (Sites, Log) pair is worth
  // ---------------------------------------------------------------------

  /**
   The claim being carried: bounded by the bytes of the pair's own month
   (`exact` false), or equal to those of one fixed month (`exact` true).
   */
  datatype Claim = Claim(p: Parser, exact: bool, month: Month, init: State)

  function MonthOf(k: Claim, tag: Option<Month>): Option<Month> {
    if k.exact then Some(k.month) else tag
  }

  /** Bytes the initial state already carried for that month. */
  function Seed(k: Claim, tag: Option<Month>, site: string): nat {
    if k.exact || k.init.month == tag then Get(k.init.sites, site) else 0
  }

  predicate Agrees(k: Claim, x: nat, y: nat) {
    if k.exact then x == y else x <= y
  }

  ghost predicate Worth(k: Claim, h: History, tag: Option<Month>, sites: Totals, a: Checkpoint, c: Checkpoint)
    requires WholeRecords(h)
  {
    && In(h, a) && In(h, c) && Before(a, c)
    && forall site :: Agrees(k, Get(sites, site), Seed(k, tag, site) + Span(k.p, h, MonthOf(k, tag), site, a, c))
  }

  /** A pair is good when some start position accounts for its totals. */
  ghost predicate Good(k: Claim, h: History, starts: set<Checkpoint>, tag: Option<Month>, sites: Totals,
                       log: Option<Checkpoint>)
    requires WholeRecords(h)
  {
    && (k.exact ==> tag == Some(k.month) || sites == map[])
    && match log
       case None => forall site :: Agrees(k, Get(sites, site), Seed(k, tag, site))
       case Some(c) => exists a :: a in starts && Worth(k, h, tag, sites, a, c)
  }

  ghost predicate GoodState(k: Claim, s: Node, st: State)
    requires WholeRecords(s.hist)
  {
    Good(k, s.hist, s.starts, st.month, st.sites, st.log)
  }

  ghost predicate GoodMem(k: Claim, s: Node)
    requires WholeRecords(s.hist)
  {
    s.mem.Some? ==>
      && s.mem.value.partial == ""
      && Good(k, s.hist, s.starts, s.mem.value.month, s.mem.value.http, s.mem.value.cp)
  }

  /** The run invariant: every pair in memory, on disk or on loan is good. */
  ghost predicate Inv(k: Claim, s: Node) {
    && Layout(s) && Uncorrupted(s.disk)
    && GoodMem(k, s)
    && GoodState(k, s, Load(s.disk))
    && forall id :: id in s.loans ==> GoodState(k, s, s.loans[id])
  }

  // ---------------------------------------------------------------------
  // How pairs change
  // ---------------------------------------------------------------------

  lemma {:induction false} WorthGrows(k: Claim, h: History, h': History, tag: Option<Month>, sites: Totals,
                                      a: Checkpoint, c: Checkpoint)
    requires WholeRecords(h) && WholeRecords(h') && Grows(h, h') && Worth(k, h, tag, sites, a, c)
    requires k.exact ==> forall g :: 0 <= g < c.inode && g < |h| ==> h[g] == h'[g]
    ensures Worth(k, h', tag, sites, a, c)
  {
    InGrows(h, h', a);
    InGrows(h, h', c);
    forall site
      ensures Agrees(k, Get(sites, site), Seed(k, tag, site) + Span(k.p, h', MonthOf(k, tag), site, a, c))
    {
      assert Agrees(k, Get(sites, site), Seed(k, tag, site) + Span(k.p, h, MonthOf(k, tag), site, a, c));
      SpanGrows(k.p, h, h', MonthOf(k, tag), site, a, c);
    }
  }

  lemma {:induction false} GoodGrows(k: Claim, h: History, h': History, starts: set<Checkpoint>,
                                     starts': set<Checkpoint>, tag: Option<Month>, sites: Totals,
                                     log: Option<Checkpoint>)
    requires WholeRecords(h) && WholeRecords(h') && Grows(h, h') && starts <= starts'
    requires Good(k, h, starts, tag, sites, log)
    requires k.exact && log.Some? ==> forall g :: 0 <= g < log.value.inode && g < |h| ==> h[g] == h'[g]
    ensures Good(k, h', starts', tag, sites, log)
  {
    if log.Some? {
      var a :| a in starts && Worth(k, h, tag, sites, a, log.value);
      WorthGrows(k, h, h', tag, sites, a, log.value);
    } else {
      assert Good(k, h', starts', tag, sites, None);
    }
  }

  /** From a record boundary a pass reads every record up to the end. */
  lemma {:induction false} ReadToEnd(p: Parser, h: History, a: Acc, f: File)
    requires WholeRecords(h) && a.cp.Some? && a.partial == "" && In(h, a.cp.value)
    requires a.cp.value.inode == f.inode && f.bytes == h[f.inode] && f.readable
    ensures ReadInto(p, a, f) ==
            Acc(Fold(p, a.month, a.http, Lines(h[f.inode][a.cp.value.offset..|h[f.inode]|])), a.month,
                Some(End(h, f.inode)), "")
  {
    PassToEnd(f, a.cp.value.offset);
    assert h[f.inode][a.cp.value.offset..] == h[f.inode][a.cp.value.offset..|h[f.inode]|];
  }

  lemma {:induction false} TotalExtended(k: Claim, h: History, m: Month, sites: Totals, start: Checkpoint,
                                         c: Checkpoint, site: string)
    requires WholeRecords(h) && In(h, start) && In(h, c) && In(h, End(h, c.inode)) && Before(start, c)
    requires Agrees(k, Get(sites, site), Seed(k, Some(m), site) + Span(k.p, h, Some(m), site, start, c))
    ensures var more := h[c.inode][c.offset..|h[c.inode]|];
            Agrees(k, Get(Fold(k.p, Some(m), sites, Lines(more)), site),
                   Seed(k, Some(m), site) + Span(k.p, h, Some(m), site, start, End(h, c.inode)))
  {
    FoldBills(k.p, m, sites, Lines(h[c.inode][c.offset..|h[c.inode]|]), site);
    SpanExtend(k.p, h, Some(m), site, start, c, End(h, c.inode));
  }

  lemma {:induction false} WorthExtended(k: Claim, h: History, m: Month, sites: Totals, start: Checkpoint,
                                         c: Checkpoint)
    requires WholeRecords(h) && Worth(k, h, Some(m), sites, start, c)
    requires k.exact ==> m == k.month
    ensures var more := h[c.inode][c.offset..|h[c.inode]|];
            Worth(k, h, Some(m), Fold(k.p, Some(m), sites, Lines(more)), start, End(h, c.inode))
  {
    var e := End(h, c.inode);
    EndIn(h, c.inode);
    var more := h[c.inode][c.offset..|h[c.inode]|];
    var sites' := Fold(k.p, Some(m), sites, Lines(more));
    forall site
      ensures Agrees(k, Get(sites', site), Seed(k, Some(m), site) + Span(k.p, h, Some(m), site, start, e))
    {
      assert Agrees(k, Get(sites, site), Seed(k, Some(m), site) + Span(k.p, h, Some(m), site, start, c));
      TotalExtended(k, h, m, sites, start, c, site);
    }
  }

  /** Reading a file to its end keeps the pair good. */
  lemma {:induction false} GoodRead(k: Claim, h: History, starts: set<Checkpoint>, a: Acc, f: File)
    requires WholeRecords(h) && a.month.Some? && a.cp.Some? && a.partial == ""
    requires k.exact ==> a.month == Some(k.month)
    requires Good(k, h, starts, a.month, a.http, a.cp)
    requires a.cp.value.inode == f.inode && f.inode < |h| && f.bytes == h[f.inode]
    ensures var r := ReadInto(k.p, a, f);
            && r.partial == "" && r.month == a.month
            && r.cp == Some(if f.readable then End(h, f.inode) else a.cp.value)
            && Good(k, h, starts, r.month, r.http, r.cp)
  {
    var start :| start in starts && Worth(k, h, a.month, a.http, start, a.cp.value);
    if f.readable {
      ReadToEnd(k.p, h, a, f);
      WorthExtended(k, h, a.month.value, a.http, start, a.cp.value);
    } else {
      assert ReadInto(k.p, a, f) == a;
    }
  }

  lemma {:induction false} WorthJumps(k: Claim, h: History, tag: Option<Month>, sites: Totals, start: Checkpoint,
                                      c: Checkpoint, g: nat)
    requires WholeRecords(h) && Worth(k, h, tag, sites, start, c) && c.inode < g < |h|
    requires k.exact ==> g == c.inode + 1 && c == End(h, c.inode)
    ensures Worth(k, h, tag, sites, start, Checkpoint(g, 0))
  {
    var m := MonthOf(k, tag);
    StartIn(h, g);
    forall site
      ensures Agrees(k, Get(sites, site), Seed(k, tag, site) + Span(k.p, h, m, site, start, Checkpoint(g, 0)))
    {
      assert Agrees(k, Get(sites, site), Seed(k, tag, site) + Span(k.p, h, m, site, start, c));
      SpanJump(k.p, h, m, site, start, c, g);
    }
  }

  lemma {:induction false} StartIn(h: History, g: nat)
    requires g < |h|
    ensures In(h, Checkpoint(g, 0))
  {
    assert h[g][..0] == "";
    NoLines("");
  }

  /** Switching to a later generation only forgets; it never overcounts. */
  lemma {:induction false} GoodJump(k: Claim, h: History, starts: set<Checkpoint>, a: Acc, g: nat)
    requires WholeRecords(h) && a.cp.Some? && Good(k, h, starts, a.month, a.http, a.cp)
    requires a.cp.value.inode < g < |h|
    requires k.exact ==> g == a.cp.value.inode + 1 && a.cp.value == End(h, g - 1)
    ensures Good(k, h, starts, a.month, a.http, Some(Checkpoint(g, 0)))
  {
    var c := a.cp.value;
    var start :| start in starts && Worth(k, h, a.month, a.http, start, c);
    WorthJumps(k, h, a.month, a.http, start, c, g);
  }

  /** Empty totals may carry any tag. */
  lemma {:induction false} GoodRelabel(k: Claim, h: History, starts: set<Checkpoint>, tag: Option<Month>,
                                       tag': Option<Month>, sites: Totals, log: Option<Checkpoint>)
    requires WholeRecords(h) && Good(k, h, starts, tag, sites, log)
    requires !k.exact && tag' != tag ==> sites == map[]
    requires k.exact ==> tag' == Some(k.month) || sites == map[]
    ensures Good(k, h, starts, tag', sites, log)
  {
    if log.Some? {
      var a :| a in starts && Worth(k, h, tag, sites, a, log.value);
      assert Worth(k, h, tag', sites, a, log.value);
    }
  }

  /** Dropping all totals (month roll, foreign snapshot) stays within the bound. */
  lemma {:induction false} GoodEmptied(k: Claim, h: History, starts: set<Checkpoint>, tag: Option<Month>,
                                       tag': Option<Month>, sites: Totals, log: Option<Checkpoint>)
    requires WholeRecords(h) && Good(k, h, starts, tag, sites, log)
    requires k.exact ==> sites == map[]
    ensures Good(k, h, starts, tag', map[], log)
  {
    if log.Some? {
      var a :| a in starts && Worth(k, h, tag, sites, a, log.value);
      assert Worth(k, h, tag', map[], a, log.value);
    }
  }

  /** Restore drops only zero entries, or everything when the month differs. */
  lemma {:induction false} GoodBoot(k: Claim, h: History, starts: set<Checkpoint>, st: State, now: Month)
    requires WholeRecords(h) && Good(k, h, starts, st.month, st.sites, st.log)
    requires k.exact ==> now == k.month
    ensures var a := BootAcc(st, now); a.partial == "" && Good(k, h, starts, a.month, a.http, a.cp)
  {
    var a := BootAcc(st, now);
    if a == FRESH || st.month != Some(now) {
      GoodEmptied(k, h, starts, st.month, a.month, st.sites, st.log);
    } else {
      assert forall site :: Get(a.http, site) == Get(st.sites, site);
      if st.log.Some? {
        var start :| start in starts && Worth(k, h, st.month, st.sites, start, st.log.value);
        assert Worth(k, h, a.month, a.http, start, st.log.value);
      }
    }
  }

  /** A first tally seeks to the end: nothing is read, nothing is owed. */
  lemma {:induction false} GoodStart(k: Claim, h: History, starts: set<Checkpoint>, tag: Option<Month>, sites: Totals,
                                     g: nat)
    requires WholeRecords(h) && g < |h| && Good(k, h, starts, tag, sites, None)
    ensures Good(k, h, starts + {End(h, g)}, tag, sites, Some(End(h, g)))
  {
    EndIn(h, g);
    assert h[g][|h[g]|..|h[g]|] == "";
    NoLines("");
    assert Worth(k, h, tag, sites, End(h, g), End(h, g));
  }

  // ---------------------------------------------------------------------
  // Steps
  // ---------------------------------------------------------------------

  /** The tally finds its checkpoint's generation under one of the first two paths. */
  predicate FindsGeneration(s: Node, st: Step)
    requires st.Tally?
  {
    s.mem.Some? && s.cur.Some? && s.mem.value.cp.Some? ==>
      var g := s.mem.value.cp.value.inode;
      s.cur == Some(g) || (s.one == Some(g) && st.oneReads)
  }

  predicate NotPast(log: Option<Checkpoint>, g: nat) {
    log.Some? ==> log.value.inode <= g
  }

  /** No reader, live or recoverable, has already left the renamed generation. */
  ghost predicate NotDrained(s: Node) {
    s.one.Some? ==>
      && (s.mem.Some? ==> NotPast(s.mem.value.cp, s.one.value))
      && NotPast(Load(s.disk).log, s.one.value)
      && forall id :: id in s.loans ==> NotPast(s.loans[id].log, s.one.value)
  }

  /** A save that completes stamps the month its totals belong to. */
  predicate RightStamp(k: Claim, s: Node, st: Step) {
    match st
    case Tally(now, stamp, _, _, _, run) => run.Complete? ==> stamp == now
    case EnforceSave(id, _, _, stamp, run) =>
      run.Complete? && id in s.loans ==>
        if k.exact then stamp == k.month else s.loans[id].month == Some(stamp) || s.loans[id].sites == map[]
    case _ => true
  }

  /** What exactness asks of a step; a mere bound asks nothing. */
  ghost predicate Gentle(k: Claim, s: Node, st: Step) {
    k.exact ==>
      match st
      case Tally(now, _, _, _, _, _) => now == k.month && FindsGeneration(s, st)
      case Boot(now) => now == k.month
      case LateAppend(_) => NotDrained(s)
      case _ => true
  }

  lemma {:induction false} RollKeeps(k: Claim, h: History, starts: set<Checkpoint>, a: Acc, now: Month)
    requires WholeRecords(h) && Good(k, h, starts, a.month, a.http, a.cp)
    requires k.exact ==> now == k.month
    ensures var r := Roll(a, now);
            && r.month == Some(now) && r.cp == a.cp && r.partial == a.partial
            && Good(k, h, starts, r.month, r.http, r.cp)
  {
    if a.month != Some(now) {
      GoodEmptied(k, h, starts, a.month, Some(now), a.http, a.cp);
    }
  }

  /** After the predecessor is read, its checkpoint still lies in that generation, at its end if it could be read. */
  lemma {:induction false} DrainedReads(k: Claim, h: History, starts: set<Checkpoint>, a: Acc, f: File, g: nat)
    requires WholeRecords(h) && a.month.Some? && a.cp.Some? && a.partial == ""
    requires k.exact ==> a.month == Some(k.month)
    requires Good(k, h, starts, a.month, a.http, a.cp)
    requires a.cp.value.inode == f.inode < g < |h| && f.bytes == h[f.inode]
    ensures var d := ReadInto(k.p, a, f);
            && d.month == a.month && d.cp.Some? && d.cp.value.inode == f.inode
            && (f.readable ==> d.cp == Some(End(h, f.inode)))
            && Good(k, h, starts, d.month, d.http, d.cp)
  {
    GoodRead(k, h, starts, a, f);
  }

  /** Draining the predecessor, if there is one, and reading the new generation from zero. */
  lemma {:induction false} RotatedReads(k: Claim, h: History, starts: set<Checkpoint>, a: Acc, prev: Option<File>,
                                        f: File)
    requires WholeRecords(h) && a.month.Some? && a.cp.Some? && a.partial == ""
    requires k.exact ==>
               a.month == Some(k.month) && prev.Some? && prev.value.readable && f.inode == a.cp.value.inode + 1
    requires Good(k, h, starts, a.month, a.http, a.cp)
    requires a.cp.value.inode < f.inode < |h| && f.bytes == h[f.inode]
    requires prev.Some? ==> prev.value.inode == a.cp.value.inode && prev.value.bytes == h[prev.value.inode]
    ensures var d := if prev.Some? then ReadInto(k.p, a, prev.value) else a;
            var r := ReadInto(k.p, d.(partial := "", cp := Some(Checkpoint(f.inode, 0))), f);
            && r.partial == "" && r.month == a.month && r.cp.Some?
            && Good(k, h, starts, r.month, r.http, r.cp)
  {
    if prev.Some? { DrainedReads(k, h, starts, a, prev.value, f.inode); }
    var d := if prev.Some? then ReadInto(k.p, a, prev.value) else a;
    GoodJump(k, h, starts, d, f.inode);
    GoodRead(k, h, starts, d.(partial := "", cp := Some(Checkpoint(f.inode, 0))), f);
  }

  lemma {:induction false} TallyReads(k: Claim, s: Node, st: Step, a: Acc)
    requires Layout(s) && st.Tally? && s.mem.Some? && Gentle(k, s, st)
    requires s.cur.Some? && a == Roll(s.mem.value, st.now) && a.cp.Some? && a.partial == ""
    requires Good(k, s.hist, s.starts, a.month, a.http, a.cp)
    ensures var r := TallyOf(k.p, s.mem.value, View(s, st), st.now).0;
            && r.partial == "" && r.month == Some(st.now) && r.cp.Some?
            && Good(k, s.hist, s.starts, r.month, r.http, r.cp)
  {
    var h, v := s.hist, View(s, st);
    var f := v.cur.value;
    if f.inode == a.cp.value.inode {
      GoodRead(k, h, s.starts, a, f);
    } else {
      var prev := Predecessor(v, a.cp.value.inode);
      RotatedReads(k, h, s.starts, a, prev, f);
    }
  }

  /** The tally keeps the in-memory pair good, whatever is saved. */
  lemma {:induction false} TallyKeepsMem(k: Claim, s: Node, st: Step)
    requires Layout(s) && GoodMem(k, s) && s.mem.Some? && st.Tally? && Gentle(k, s, st)
    ensures var s' := AfterTally(k.p, s, st);
            GoodMem(k, s') && s'.mem.Some? && s'.mem.value.month == Some(st.now) && s.starts <= s'.starts
  {
    var a := Roll(s.mem.value, st.now);
    RollKeeps(k, s.hist, s.starts, s.mem.value, st.now);
    if s.cur.Some? && a.cp.None? {
      FirstTally(k, s, st, a);
    } else if s.cur.Some? {
      TallyReads(k, s, st, a);
    }
  }

  lemma {:induction false} FirstTally(k: Claim, s: Node, st: Step, a: Acc)
    requires Layout(s) && st.Tally? && s.mem.Some? && s.cur.Some?
    requires a == Roll(s.mem.value, st.now) && a.cp.None? && a.partial == ""
    requires Good(k, s.hist, s.starts, a.month, a.http, None)
    ensures var s' := AfterTally(k.p, s, st);
            GoodMem(k, s') && s'.mem.Some? && s'.mem.value.month == Some(st.now) && s.starts <= s'.starts
  {
    GoodStart(k, s.hist, s.starts, a.month, a.http, s.cur.value);
  }

  /** Log steps: only the history and the paths change. */
  predicate LogStep(st: Step) {
    st.Append? || st.LateAppend? || st.RenameLog? || st.CreateLog?
  }

  lemma {:induction false} WholeAppend(a: string, b: string)
    requires Tail(a) == ""
    ensures Tail(a + b) == Tail(b)
  {
    LinesAppend(a, b);
    assert "" + b == b;
  }

  lemma {:induction false} LogStepGrows(k: Claim, s: Node, st: Step)
    requires Layout(s) && LogStep(st)
    ensures var s' := Next(k.p, s, st);
            && Layout(s') && Grows(s.hist, s'.hist)
            && s' == s.(hist := s'.hist, cur := s'.cur, one := s'.one, two := s'.two)
  {
    if st.Append? && s.cur.Some? {
      WholeAppend(s.hist[s.cur.value], st.bytes);
    }
    if st.LateAppend? && s.one.Some? {
      WholeAppend(s.hist[s.one.value], st.bytes);
    }
    if st.CreateLog? {
      NoLines("");
    }
  }

  /** A log step leaves alone all generations before a checkpoint in the log. */
  lemma {:induction false} LogStepKeeps(k: Claim, s: Node, st: Step, tag: Option<Month>, sites: Totals,
                                        log: Option<Checkpoint>)
    requires Layout(s) && LogStep(st) && Good(k, s.hist, s.starts, tag, sites, log)
    requires k.exact && st.LateAppend? && s.one.Some? ==> NotPast(log, s.one.value)
    ensures Layout(Next(k.p, s, st)) && Good(k, Next(k.p, s, st).hist, s.starts, tag, sites, log)
  {
    var s' := Next(k.p, s, st);
    LogStepGrows(k, s, st);
    GoodGrows(k, s.hist, s'.hist, s.starts, s.starts, tag, sites, log);
  }

  lemma {:induction false} NextKeepsMem(k: Claim, s: Node, st: Step)
    requires Layout(s) && GoodMem(k, s) && Gentle(k, s, st) && !st.Boot?
    ensures Layout(Next(k.p, s, st)) && GoodMem(k, Next(k.p, s, st))
  {
    if LogStep(st) {
      LogStepGrows(k, s, st);
      if s.mem.Some? {
        LogStepKeeps(k, s, st, s.mem.value.month, s.mem.value.http, s.mem.value.cp);
      }
    } else if st.Tally? && s.mem.Some? {
      TallyKeepsMem(k, s, st);
    }
  }

  /** What is durable after a save: the new state, or what was there before. */
  lemma {:induction false} SaveOutcome(fs: FS, st: State, run: SaveRun)
    requires Uncorrupted(fs)
    ensures Uncorrupted(Save(fs, st, run))
    ensures Load(Save(fs, st, run)) == if run.Complete? then st else Load(fs)
  {
  }

  /** What a tally's persist leaves on disk. */
  lemma {:induction false} DiskAfterTally(p: Parser, s: Node, st: Step)
    requires st.Tally? && s.mem.Some? && Uncorrupted(s.disk)
    ensures var t, l := AfterTally(p, s, st), Load(s.disk);
            var (a, persists) := TallyOf(p, s.mem.value, View(s, st), st.now);
            && Uncorrupted(t.disk)
            && Load(t.disk) == if persists && st.run.Complete? then Persisted(l, a, st.now).(month := Some(st.stamp))
                 else l
  {
    var a := TallyOf(p, s.mem.value, View(s, st), st.now).0;
    SaveOutcome(s.disk, Persisted(Load(s.disk), a, st.now).(month := Some(st.stamp)), st.run);
  }

  /**
   A tally that finds the log and whose save completes has its totals and its
   checkpoint on disk, across rotations too; one that finds no log writes nothing.
   */
  lemma {:induction false} TallyIsDurable(p: Parser, s: Node, st: Step)
    requires st.Tally? && s.mem.Some? && Uncorrupted(s.disk)
    ensures var t, l := Next(p, s, st), Load(s.disk);
            var found := s.cur.Some? && s.cur.value < |s.hist|;
            && t.mem.Some?
            && (found && st.run.Complete? ==>
                  Load(t.disk) == State(Some(st.stamp), l.chains, t.mem.value.http, t.mem.value.cp))
            && (!st.run.Complete? ==> Load(t.disk) == l)
            && (!found ==> t.disk == s.disk)
  {
    DiskAfterTally(p, s, st);
  }

  /** What an enforce save leaves on disk: its own earlier load with one stamp more. */
  lemma {:induction false} DiskAfterEnforce(s: Node, st: Step)
    requires st.EnforceSave? && st.id in s.loans && Uncorrupted(s.disk)
    ensures var t, l := AfterEnforceSave(s, st), s.loans[st.id];
            && Uncorrupted(t.disk)
            && Load(t.disk) == if st.run.Complete?
                 then State(Some(st.stamp), l.chains[st.chain := st.month], l.sites, l.log) else Load(s.disk)
  {
    var l := s.loans[st.id];
    SaveOutcome(s.disk, State(Some(st.stamp), l.chains[st.chain := st.month], l.sites, l.log), st.run);
  }

  lemma {:induction false} TallyKeepsDisk(k: Claim, s: Node, st: Step)
    requires Inv(k, s) && Gentle(k, s, st) && RightStamp(k, s, st) && st.Tally? && s.mem.Some?
    ensures Inv(k, AfterTally(k.p, s, st))
  {
    var s' := AfterTally(k.p, s, st);
    var d := Load(s.disk);
    TallyKeepsMem(k, s, st);
    DiskAfterTally(k.p, s, st);
    GoodGrows(k, s.hist, s.hist, s.starts, s'.starts, d.month, d.sites, d.log);
    forall id | id in s'.loans
      ensures GoodState(k, s', s'.loans[id])
    {
      GoodGrows(k, s.hist, s.hist, s.starts, s'.starts, s.loans[id].month, s.loans[id].sites, s.loans[id].log);
    }
  }

  lemma {:induction false} EnforceKeepsDisk(k: Claim, s: Node, st: Step)
    requires Inv(k, s) && RightStamp(k, s, st) && st.EnforceSave? && st.id in s.loans
    ensures Inv(k, AfterEnforceSave(s, st))
  {
    var l := s.loans[st.id];
    SaveOutcome(s.disk, State(Some(st.stamp), l.chains[st.chain := st.month], l.sites, l.log), st.run);
    if st.run.Complete? {
      assert GoodState(k, s, l);
      GoodRelabel(k, s.hist, s.starts, l.month, Some(st.stamp), l.sites, l.log);
    }
  }

  lemma {:induction false} LogStepKeepsDisk(k: Claim, s: Node, st: Step)
    requires Inv(k, s) && Gentle(k, s, st) && LogStep(st)
    ensures var s' := Next(k.p, s, st);
            && Layout(s') && s'.disk == s.disk && s'.loans == s.loans && GoodState(k, s', Load(s.disk))
            && forall id :: id in s.loans ==> GoodState(k, s', s.loans[id])
  {
    var s' := Next(k.p, s, st);
    LogStepGrows(k, s, st);
    var d := Load(s.disk);
    LogStepKeeps(k, s, st, d.month, d.sites, d.log);
    forall id | id in s.loans
      ensures GoodState(k, s', s.loans[id])
    {
      LogStepKeeps(k, s, st, s.loans[id].month, s.loans[id].sites, s.loans[id].log);
    }
  }

  lemma {:induction false} NextKeeps(k: Claim, s: Node, st: Step)
    requires Inv(k, s) && Gentle(k, s, st) && RightStamp(k, s, st)
    ensures Inv(k, Next(k.p, s, st))
  {
    var s' := Next(k.p, s, st);
    if st.Boot? {
      GoodBoot(k, s.hist, s.starts, Load(s.disk), st.now);
    } else {
      NextKeepsMem(k, s, st);
      if LogStep(st) {
        LogStepKeepsDisk(k, s, st);
      } else if st.Tally? && s.mem.Some? {
        TallyKeepsDisk(k, s, st);
      } else if st.EnforceSave? && st.id in s.loans {
        EnforceKeepsDisk(k, s, st);
      }
    }
  }
}
