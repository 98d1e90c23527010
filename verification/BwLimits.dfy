/**
 Where the comments of the source promise more than the code keeps: concrete
 runs, and the exact condition under which the promise holds.
 */
module BwLimits {
  import opened Common
  import opened BwLog
  import opened BwState
  import opened BwAccountant
  import opened BwSpan
  import opened BwRuns
  import opened BwTheorems

  /** Every line is one byte sent by site "s" in month 0. */
  function OneByte(line: string): Option<Record> {
    Some(Record("s", Day(0, 1), 0, 1))
  }

  const DONE := Complete(true)

  function TallyAt(m: Month): Step {
    Tally(m, m, true, true, true, DONE)
  }

  lemma {:induction false} RunMore(p: Parser, s: Node, steps: seq<Step>, st: Step)
    ensures Run(p, s, steps + [st]) == Next(p, Run(p, s, steps), st)
  {
    assert (steps + [st])[..|steps|] == steps;
  }

  lemma {:induction false} LineB()
    ensures Lines("b\n") == ["b\n"] && Tail("b\n") == "" && Lines("") == [] && Tail("") == ""
    ensures forall m: Month :: BillBytes(OneByte, m, "s", "b\n") == if m == 0 then 1 else 0
  {
    NoLines("");
    LinesFirst("", "b\n", "");
    assert "" + "b\n" + "" == "b\n" && "" + "b\n" == "b\n";
    assert Lines("b\n") == ["b\n"] + Lines("");
    forall m: Month
      ensures BillBytes(OneByte, m, "s", "b\n") == if m == 0 then 1 else 0
    {
      assert ["b\n"][..0] == [];
      assert Bill(OneByte, m, "s", ["b\n"]) == Bill(OneByte, m, "s", []) + LineBytes(OneByte, m, "s", "b\n");
    }
  }

  /** A node on which the log is empty and read up to its start. */
  function Quiet(sites: Totals): Node {
    var st := State(Some(0), map[], sites, Some(Checkpoint(0, 0)));
    Node([""], Some(0), None, None, None, FS(Some(Whole(st)), None, None), map[],
         {Checkpoint(0, 0)}, {(sites, Some(Checkpoint(0, 0)))})
  }

  lemma {:induction false} QuietIsInitial(sites: Totals)
    ensures Initial(Quiet(sites))
  {
    NoLines("");
    assert ""[..0] == "";
  }

  const MONTH0 := Claim(OneByte, true, 0, State(Some(0), map[], map[], Some(Checkpoint(0, 0))))

  /** A run as exactness asks for it, up to one more step that keeps it so. */
  ghost predicate Exactly(steps: seq<Step>) {
    AllGentle(MONTH0, Quiet(map[]), steps) && AllRightStamp(MONTH0, Quiet(map[]), steps)
  }

  lemma {:induction false} ExactlyMore(steps: seq<Step>, st: Step) returns (t: Node, steps': seq<Step>)
    requires Exactly(steps)
    requires var s := Run(OneByte, Quiet(map[]), steps); Gentle(MONTH0, s, st) && RightStamp(MONTH0, s, st)
    ensures Exactly(steps') && steps' == steps + [st]
    ensures t == Run(OneByte, Quiet(map[]), steps') == Next(OneByte, Run(OneByte, Quiet(map[]), steps), st)
  {
    steps' := steps + [st];
    assert steps'[..|steps|] == steps;
    RunMore(OneByte, Quiet(map[]), steps, st);
    t := Run(OneByte, Quiet(map[]), steps');
  }

  lemma {:induction false} LoggedB()
    ensures Logged(OneByte, ["b\n", ""], 0, "s") == 1 == Logged(OneByte, ["", "b\n", ""], 0, "s")
  {
    LineB();
    var h1, h2 := ["b\n", ""], ["", "b\n", ""];
    assert h1[..1] == ["b\n"] && h1[..1][..0] == [];
    assert h2[..2] == ["", "b\n"] && h2[..2][..1] == [""] && [""][..0] == [];
    assert Logged(OneByte, ["b\n"], 0, "s") == 1;
    assert Logged(OneByte, [""], 0, "s") == 0 && Logged(OneByte, ["", "b\n"], 0, "s") == 1;
  }

  lemma {:induction false} FoldB(m: Month)
    ensures Fold(OneByte, Some(m), map[], ["b\n"]) == if m == 0 then map["s" := 1] else map[]
  {
    assert ["b\n"][..0] == [];
    assert Fold(OneByte, Some(m), map[], ["b\n"]) ==
           FoldLine(OneByte, Some(m), Fold(OneByte, Some(m), map[], []), "b\n");
  }

  lemma {:induction false} TallyDrains(s: Node)
    requires s.hist == ["b\n", ""] && s.cur == Some(1) && s.one == Some(0) && s.two == None
    requires s.mem == Some(Acc(map[], Some(0), Some(Checkpoint(0, 0)), ""))
    ensures var t := Next(OneByte, s, TallyAt(0));
            && t.hist == s.hist && t.mem.Some? && t.mem.value.cp == Some(Checkpoint(1, 0))
                 && t.mem.value.http == map["s" := 1]
  {
    LineB();
    FoldB(0);
    assert "" + "b\n"[0..] == "b\n" && "" + ""[0..] == "";
  }

  lemma {:induction false} BilledLater() returns (steps: seq<Step>)
    ensures Exactly(steps)
    ensures var t := Run(OneByte, Quiet(map[]), steps);
            && t.hist == ["b\n"] && t.cur == Some(0) && t.one == None
            && t.mem == Some(Acc(map[], Some(0), Some(Checkpoint(0, 0)), ""))
  {
    var t;
    t, steps := ExactlyMore([], Boot(0));
    LineB();
    t, steps := ExactlyMore(steps, Append("b\n"));
    NothingAdded("b\n");
    assert t.hist == ["b\n"];
  }

  lemma {:induction false} RotatedOnce() returns (steps: seq<Step>)
    ensures Exactly(steps)
    ensures var t := Run(OneByte, Quiet(map[]), steps);
            && t.hist == ["b\n", ""] && t.cur == Some(1) && t.one == Some(0) && t.two == None
            && t.mem == Some(Acc(map[], Some(0), Some(Checkpoint(0, 0)), ""))
  {
    var t;
    steps := BilledLater();
    t, steps := ExactlyMore(steps, RenameLog(true));
    t, steps := ExactlyMore(steps, CreateLog);
    assert t.hist == ["b\n", ""];
  }

  /** The conditions of exactness can be met: across one rotation a record is billed, once. */
  lemma {:induction false} OneRotationIsBilled() returns (steps: seq<Step>)
    ensures var s0, t := Quiet(map[]), Run(OneByte, Quiet(map[]), steps);
            && Initial(s0) && AllGentle(Claim(OneByte, true, 0, Load(s0.disk)), s0, steps)
            && AllRightStamp(Claim(OneByte, true, 0, Load(s0.disk)), s0, steps)
            && t.hist == ["b\n", ""] && t.mem.Some? && t.mem.value.cp == Some(Checkpoint(1, 0))
            && Get(t.mem.value.http, "s") == 1 == Logged(OneByte, t.hist, 0, "s")
            && Load(t.disk).log == Some(Checkpoint(1, 0)) && Get(Load(t.disk).sites, "s") == 1
  {
    QuietIsInitial(map[]);
    steps := RotatedOnce();
    TallyDrains(Run(OneByte, Quiet(map[]), steps));
    StartIsFixed(OneByte, Quiet(map[]), steps);
    TallyIsDurable(OneByte, Run(OneByte, Quiet(map[]), steps), TallyAt(0));
    LoggedB();
    var t;
    t, steps := ExactlyMore(steps, TallyAt(0));
  }

  lemma {:induction false} Then(s0: Node, steps: seq<Step>, st: Step) returns (t: Node, steps': seq<Step>)
    ensures steps' == steps + [st] && t == Run(OneByte, s0, steps') == Next(OneByte, Run(OneByte, s0, steps), st)
  {
    steps' := steps + [st];
    RunMore(OneByte, s0, steps, st);
    t := Run(OneByte, s0, steps');
  }

  lemma {:induction false} SecondGeneration() returns (steps: seq<Step>)
    ensures var t := Run(OneByte, Quiet(map[]), steps);
            && t.hist == ["", "b\n"] && t.cur == Some(1) && t.one == Some(0) && t.two == None
            && t.mem == Some(Acc(map[], Some(0), Some(Checkpoint(0, 0)), ""))
  {
    var s0 := Quiet(map[]);
    var t;
    t, steps := Then(s0, [], Boot(0));
    t, steps := Then(s0, steps, RenameLog(true));
    t, steps := Then(s0, steps, CreateLog);
    LineB();
    t, steps := Then(s0, steps, Append("b\n"));
    NothingAdded("b\n");
    assert t.hist == ["", "b\n"];
  }

  lemma {:induction false} RotatedTwice() returns (steps: seq<Step>)
    ensures var t := Run(OneByte, Quiet(map[]), steps);
            && t.hist == ["", "b\n", ""] && t.cur == Some(2) && t.one == Some(1) && t.two == Some(0)
            && t.mem == Some(Acc(map[], Some(0), Some(Checkpoint(0, 0)), ""))
  {
    var s0 := Quiet(map[]);
    var t;
    steps := SecondGeneration();
    t, steps := Then(s0, steps, RenameLog(true));
    t, steps := Then(s0, steps, CreateLog);
    assert t.hist == ["", "b\n", ""];
  }

  lemma {:induction false} TallySkips(s: Node)
    requires s.hist == ["", "b\n", ""] && s.cur == Some(2) && s.one == Some(1) && s.two == Some(0)
    requires s.mem == Some(Acc(map[], Some(0), Some(Checkpoint(0, 0)), ""))
    ensures var t := Next(OneByte, s, TallyAt(0));
            t.hist == s.hist && t.mem.Some? && t.mem.value.cp == Some(Checkpoint(2, 0)) && t.mem.value.http == map[]
  {
    LineB();
    assert "" + ""[0..] == "";
  }

  /**
   Two rotations between tallies: the accountant drains `.2`, then jumps to the
   current file, and the record in `.1` is never billed.
   */
  lemma {:induction false} DoubleRotationLosesOne() returns (steps: seq<Step>)
    ensures var t := Run(OneByte, Quiet(map[]), steps);
            && Initial(Quiet(map[]))
            && t.mem.Some? && t.mem.value.cp == Some(Checkpoint(2, 0))
            && Get(t.mem.value.http, "s") == 0 && Logged(OneByte, t.hist, 0, "s") == 1
  {
    QuietIsInitial(map[]);
    steps := RotatedTwice();
    TallySkips(Run(OneByte, Quiet(map[]), steps));
    LoggedB();
    var t;
    t, steps := Then(Quiet(map[]), steps, TallyAt(0));
  }

  lemma {:induction false} EmptyLogBillsNothing()
    ensures Logged(OneByte, [""], 1, "s") == 0
  {
    NoLines("");
    assert [""][..0] == [];
  }

  lemma {:induction false} EnforceRelabels(s0: Node) returns (steps: seq<Step>)
    requires s0 == Quiet(map["s" := 5])
    ensures var t := Run(OneByte, s0, steps);
            t.mem.None? && t.hist == [""] && Load(t.disk).month == Some(1) && Load(t.disk).sites == map["s" := 5]
  {
    var t;
    t, steps := Then(s0, [], EnforceLoad(1));
    assert t == s0.(loans := map[1 := Load(s0.disk)]);
    DiskAfterEnforce(t, EnforceSave(1, "acct", 1, 1, DONE));
    t, steps := Then(s0, steps, EnforceSave(1, "acct", 1, 1, DONE));
  }

  lemma {:induction false} RestoresFive(d: State)
    requires d.month == Some(1) && d.sites == map["s" := 5]
    ensures PeriodBytes(BootAcc(d, 1), "s", 1, 0, 0) == 5
  {
    assert "s" in d.sites;
  }

  lemma {:induction false} FoldsOneMore()
    ensures Fold(OneByte, Some(0), map["s" := 1], ["b\n"]) == map["s" := 2]
  {
    var one := map["s" := 1];
    assert ["b\n"][..0] == [];
    assert Fold(OneByte, Some(0), one, ["b\n"]) == FoldLine(OneByte, Some(0), Fold(OneByte, Some(0), one, []), "b\n");
  }

  /** The log as a tally sees it that stats it before a rotation and opens it after. */
  const RACED := LogView(Some(File(0, "b\n", true)), None, None)

  /** The log as the next tally sees it. */
  const SETTLED := LogView(Some(File(1, "b\n", true)), Some(File(0, "", true)), None)

  lemma {:induction false} RacedReadsNew(a: Acc)
    requires a == Acc(map[], Some(0), Some(Checkpoint(0, 0)), "")
    ensures TallyOf(OneByte, a, RACED, 0).0 == Acc(map["s" := 1], Some(0), Some(Checkpoint(0, 2)), "")
  {
    LineB();
    FoldB(0);
    NothingAdded("b\n");
    assert "b\n"[0..] == "b\n";
  }

  lemma {:induction false} SettledReadsAgain(a: Acc)
    requires a == Acc(map["s" := 1], Some(0), Some(Checkpoint(0, 2)), "")
    ensures TallyOf(OneByte, a, SETTLED, 0).0.http == map["s" := 2]
  {
    LineB();
    FoldsOneMore();
    NothingAdded("b\n");
    assert "b\n"[0..] == "b\n";
  }

  /**
   A tally stats the log, the log is rotated, and the tally opens the new file:
   its record is billed under the old inode, and again by the next tally.
   */
  lemma {:induction false} StatRaceBillsTwice()
    ensures var a0 := Acc(map[], Some(0), Some(Checkpoint(0, 0)), "");
            var a1 := TallyOf(OneByte, a0, RACED, 0).0;
            Get(TallyOf(OneByte, a1, SETTLED, 0).0.http, "s") == 2 && Logged(OneByte, ["", "b\n"], 0, "s") == 1
  {
    var a0 := Acc(map[], Some(0), Some(Checkpoint(0, 0)), "");
    RacedReadsNew(a0);
    SettledReadsAgain(TallyOf(OneByte, a0, RACED, 0).0);
    LoggedB();
    assert ["", "b\n", ""][..2] == ["", "b\n"];
  }

  /**
   An enforce save after midnight relabels last month's totals, and a restart
   before the next tally bills them again to the new month.
   */
  lemma {:induction false} RestampedTotalsReturn() returns (steps: seq<Step>)
    ensures var s0 := Quiet(map["s" := 5]);
            var t := Run(OneByte, s0, steps);
            && Initial(s0) && t.mem.Some?
            && PeriodBytes(t.mem.value, "s", 1, 0, 0) == 5
            && Logged(OneByte, t.hist, 1, "s") == 0
  {
    var s0 := Quiet(map["s" := 5]);
    QuietIsInitial(map["s" := 5]);
    steps := EnforceRelabels(s0);
    RestoresFive(Load(Run(OneByte, s0, steps).disk));
    var t;
    t, steps := Then(s0, steps, Boot(1));
    EmptyLogBillsNothing();
  }

  /**
   A restart cannot tell the new stamp from the old one, exactly when it is the
   old one or there is nothing to restore.
   */
  lemma {:induction false} RestampHarmlessIff(l: State, stamp: Month)
    ensures var a, b := BootAcc(l.(month := Some(stamp)), stamp), BootAcc(l, stamp);
            (forall site :: Get(a.http, site) == Get(b.http, site))
            <==> (l.month == Some(stamp) || forall site :: Get(l.sites, site) == 0)
  {
    var a, b := BootAcc(l.(month := Some(stamp)), stamp), BootAcc(l, stamp);
    assert forall site :: Get(a.http, site) == Get(l.sites, site);
    if l.month != Some(stamp) {
      assert forall site :: Get(b.http, site) == 0;
    }
  }

  lemma {:induction false} OneAppended() returns (steps: seq<Step>)
    ensures Run(OneByte, Quiet(map[]), steps) ==
            Quiet(map[]).(hist := ["b\n"], mem := Some(Acc(map[], Some(0), Some(Checkpoint(0, 0)), "")))
  {
    var s0 := Quiet(map[]);
    var t;
    t, steps := Then(s0, [], Boot(0));
    var s1 := s0.(mem := Some(Acc(map[], Some(0), Some(Checkpoint(0, 0)), "")));
    assert t == s1;
    t, steps := Then(s0, steps, Append("b\n"));
    AppendsB(s1);
  }

  lemma {:induction false} AppendsB(s: Node)
    requires s.hist == [""] && s.cur == Some(0)
    ensures Next(OneByte, s, Append("b\n")) == s.(hist := ["b\n"])
  {
    LineB();
    NothingAdded("b\n");
    assert [""][0 := "b\n"] == ["b\n"];
  }

  lemma {:induction false} TallyDrops(s: Node)
    requires s == Quiet(map[]).(hist := ["b\n"], mem := Some(Acc(map[], Some(0), Some(Checkpoint(0, 0)), "")))
    ensures var t := Next(OneByte, s, TallyAt(1));
            && t.hist == s.hist && t.mem == Some(Acc(map[], Some(1), Some(Checkpoint(0, 2)), ""))
            && Load(t.disk).sites == map[] && Load(t.disk).log == Some(Checkpoint(0, 2))
  {
    LineB();
    FoldB(1);
    assert "" + "b\n"[0..] == "b\n";
  }

  /** A record logged before midnight and first read after it is billed to neither month. */
  lemma {:induction false} BoundaryRecordIsDropped() returns (steps: seq<Step>)
    ensures var t := Run(OneByte, Quiet(map[]), steps);
            && t.mem.Some? && t.mem.value.cp == Some(Checkpoint(0, 2)) && t.mem.value.http == map[]
            && Load(t.disk).sites == map[] && Load(t.disk).log == Some(Checkpoint(0, 2))
            && Logged(OneByte, t.hist, 0, "s") == 1
  {
    steps := OneAppended();
    TallyDrops(Run(OneByte, Quiet(map[]), steps));
    LoggedB();
    assert ["b\n", ""][..1] == ["b\n"];
    LineB();
    var t;
    t, steps := Then(Quiet(map[]), steps, TallyAt(1));
  }

  /** Bytes of the site's records in any month. */
  function AnyMonth(p: Parser, site: string, ls: seq<string>): nat {
    if ls == [] then 0
    else
      var r := ParseRecord(p, ls[|ls| - 1]);
      AnyMonth(p, site, ls[..|ls| - 1]) + (if r.Some? && r.value.site == site then r.value.req + r.value.resp else 0)
  }

  predicate ForMonth(p: Parser, m: Month, site: string, line: string) {
    var r := ParseRecord(p, line);
    r.Some? && r.value.site == site && r.value.req + r.value.resp > 0 ==> r.value.day.month == m
  }

  /** The lines read in a month are billed in full exactly when each paying record is of that month. */
  lemma {:induction false} BilledInFullIff(p: Parser, m: Month, site: string, ls: seq<string>)
    ensures Bill(p, m, site, ls) <= AnyMonth(p, site, ls)
    ensures Bill(p, m, site, ls) == AnyMonth(p, site, ls) <==> forall i :: 0 <= i < |ls| ==> ForMonth(p, m, site, ls[i])
    decreases |ls|
  {
    if ls != [] {
      var n := |ls| - 1;
      BilledInFullIff(p, m, site, ls[..n]);
      assert (forall i :: 0 <= i < |ls| ==> ForMonth(p, m, site, ls[i]))
          <==> (forall i :: 0 <= i < n ==> ForMonth(p, m, site, ls[..n][i])) && ForMonth(p, m, site, ls[n]);
    }
  }

  lemma {:induction false} BothLoaded() returns (steps: seq<Step>)
    ensures var s0 := Quiet(map[]);
            var l := Load(s0.disk);
            && Run(OneByte, s0, steps) == s0.(loans := map[1 := l, 2 := l])
            && l.chains == Stamps(OneByte, s0, steps) == map[]
  {
    var s0 := Quiet(map[]);
    var t;
    t, steps := Then(s0, [], EnforceLoad(1));
    Appended([], EnforceLoad(1));
    t, steps := Then(s0, steps, EnforceLoad(2));
    Appended([EnforceLoad(1)], EnforceLoad(2));
    assert t.loans == map[1 := Load(s0.disk), 2 := Load(s0.disk)];
  }

  /** Two enforce calls at once would lose a stamp: the later save knows nothing of the earlier. */
  lemma {:induction false} OverlappingEnforcesLoseStamp() returns (steps: seq<Step>)
    ensures var t := Run(OneByte, Quiet(map[]), steps);
            && Load(t.disk).chains == map["b" := 0]
            && Stamps(OneByte, Quiet(map[]), steps) == map["a" := 0, "b" := 0]
  {
    var s0 := Quiet(map[]);
    steps := BothLoaded();
    var t, two := Run(OneByte, s0, steps), steps;
    DiskAfterEnforce(t, EnforceSave(1, "a", 0, 0, DONE));
    t, steps := Then(s0, steps, EnforceSave(1, "a", 0, 0, DONE));
    var three := steps;
    DiskAfterEnforce(t, EnforceSave(2, "b", 0, 0, DONE));
    t, steps := Then(s0, steps, EnforceSave(2, "b", 0, 0, DONE));
    Appended(two, EnforceSave(1, "a", 0, 0, DONE));
    Appended(three, EnforceSave(2, "b", 0, 0, DONE));
  }
}
