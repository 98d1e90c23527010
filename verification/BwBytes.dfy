/**
 Runs in which bytes reach the log in pieces of any size. As long as no tally
 reads a file that ends inside a line, they are runs over whole records.
 */
module BwBytes {
  import opened Common
  import opened BwLog
  import opened BwState
  import opened BwAccountant
  import opened BwSpan
  import opened BwRuns
  import opened BwTheorems

  lemma {:induction false} TailFits(s: string)
    ensures |Tail(s)| <= |s| && s[|s| - |Tail(s)|..] == Tail(s)
    decreases |s|
  {
    var k := FirstNewline(s);
    if k < |s| {
      var rest := s[k + 1..];
      TailFits(rest);
      assert s[|s| - |Tail(s)|..] == rest[|rest| - |Tail(s)|..];
    }
  }

  /** The complete lines of a file, as bytes. */
  function WholeOf(s: string): (r: string)
    ensures r <= s
  {
    TailFits(s);
    s[..|s| - |Tail(s)|]
  }

  lemma {:induction false} SameTail(w: string, more: string, whole: string, tail: string)
    requires more == whole + tail && Tail(w + more) == tail
    ensures WholeOf(w + more) == w + whole
  {
    assert (w + more)[..|w + more| - |tail|] == w + whole;
  }

  lemma {:induction false} LineWhole(line: string, rest: string)
    requires WholeLine(line) && rest == WholeOf(rest) + Tail(rest) && Tail(WholeOf(rest)) == ""
    ensures var s := line + rest;
            s == WholeOf(s) + Tail(s) && Tail(WholeOf(s)) == "" && (Tail(s) == "" ==> WholeOf(s) == s)
  {
    LineOff(line, rest);
    SameTail(line, rest, WholeOf(rest), Tail(rest));
    Assoc(line, WholeOf(rest), Tail(rest));
    LineOff(line, WholeOf(rest));
    NothingAdded(WholeOf(rest));
  }

  lemma {:induction false} WholeAndTail(s: string)
    ensures s == WholeOf(s) + Tail(s) && Tail(WholeOf(s)) == ""
    ensures Tail(s) == "" ==> WholeOf(s) == s
    decreases |s|
  {
    TailFits(s);
    var k := FirstNewline(s);
    if k < |s| {
      var line, rest := s[..k + 1], s[k + 1..];
      SplitAt(s, k + 1);
      WholeAndTail(rest);
      LineWhole(line, rest);
    } else {
      NoLines("");
    }
  }

  /** What new bytes complete: they go on from the unfinished tail. */
  function Completed(file: string, bytes: string): string {
    WholeOf(Tail(file) + bytes)
  }

  lemma {:induction false} CompletedGrows(file: string, bytes: string)
    ensures WholeOf(file + bytes) == WholeOf(file) + Completed(file, bytes)
    ensures Tail(Completed(file, bytes)) == ""
  {
    var w, more := WholeOf(file), Tail(file) + bytes;
    WholeAndTail(file);
    WholeAndTail(more);
    Assoc(w, Tail(file), bytes);
    LinesAppend(w, more);
    NothingAdded(more);
    SameTail(w, more, WholeOf(more), Tail(more));
  }

  // ---------------------------------------------------------------------
  // Steps
  // ---------------------------------------------------------------------

  function AnyGrown(h: History, g: Option<nat>, bytes: string): History {
    if g.Some? && g.value < |h| then h[g.value := h[g.value] + bytes] else h
  }

  /** As `Next`, but appended bytes may end anywhere. */
  function AnyNext(p: Parser, s: Node, st: Step): Node {
    match st
    case Append(b) => s.(hist := AnyGrown(s.hist, s.cur, b))
    case LateAppend(b) => s.(hist := AnyGrown(s.hist, s.one, b))
    case _ => Next(p, s, st)
  }

  function AnyRun(p: Parser, s: Node, steps: seq<Step>): Node {
    if steps == [] then s else AnyNext(p, AnyRun(p, s, steps[..|steps| - 1]), steps[|steps| - 1])
  }

  /** The same node without what is still unfinished in each file. */
  function Settled(s: Node): Node {
    s.(hist := seq(|s.hist|, g requires 0 <= g < |s.hist| => WholeOf(s.hist[g])))
  }

  function CompletedIn(h: History, g: Option<nat>, bytes: string): string {
    if g.Some? && g.value < |h| then Completed(h[g.value], bytes) else ""
  }

  /** The step as it looks over whole records. */
  function Whole(s: Node, st: Step): Step {
    match st
    case Append(b) => Append(CompletedIn(s.hist, s.cur, b))
    case LateAppend(b) => LateAppend(CompletedIn(s.hist, s.one, b))
    case _ => st
  }

  predicate WholeFile(f: Option<File>) {
    f.Some? ==> Tail(f.value.bytes) == ""
  }

  /** A tally meets complete lines only: in the current file, and in the predecessor it drains. */
  predicate ReadsWhole(s: Node, st: Step) {
    st.Tally? && s.mem.Some? ==>
      var v, cp := View(s, st), s.mem.value.cp;
      && WholeFile(v.cur)
      && (v.cur.Some? && cp.Some? && cp.value.inode != v.cur.value.inode ==> WholeFile(Predecessor(v, cp.value.inode)))
  }

  lemma {:induction false} GrownSettles(s: Node, g: Option<nat>, bytes: string)
    ensures Settled(s.(hist := AnyGrown(s.hist, g, bytes))).hist ==
        Grown(Settled(s).hist, g, CompletedIn(s.hist, g, bytes))
  {
    if g.Some? && g.value < |s.hist| { CompletedGrows(s.hist[g.value], bytes); }
  }

  predicate SameFile(f: Option<File>, w: Option<File>) {
    f.Some? == w.Some? && (f.Some? ==> f.value.inode == w.value.inode) && (WholeFile(f) ==> f == w)
  }

  lemma {:induction false} FileSettles(s: Node, g: Option<nat>, readable: bool)
    ensures SameFile(FileAt(s.hist, g, readable), FileAt(Settled(s).hist, g, readable))
  {
    if g.Some? && g.value < |s.hist| { WholeAndTail(s.hist[g.value]); }
  }

  /** A tally depends on the current file and the predecessor only. */
  lemma {:induction false} SameTally(p: Parser, a: Acc, v: LogView, w: LogView, now: Month)
    requires SameFile(v.cur, w.cur) && SameFile(v.one, w.one) && SameFile(v.two, w.two) && WholeFile(v.cur)
    requires v.cur.Some? && a.cp.Some? && a.cp.value.inode != v.cur.value.inode ==>
               WholeFile(Predecessor(v, a.cp.value.inode))
    ensures TallyOf(p, a, v, now) == TallyOf(p, a, w, now)
  {
    if a.cp.Some? && v.cur.Some? && a.cp.value.inode != v.cur.value.inode {
      assert Predecessor(v, a.cp.value.inode) == Predecessor(w, a.cp.value.inode);
    }
  }

  /** A tally that reads whole files does the same over the settled node. */
  lemma {:induction false} TallySettles(p: Parser, s: Node, st: Step)
    requires st.Tally? && s.mem.Some? && ReadsWhole(s, st)
    ensures TallyOf(p, s.mem.value, View(s, st), st.now) == TallyOf(p, s.mem.value, View(Settled(s), st), st.now)
  {
    FileSettles(s, s.cur, st.curReads);
    FileSettles(s, s.one, st.oneReads);
    FileSettles(s, s.two, st.twoReads);
    SameTally(p, s.mem.value, View(s, st), View(Settled(s), st), st.now);
  }

  lemma {:induction false} OnlyHistory(t: Node, s: Node, w: Node)
    requires t.hist == s.hist && w == t.(hist := Settled(s).hist)
    ensures Settled(t) == w
  {
  }

  lemma {:induction false} AfterTallySettles(p: Parser, s: Node, st: Step)
    requires st.Tally? && s.mem.Some? && ReadsWhole(s, st)
    ensures Settled(AfterTally(p, s, st)) == AfterTally(p, Settled(s), st)
  {
    TallySettles(p, s, st);
    OnlyHistory(AfterTally(p, s, st), s, AfterTally(p, Settled(s), st));
  }

  lemma {:induction false} NewLogSettles(s: Node)
    ensures Settled(s.(hist := s.hist + [""])).hist == Settled(s).hist + [""]
  {
    NoLines("");
  }

  lemma {:induction false} StepSettles(p: Parser, s: Node, st: Step)
    requires ReadsWhole(s, st)
    ensures Settled(AnyNext(p, s, st)) == Next(p, Settled(s), Whole(s, st))
  {
    match st
    case Append(b) => GrownSettles(s, s.cur, b);
    case LateAppend(b) => GrownSettles(s, s.one, b);
    case Tally(_, _, _, _, _, _) => if s.mem.Some? { AfterTallySettles(p, s, st); }
    case CreateLog => NewLogSettles(s);
    case _ =>
  }

  // ---------------------------------------------------------------------
  // Runs
  // ---------------------------------------------------------------------

  function WholeSteps(p: Parser, s: Node, steps: seq<Step>): (r: seq<Step>)
    ensures |r| == |steps|
  {
    if steps == [] then []
    else
      var init := steps[..|steps| - 1];
      WholeSteps(p, s, init) + [Whole(AnyRun(p, s, init), steps[|steps| - 1])]
  }

  /** No tally of the run is left holding a partial line. */
  predicate NothingHeldOver(p: Parser, s: Node, steps: seq<Step>) {
    steps == [] ||
    var init := steps[..|steps| - 1];
    NothingHeldOver(p, s, init) && ReadsWhole(AnyRun(p, s, init), steps[|steps| - 1])
  }

  lemma {:induction false} RunSettles(p: Parser, s: Node, steps: seq<Step>)
    requires WholeRecords(s.hist) && NothingHeldOver(p, s, steps)
    ensures Settled(AnyRun(p, s, steps)) == Run(p, s, WholeSteps(p, s, steps))
    decreases |steps|
  {
    if steps == [] {
      forall g | 0 <= g < |s.hist| ensures WholeOf(s.hist[g]) == s.hist[g] { WholeAndTail(s.hist[g]); }
      assert Settled(s).hist == s.hist;
    } else {
      var init, st := steps[..|steps| - 1], steps[|steps| - 1];
      RunSettles(p, s, init);
      StepSettles(p, AnyRun(p, s, init), st);
      Appended(WholeSteps(p, s, init), Whole(AnyRun(p, s, init), st));
    }
  }

  /** The bound holds however the bytes arrive, as long as no tally holds a partial line. */
  lemma {:induction false} BytesNeverOverbilled(p: Parser, s: Node, steps: seq<Step>)
    requires Initial(s) && NothingHeldOver(p, s, steps)
    requires AllRightStamp(Claim(p, false, 0, Load(s.disk)), s, WholeSteps(p, s, steps))
    ensures Inv(Claim(p, false, 0, Load(s.disk)), Settled(AnyRun(p, s, steps)))
  {
    RunSettles(p, s, steps);
    NeverOverbilled(p, s, WholeSteps(p, s, steps));
  }

  /**
   So does the exact sum: over bytes in any pieces, the totals on disk and in
   memory are the initial ones plus exactly the complete records in between.
   */
  lemma {:induction false} BytesBilledExactly(p: Parser, m: Month, s: Node, steps: seq<Step>, site: string)
    requires Initial(s) && (Load(s.disk).month == Some(m) || Load(s.disk).sites == map[])
    requires Load(s.disk).log.Some? && NothingHeldOver(p, s, steps)
    requires AllGentle(Claim(p, true, m, Load(s.disk)), s, WholeSteps(p, s, steps))
    requires AllRightStamp(Claim(p, true, m, Load(s.disk)), s, WholeSteps(p, s, steps))
    ensures Layout(Settled(AnyRun(p, s, steps)))
    ensures var t, l := AnyRun(p, s, steps), Load(s.disk);
            var h := Settled(t).hist;
            && BillsExactly(p, m, h, site, l, Load(t.disk).sites, Load(t.disk).log)
            && (t.mem.Some? ==> BillsExactly(p, m, h, site, l, t.mem.value.http, t.mem.value.cp))
  {
    RunSettles(p, s, steps);
    DurableTotalIsExact(p, m, s, WholeSteps(p, s, steps), site);
  }
}
