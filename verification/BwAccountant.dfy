/**
 The bandwidth accountant: one tally pass over the rotating log, its line
 reader and its persist step, first as functions and then as the class that
 changes its fields.
 */
module BwAccountant {
  import opened Common
  import opened BwLog
  import opened BwState

  /** A log file as a tally finds it; an unreadable one stats but does not open. */
  datatype File = File(inode: nat, bytes: string, readable: bool)

  /** `bandwidth.log`, `.1` and `.2`. */
  datatype LogView = LogView(cur: Option<File>, one: Option<File>, two: Option<File>)

  /** The accountant's fields. */
  datatype Acc = Acc(http: Totals, month: Option<Month>, cp: Option<Checkpoint>, partial: string)

  const FRESH := Acc(map[], None, None, "")

  // ---------------------------------------------------------------------
  // One read pass
  // ---------------------------------------------------------------------

  datatype Pass = Pass(lines: seq<string>, partial: string, offset: int)

  /** What a read pass feeds to the parser, what it holds and where it ends. */
  function ReadPass(held: string, f: File, from: int): Pass {
    if !f.readable || |f.bytes| < from || from < 0 then Pass([], held, from)
    else
      var data := held + f.bytes[from..];
      Pass(Lines(data), Tail(data), |f.bytes| - |Tail(data)|)
  }

  /** The documented pass: every complete line once, the tail re-read next time. */
  predicate CleanPass(r: Pass, f: File, from: nat)
    requires from <= |f.bytes|
  {
    && r.lines == Lines(f.bytes[from..])
    && r.partial == Tail(f.bytes[from..])
    && r.offset == |f.bytes| - |Tail(f.bytes[from..])|
  }

  /**
   A pass over a readable file is the documented one exactly when no partial
   line is held: a held line is both prepended and read again.
   */
  lemma {:induction false} PassIsCleanIff(held: string, f: File, from: nat)
    requires f.readable && from <= |f.bytes|
    requires '\n' !in held
    ensures CleanPass(ReadPass(held, f, from), f, from) <==> held == ""
  {
    var rest := f.bytes[from..];
    if held == "" {
      assert held + rest == rest;
    } else {
      var k := FirstNewline(rest);
      if k == |rest| {
        NoLines(rest);
        NoLines(held + rest);
      } else {
        var first := rest[..k + 1];
        assert held + rest == held + first + rest[k + 1..];
        LinesFirst(held, first, rest[k + 1..]);
        assert Lines(rest)[0] == first;
        assert |held + first| != |first|;
      }
    }
  }

  /** Where the read loop stands: lines fed so far, line held, bytes to come. */
  ghost predicate Reading(data: string, fed: seq<string>, held: string, rest: string) {
    && Lines(data) == fed + Lines(held + rest)
    && Tail(data) == Tail(held + rest)
    && '\n' !in held
  }

  lemma {:induction false} NothingHeld(s: string)
    ensures "" + s == s
  {
  }

  lemma {:induction false} FeedLine(data: string, fed: seq<string>, held: string, rest: string, k: nat)
    requires Reading(data, fed, held, rest) && k == FirstNewline(rest) < |rest|
    ensures Reading(data, fed + [held + rest[..k + 1]], "", rest[k + 1..])
  {
    var line, after := rest[..k + 1], rest[k + 1..];
    SplitAt(rest, k + 1);
    Assoc(held, line, after);
    LinesFirst(held, line, after);
    NothingHeld(after);
    Assoc(fed, [held + line], Lines(after));
  }

  lemma {:induction false} HoldTail(data: string, fed: seq<string>, held: string, rest: string)
    requires Reading(data, fed, held, rest) && FirstNewline(rest) == |rest|
    ensures Lines(data) == fed && Tail(data) == held + rest && '\n' !in held + rest
  {
    NoLines(held + rest);
  }

  lemma {:induction false} PassSlices(s: string, from: nat, ls: seq<string>, t: string)
    requires from <= |s| && Concat(ls) + t == s[from..]
    ensures from <= |s| - |t|
    ensures s[from..|s| - |t|] == Concat(ls) && s[|s| - |t|..] == t
  {
    var a := Concat(ls);
    assert s[from..][..|a|] == a && s[from..][|a|..] == t;
  }

  lemma {:induction false} FreshPass(f: File, from: nat)
    requires f.readable && from <= |f.bytes|
    ensures var rest := f.bytes[from..];
            ReadPass("", f, from) == Pass(Lines(rest), Tail(rest), |f.bytes| - |Tail(rest)|)
  {
    NothingHeld(f.bytes[from..]);
  }

  /** With nothing held, the new offset is just after the last newline. */
  lemma {:induction false} CleanPassOffset(f: File, from: nat)
    requires f.readable && from <= |f.bytes|
    ensures var r := ReadPass("", f, from);
            && from <= r.offset
            && f.bytes[from..r.offset] == Concat(r.lines)
            && f.bytes[r.offset..] == r.partial && '\n' !in r.partial
  {
    var rest := f.bytes[from..];
    FreshPass(f, from);
    LinesPartition(rest);
    TailHasNoNewline(rest);
    PassSlices(f.bytes, from, Lines(rest), Tail(rest));
  }

  lemma {:induction false} TailFrom(s: string, from: nat)
    requires Boundary(s, from)
    ensures Tail(s[from..]) == Tail(s)
  {
    assert s == s[..from] + s[from..];
    LinesAppend(s[..from], s[from..]);
    NothingHeld(s[from..]);
  }

  /** In a file of whole records a pass from a boundary ends at the end. */
  lemma {:induction false} PassToEnd(f: File, from: nat)
    requires f.readable && Boundary(f.bytes, from) && Tail(f.bytes) == ""
    ensures ReadPass("", f, from) == Pass(Lines(f.bytes[from..]), "", |f.bytes|)
  {
    FreshPass(f, from);
    TailFrom(f.bytes, from);
  }

  /**
   Two passes over one unfinished first line put the offset below zero; from
   there the seek fails and no later pass over the file reads anything.
   */
  lemma {:induction false} UnfinishedLineWitness(more: string)
    ensures var f := File(0, "ab", true);
            var r1 := ReadPass("", f, 0);
            var r2 := ReadPass(r1.partial, f, r1.offset);
            && r1 == Pass([], "ab", 0)
            && r2 == Pass([], "abab", -2)
            && ReadPass(r2.partial, File(0, "ab" + more, true), r2.offset) == r2.(lines := [])
  {
    assert "" + "ab"[0..] == "ab";
    assert "ab" + "ab"[0..] == "abab";
    NoLines("ab");
    NoLines("abab");
  }

  // ---------------------------------------------------------------------
  // One tally
  // ---------------------------------------------------------------------

  /** Month roll: the accumulator starts empty in a new period. */
  function Roll(a: Acc, cur: Month): Acc {
    if a.month != Some(cur) then a.(month := Some(cur), http := map[]) else a
  }

  /** Reads the file from the checkpoint on and folds what it finds. */
  function ReadInto(p: Parser, a: Acc, f: File): Acc
    requires a.cp.Some?
  {
    var r := ReadPass(a.partial, f, a.cp.value.offset);
    Acc(Fold(p, a.month, a.http, r.lines), a.month, Some(a.cp.value.(offset := r.offset)), r.partial)
  }

  /** The retained generation that still carries the checkpoint's inode. */
  function Predecessor(v: LogView, inode: nat): Option<File> {
    if v.one.Some? && v.one.value.inode == inode then v.one
    else if v.two.Some? && v.two.value.inode == inode then v.two
    else None
  }

  /** Same generation: a shrunk file is read again from zero. */
  function ReadSame(p: Parser, a: Acc, f: File): Acc
    requires a.cp.Some?
  {
    var c := a.cp.value;
    if |f.bytes| < c.offset then ReadInto(p, a.(cp := Some(c.(offset := 0)), partial := ""), f)
    else ReadInto(p, a, f)
  }

  /** New generation: drain the predecessor, then read the new file from zero. */
  function ReadRotated(p: Parser, a: Acc, v: LogView, f: File): Acc
    requires a.cp.Some?
  {
    var prev := Predecessor(v, a.cp.value.inode);
    var d := if prev.Some? then ReadInto(p, a, prev.value) else a;
    ReadInto(p, d.(partial := "", cp := Some(Checkpoint(f.inode, 0))), f)
  }

  /** A tally: the new fields, and whether it goes on to persist them. */
  function TallyOf(p: Parser, a0: Acc, v: LogView, cur: Month): (Acc, bool) {
    var a := Roll(a0, cur);
    match v.cur
    case None => (a, false)
    case Some(f) =>
      if a.cp.None? then (a.(cp := Some(Checkpoint(f.inode, |f.bytes|))), true)
      else if f.inode == a.cp.value.inode then (ReadSame(p, a, f), true)
      else (ReadRotated(p, a, v, f), true)
  }

  // ---------------------------------------------------------------------
  // What a tally does, branch by branch
  // ---------------------------------------------------------------------

  /** The totals a tally goes on from: those of its month, or none. */
  function Going(a: Acc, now: Month): Totals {
    if a.month == Some(now) then a.http else map[]
  }

  /** With no log there is only the month to roll. */
  lemma {:induction false} NoLogOnlyRolls(p: Parser, a: Acc, v: LogView, now: Month)
    requires v.cur.None?
    ensures TallyOf(p, a, v, now).0 == Acc(Going(a, now), Some(now), a.cp, a.partial)
  {
  }

  /** The first tally over a log bills nothing and starts at its end. */
  lemma {:induction false} FirstTallySeeksEnd(p: Parser, a: Acc, v: LogView, now: Month)
    requires v.cur.Some? && a.cp.None?
    ensures TallyOf(p, a, v, now).0 ==
            Acc(Going(a, now), Some(now), Some(Checkpoint(v.cur.value.inode, |v.cur.value.bytes|)), a.partial)
  {
  }

  /** In the same file a tally bills what follows its checkpoint, the held start of a line in front. */
  lemma {:induction false} SameFileReadsOn(p: Parser, a: Acc, v: LogView, now: Month, site: string)
    requires v.cur.Some? && v.cur.value.readable && a.cp.Some? && v.cur.value.inode == a.cp.value.inode
    requires 0 <= a.cp.value.offset <= |v.cur.value.bytes|
    ensures var data := a.partial + v.cur.value.bytes[a.cp.value.offset..];
            var r := TallyOf(p, a, v, now).0;
            && Get(r.http, site) == Get(Going(a, now), site) + BillBytes(p, now, site, data)
            && r.cp == Some(Checkpoint(v.cur.value.inode, |v.cur.value.bytes| - |Tail(data)|))
            && r.partial == Tail(data)
  {
    var data := a.partial + v.cur.value.bytes[a.cp.value.offset..];
    FoldBills(p, now, Going(a, now), Lines(data), site);
  }

  /** A file that shrank below the checkpoint is billed again from its start, without the held line. */
  lemma {:induction false} ShrunkFileIsReadAgain(p: Parser, a: Acc, v: LogView, now: Month, site: string)
    requires v.cur.Some? && v.cur.value.readable && a.cp.Some? && v.cur.value.inode == a.cp.value.inode
    requires |v.cur.value.bytes| < a.cp.value.offset
    ensures var data := v.cur.value.bytes;
            var r := TallyOf(p, a, v, now).0;
            && Get(r.http, site) == Get(Going(a, now), site) + BillBytes(p, now, site, data)
            && r.cp == Some(Checkpoint(v.cur.value.inode, |data| - |Tail(data)|)) && r.partial == Tail(data)
  {
    FromStart(v.cur.value);
    FoldBills(p, now, Going(a, now), Lines(v.cur.value.bytes), site);
  }

  lemma {:induction false} FromStart(f: File)
    requires f.readable
    ensures ReadPass("", f, 0) == Pass(Lines(f.bytes), Tail(f.bytes), |f.bytes| - |Tail(f.bytes)|)
  {
    NothingHeld(f.bytes[0..]);
    assert f.bytes[0..] == f.bytes;
  }

  lemma {:induction false} DrainedTotals(p: Parser, a: Acc, v: LogView, now: Month, f: File)
    requires v.cur.Some? && v.cur.value.readable && a.cp.Some? && v.cur.value.inode != a.cp.value.inode
    requires f.inode == a.cp.value.inode && f.readable && 0 <= a.cp.value.offset <= |f.bytes|
    requires v.one == Some(f) || (v.two == Some(f) && (v.one.None? || v.one.value.inode != f.inode))
    ensures var data, more := a.partial + f.bytes[a.cp.value.offset..], v.cur.value.bytes;
            TallyOf(p, a, v, now).0 ==
            Acc(Fold(p, Some(now), Fold(p, Some(now), Going(a, now), Lines(data)), Lines(more)), Some(now),
                Some(Checkpoint(v.cur.value.inode, |more| - |Tail(more)|)), Tail(more))
  {
    var b, cur := Roll(a, now), v.cur.value;
    var d := ReadInto(p, b, f);
    ReadsInto(p, b, f);
    FromStart(cur);
    assert ReadRotated(p, b, v, cur) == ReadInto(p, d.(partial := "", cp := Some(Checkpoint(cur.inode, 0))), cur);
  }

  lemma {:induction false} ReadsInto(p: Parser, a: Acc, f: File)
    requires a.cp.Some? && f.readable && 0 <= a.cp.value.offset <= |f.bytes|
    ensures var data := a.partial + f.bytes[a.cp.value.offset..];
            ReadInto(p, a, f) == Acc(Fold(p, a.month, a.http, Lines(data)), a.month,
                                     Some(Checkpoint(a.cp.value.inode, |f.bytes| - |Tail(data)|)), Tail(data))
  {
  }

  /** After a rotation the rest of the file the checkpoint is in is billed first, then the new file from its start. */
  lemma {:induction false} RotatedDrains(p: Parser, a: Acc, v: LogView, now: Month, f: File, site: string)
    requires v.cur.Some? && v.cur.value.readable && a.cp.Some? && v.cur.value.inode != a.cp.value.inode
    requires f.inode == a.cp.value.inode && f.readable && 0 <= a.cp.value.offset <= |f.bytes|
    requires v.one == Some(f) || (v.two == Some(f) && (v.one.None? || v.one.value.inode != f.inode))
    ensures var data, more := a.partial + f.bytes[a.cp.value.offset..], v.cur.value.bytes;
            var r := TallyOf(p, a, v, now).0;
            && Get(r.http, site) ==
               Get(Going(a, now), site) + BillBytes(p, now, site, data) + BillBytes(p, now, site, more)
            && r.cp == Some(Checkpoint(v.cur.value.inode, |more| - |Tail(more)|)) && r.partial == Tail(more)
  {
    var data := a.partial + f.bytes[a.cp.value.offset..];
    DrainedTotals(p, a, v, now, f);
    FoldBills(p, now, Going(a, now), Lines(data), site);
    FoldBills(p, now, Fold(p, Some(now), Going(a, now), Lines(data)), Lines(v.cur.value.bytes), site);
  }

  /** When neither retained file is the checkpoint's, only the new one is billed, and the held line is dropped. */
  lemma {:induction false} RotatedSkips(p: Parser, a: Acc, v: LogView, now: Month, site: string)
    requires v.cur.Some? && v.cur.value.readable && a.cp.Some? && v.cur.value.inode != a.cp.value.inode
    requires v.one.Some? ==> v.one.value.inode != a.cp.value.inode
    requires v.two.Some? ==> v.two.value.inode != a.cp.value.inode
    ensures var more := v.cur.value.bytes;
            var r := TallyOf(p, a, v, now).0;
            && Get(r.http, site) == Get(Going(a, now), site) + BillBytes(p, now, site, more)
            && r.cp == Some(Checkpoint(v.cur.value.inode, |more| - |Tail(more)|)) && r.partial == Tail(more)
  {
    FromStart(v.cur.value);
    FoldBills(p, now, Going(a, now), Lines(v.cur.value.bytes), site);
  }

  /** A file that cannot be opened is left where it is, and bills nothing. */
  lemma {:induction false} UnreadableFileWaits(p: Parser, a: Acc, v: LogView, now: Month)
    requires v.cur.Some? && !v.cur.value.readable && a.cp.Some? && v.cur.value.inode == a.cp.value.inode
    requires a.cp.value.offset <= |v.cur.value.bytes|
    ensures TallyOf(p, a, v, now).0 == Acc(Going(a, now), Some(now), a.cp, a.partial)
  {
  }

  /** What a line is billed: both byte counts of a record of the month, to its site alone. */
  lemma {:induction false} LineIsBilled(p: Parser, now: Month, t: Totals, line: string, site: string)
    ensures Get(FoldLine(p, Some(now), t, line), site) == Get(t, site) +
            match p(TrimCRLF(line))
            case Some(Record(s, Day(m, _), req, resp)) => if s == site && m == now then req + resp else 0
            case None => 0
  {
  }

  /** The parser sees a line without the CR and LF bytes at its end, and with all others. */
  lemma {:induction false} TrimmedLine(line: string)
    ensures var s := TrimCRLF(line);
            && s <= line && (s == "" || (s[|s| - 1] != '\n' && s[|s| - 1] != '\r'))
            && forall i :: |s| <= i < |line| ==> line[i] == '\n' || line[i] == '\r'
    decreases |line|
  {
    if line != "" && (line[|line| - 1] == '\n' || line[|line| - 1] == '\r') { TrimmedLine(line[..|line| - 1]); }
  }

  /** The enforcement sum is the counters and, if the totals are of this month, the site's total. */
  lemma {:induction false} PeriodBytesIs(a: Acc, site: string, now: Month, rx: nat, tx: nat)
    ensures PeriodBytes(a, site, now, rx, tx) == rx + tx + Get(Going(a, now), site)
  {
  }

  /** The state a persist writes: chains as loaded, totals and checkpoint from memory. */
  function Persisted(st: State, a: Acc, cur: Month): State {
    State(Some(cur), st.chains, if a.month == Some(cur) then a.http else st.sites, a.cp)
  }

  /** Restore at boot; a snapshot of another month seeds nothing. */
  function Restored(st: State, cur: Month): Acc {
    if st.month == Some(cur)
    then Acc(map s | s in st.sites && st.sites[s] > 0 :: st.sites[s], Some(cur), st.log, "")
    else Acc(map[], None, st.log, "")
  }

  function RestoredOver(a: Acc, st: State, cur: Month): Acc {
    if st.month == Some(cur)
    then Acc(a.http + map s | s in st.sites && st.sites[s] > 0 :: st.sites[s], Some(cur), st.log, a.partial)
    else a.(cp := st.log)
  }

  /** A boot takes over the totals of the current month and the checkpoint of any, and holds nothing. */
  lemma {:induction false} RestoredIs(st: State, now: Month, site: string)
    ensures var a := RestoredOver(FRESH, st, now);
            && a == Restored(st, now) && a.cp == st.log && a.partial == ""
            && Get(a.http, site) == (if st.month == Some(now) then Get(st.sites, site) else 0)
            && (site in a.http ==> a.http[site] > 0)
  {
  }

  /** The site's month-to-date bytes and their month, none without traffic. */
  function MonthEgress(a: Acc, site: string): (nat, Option<Month>) {
    if site in a.http then (a.http[site], a.month) else (0, None)
  }

  /** The enforcement sum: counters plus HTTP bytes of the current month only. */
  function PeriodBytes(a: Acc, site: string, now: Month, rx: nat, tx: nat): nat {
    var (eg, m) := MonthEgress(a, site);
    rx + tx + (if m == Some(now) then eg else 0)
  }

  // ---------------------------------------------------------------------
  // The accountant itself
  // ---------------------------------------------------------------------

  class Accountant {
    const parse: Parser
    var http: Totals
    var httpMonth: Option<Month>
    var cp: Option<Checkpoint>
    var partial: string

    function Fields(): Acc
      reads this
    {
      Acc(http, httpMonth, cp, partial)
    }

    constructor (parse: Parser)
      ensures Fields() == FRESH && this.parse == parse
    {
      this.parse := parse;
      http, httpMonth, cp, partial := map[], None, None, "";
    }

    /** Positive totals of the current month go over what is there; the checkpoint is always taken. */
    method Restore(st: State, cur: Month)
      modifies this`http, this`httpMonth, this`cp
      ensures Fields() == RestoredOver(old(Fields()), st, cur)
      ensures old(Fields()) == FRESH ==> Fields() == Restored(st, cur)
    {
      if st.month == Some(cur) {
        http := http + map s | s in st.sites && st.sites[s] > 0 :: st.sites[s];
        httpMonth := Some(cur);
      }
      cp := st.log;
    }

    method ParseLine(line: string)
      modifies this`http
      ensures http == FoldLine(parse, httpMonth, old(http), line)
    {
      var rec := ParseRecord(parse, line);
      if rec.None? {
        return;
      }
      var r := rec.value;
      if Some(r.day.month) != httpMonth {
        return;
      }
      http := http[r.site := Get(http, r.site) + (r.req + r.resp)];
    }

    /** readRange: chunk by chunk to the end of the file. */
    method ReadRange(f: File, from: int) returns (offset: int)
      requires '\n' !in partial
      modifies this`http, this`partial
      ensures var r := ReadPass(old(partial), f, from);
              && http == Fold(parse, httpMonth, old(http), r.lines)
              && partial == r.partial && offset == r.offset
      ensures '\n' !in partial
    {
      if !f.readable || |f.bytes| < from {
        return from;
      }
      if from < 0 {
        return from;
      }
      ghost var data := partial + f.bytes[from..];
      ghost var fed: seq<string> := [];
      var rest := f.bytes[from..];
      var consumed: nat := 0;
      var k := FirstNewline(rest);
      while k < |rest|
        invariant consumed + |rest| == |f.bytes| - from
        invariant k == FirstNewline(rest)
        invariant Reading(data, fed, partial, rest)
        invariant http == Fold(parse, httpMonth, old(http), fed)
        decreases |rest|
      {
        FeedLine(data, fed, partial, rest, k);
        var line := partial + rest[..k + 1];
        partial := "";
        ParseLine(line);
        fed := fed + [line];
        consumed := consumed + (k + 1);
        rest := rest[k + 1..];
        k := FirstNewline(rest);
      }
      HoldTail(data, fed, partial, rest);
      partial := partial + rest;
      consumed := consumed + |rest|;
      return from + consumed - |partial|;
    }

    method PersistLocked(cur: Month, store: Store, now: Month, run: SaveRun)
      requires cp.Some?
      modifies store
      ensures store.Files() ==
              Save(old(store.Files()), Persisted(Load(old(store.Files())), Fields(), cur).(month := Some(now)), run)
    {
      var st := Load(store.Files());
      st := st.(month := Some(cur));
      if httpMonth == Some(cur) {
        st := st.(sites := http);
      }
      st := st.(log := cp);
      var _ := store.SaveState(st, now, run);
    }

    /** The candidate loop: the first retained generation with the checkpoint's inode is read to its end. */
    method DrainPredecessor(v: LogView)
      requires cp.Some? && '\n' !in partial
      modifies this`http, this`cp, this`partial
      ensures var a := old(Fields());
              var prev := Predecessor(v, a.cp.value.inode);
              Fields() == if prev.Some? then ReadInto(parse, a, prev.value) else a
      ensures '\n' !in partial
    {
      var candidates := [v.one, v.two];
      var i, drained := 0, false;
      while i < 2 && !drained
        invariant 0 <= i <= 2 && cp.Some? && '\n' !in partial
        invariant !drained ==> Fields() == old(Fields())
        invariant !drained && i >= 1 ==> !(v.one.Some? && v.one.value.inode == cp.value.inode)
        invariant !drained && i >= 2 ==> !(v.two.Some? && v.two.value.inode == cp.value.inode)
        invariant drained ==>
                    var a := old(Fields());
                    Predecessor(v, a.cp.value.inode).Some? &&
                    Fields() == ReadInto(parse, a, Predecessor(v, a.cp.value.inode).value)
      {
        var cand := candidates[i];
        if cand.Some? && cand.value.inode == cp.value.inode {
          var o := ReadRange(cand.value, cp.value.offset);
          cp := Some(cp.value.(offset := o));
          drained := true;
        }
        i := i + 1;
      }
    }

    /** The three ways a tally reads on: from the end of a first file, in the same file, or across a rotation. */
    method Advance(v: LogView)
      requires '\n' !in partial && v.cur.Some? && httpMonth.Some?
      modifies this
      ensures Fields() == TallyOf(parse, old(Fields()), v, old(httpMonth).value).0
      ensures '\n' !in partial
    {
      var f := v.cur.value;
      if cp.None? {
        cp := Some(Checkpoint(f.inode, |f.bytes|));
        return;
      }
      if f.inode == cp.value.inode {
        if |f.bytes| < cp.value.offset {
          cp := Some(cp.value.(offset := 0));
          partial := "";
        }
        var o := ReadRange(f, cp.value.offset);
        cp := Some(cp.value.(offset := o));
        return;
      }
      DrainPredecessor(v);
      partial := "";
      cp := Some(Checkpoint(f.inode, 0));
      var o := ReadRange(f, 0);
      cp := Some(cp.value.(offset := o));
    }

    method Tally(v: LogView, cur: Month, store: Store, now: Month, run: SaveRun)
      requires '\n' !in partial
      modifies this, store
      ensures Fields() == TallyOf(parse, old(Fields()), v, cur).0
      ensures '\n' !in partial
      ensures var fs := old(store.Files());
              store.Files() ==
              if TallyOf(parse, old(Fields()), v, cur).1
              then Save(fs, Persisted(Load(fs), Fields(), cur).(month := Some(now)), run)
              else fs
      ensures v.cur.None? ==> store.Files() == old(store.Files())
      ensures v.cur.Some? && run.Complete? ==>
                var before := Load(old(store.Files()));
                Load(store.Files()) == State(Some(now), before.chains, http, cp)
    {
      if httpMonth != Some(cur) {
        httpMonth := Some(cur);
        http := map[];
      }
      if v.cur.None? {
        return;
      }
      Advance(v);
      PersistLocked(cur, store, now, run);
    }
  }
}
