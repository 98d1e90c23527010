/**
 The accounting log as bytes: complete lines, the unfinished tail, the record
 carried by a line and the bytes a site is billed for.
 */
module BwLog {

  import opened Common

  /** A UTC month, counted from a fixed epoch, and a day inside it. */
  type Month = int
  datatype Day = Day(month: Month, dom: int)

  /** One accepted accounting record. */
  datatype Record = Record(site: string, day: Day, req: nat, resp: nat)

  /** The field parser; it sees a line without its trailing CR and LF bytes. */
  type Parser = string -> Option<Record>

  // ---------------------------------------------------------------------
  // Lines
  // ---------------------------------------------------------------------

  /** Index of the first newline at or after `i`, or the length when there is none. */
  function NewlineFrom(s: string, i: nat): (k: nat)
    requires i <= |s|
    ensures i <= k <= |s|
    ensures k < |s| ==> s[k] == '\n'
    ensures forall j :: i <= j < k ==> s[j] != '\n'
    decreases |s| - i
  {
    if i == |s| || s[i] == '\n' then i else NewlineFrom(s, i + 1)
  }

  function FirstNewline(s: string): (k: nat)
    ensures k <= |s|
    ensures k < |s| ==> s[k] == '\n'
    ensures forall j :: 0 <= j < k ==> s[j] != '\n'
  {
    NewlineFrom(s, 0)
  }

  /** The complete lines of `s`, each with its newline. */
  function Lines(s: string): (r: seq<string>)
    decreases |s|
  {
    var k := FirstNewline(s);
    if k == |s| then [] else [s[..k + 1]] + Lines(s[k + 1..])
  }

  /** What follows the last newline of `s`. */
  function Tail(s: string): (r: string)
    decreases |s|
  {
    var k := FirstNewline(s);
    if k == |s| then s else Tail(s[k + 1..])
  }

  function Concat(ls: seq<string>): string {
    if ls == [] then "" else ls[0] + Concat(ls[1..])
  }

  /** A chunk as returned by a read up to and including a newline. */
  predicate WholeLine(l: string) {
    l != "" && l[|l| - 1] == '\n' && forall i :: 0 <= i < |l| - 1 ==> l[i] != '\n'
  }

  lemma {:induction false} ConcatCons(l: string, ls: seq<string>, t: string)
    ensures Concat([l] + ls) + t == l + (Concat(ls) + t)
  {
    assert ([l] + ls)[1..] == ls;
    Assoc(l, Concat(ls), t);
  }

  lemma {:induction false} FirstNewlineUnique(s: string, k: nat)
    requires k < |s| && s[k] == '\n'
    requires forall i :: 0 <= i < k ==> s[i] != '\n'
    ensures FirstNewline(s) == k
  {
  }

  lemma {:induction false} LineOff(line: string, rest: string)
    requires WholeLine(line)
    ensures Lines(line + rest) == [line] + Lines(rest) && Tail(line + rest) == Tail(rest)
  {
    var s := line + rest;
    FirstNewlineUnique(s, |line| - 1);
    assert s[..|line|] == line && s[|line|..] == rest;
  }

  lemma {:induction false} PartitionStep(s: string, k: nat, ls: seq<string>, t: string)
    requires k == FirstNewline(s) < |s|
    requires ls == Lines(s[k + 1..]) && t == Tail(s[k + 1..])
    requires Concat(ls) + t == s[k + 1..]
    ensures Concat(Lines(s)) + Tail(s) == s
  {
    SplitAt(s, k + 1);
    LineOff(s[..k + 1], s[k + 1..]);
    ConcatCons(s[..k + 1], ls, t);
  }

  /** Lines and tail split the bytes without losing, adding or reordering any. */
  lemma {:induction false} LinesPartition(s: string)
    ensures Concat(Lines(s)) + Tail(s) == s
    decreases |s|
  {
    var k := FirstNewline(s);
    if k < |s| {
      LinesPartition(s[k + 1..]);
      PartitionStep(s, k, Lines(s[k + 1..]), Tail(s[k + 1..]));
    }
  }

  lemma {:induction false} TailHasNoNewline(s: string)
    ensures '\n' !in Tail(s)
    decreases |s|
  {
    var k := FirstNewline(s);
    if k < |s| { TailHasNoNewline(s[k + 1..]); }
  }

  /** Every complete line holds exactly one newline, at its end. */
  lemma {:induction false} LinesWhole(s: string, i: nat)
    requires i < |Lines(s)|
    ensures WholeLine(Lines(s)[i])
    decreases |s|
  {
    if i > 0 {
      LinesWhole(s[FirstNewline(s) + 1..], i - 1);
    }
  }

  /** Reading on: the bytes that follow complete the tail first. */
  lemma {:induction false} LinesAppend(a: string, b: string)
    ensures Lines(a + b) == Lines(a) + Lines(Tail(a) + b)
    ensures Tail(a + b) == Tail(Tail(a) + b)
    decreases |a|
  {
    var k := FirstNewline(a);
    if k == |a| {
      NothingAdded(Lines(a + b));
    } else {
      var line, rest := a[..k + 1], a[k + 1..];
      LinesAppend(rest, b);
      SplitAt(a, k + 1);
      Assoc(line, rest, b);
      LineOff(line, rest);
      LineOff(line, rest + b);
      Assoc([line], Lines(rest), Lines(Tail(rest) + b));
    }
  }

  /** A newline-free start followed by a whole line gives that one line. */
  lemma {:induction false} LinesFirst(p: string, chunk: string, rest: string)
    requires '\n' !in p && WholeLine(chunk)
    ensures Lines(p + chunk + rest) == [p + chunk] + Lines(rest)
    ensures Tail(p + chunk + rest) == Tail(rest)
  {
    LineOff(p + chunk, rest);
  }

  lemma {:induction false} NoLines(s: string)
    requires '\n' !in s
    ensures Lines(s) == [] && Tail(s) == s
  {
    assert FirstNewline(s) == |s|;
  }

  /** A position at which a line starts (or would start). */
  predicate Boundary(s: string, o: nat) {
    o <= |s| && Tail(s[..o]) == ""
  }

  lemma {:induction false} BoundarySplit(s: string, a: nat, b: nat)
    requires a <= b && Boundary(s, a) && Boundary(s, b)
    ensures Tail(s[a..b]) == ""
    ensures Lines(s[..b]) == Lines(s[..a]) + Lines(s[a..b])
  {
    assert s[..b] == s[..a] + s[a..b];
    LinesAppend(s[..a], s[a..b]);
    assert "" + s[a..b] == s[a..b];
  }

  // ---------------------------------------------------------------------
  // Records and billing
  // ---------------------------------------------------------------------

  /** The parser trims trailing CR and LF bytes before it splits fields. */
  function TrimCRLF(s: string): string {
    if s != "" && (s[|s| - 1] == '\n' || s[|s| - 1] == '\r') then TrimCRLF(s[..|s| - 1]) else s
  }

  function ParseRecord(p: Parser, line: string): Option<Record> {
    p(TrimCRLF(line))
  }

  /** Bytes that one line bills to `site` in month `m`. */
  function LineBytes(p: Parser, m: Month, site: string, line: string): nat {
    match ParseRecord(p, line)
    case Some(r) => if r.site == site && r.day.month == m then r.req + r.resp else 0
    case None => 0
  }

  function Bill(p: Parser, m: Month, site: string, ls: seq<string>): nat {
    if ls == [] then 0
    else Bill(p, m, site, ls[..|ls| - 1]) + LineBytes(p, m, site, ls[|ls| - 1])
  }

  function BillBytes(p: Parser, m: Month, site: string, s: string): nat {
    Bill(p, m, site, Lines(s))
  }

  lemma {:induction false} BillConcat(p: Parser, m: Month, site: string, a: seq<string>, b: seq<string>)
    ensures Bill(p, m, site, a + b) == Bill(p, m, site, a) + Bill(p, m, site, b)
    decreases |b|
  {
    if b == [] {
      assert a + b == a;
    } else {
      BillConcat(p, m, site, a, b[..|b| - 1]);
      assert (a + b)[..|a + b| - 1] == a + b[..|b| - 1];
    }
  }

  lemma {:induction false} BillBytesAppend(p: Parser, m: Month, site: string, a: string, b: string)
    requires Tail(a) == ""
    ensures BillBytes(p, m, site, a + b) == BillBytes(p, m, site, a) + BillBytes(p, m, site, b)
    ensures Tail(a + b) == Tail(b)
  {
    LinesAppend(a, b);
    assert "" + b == b;
    BillConcat(p, m, site, Lines(a), Lines(b));
  }

  // ---------------------------------------------------------------------
  // Per-site totals
  // ---------------------------------------------------------------------

  type Totals = map<string, nat>

  function Get(t: Totals, site: string): nat {
    if site in t then t[site] else 0
  }

  /** Folds one line into the totals of month `m`. */
  function FoldLine(p: Parser, m: Option<Month>, t: Totals, line: string): Totals {
    match ParseRecord(p, line)
    case Some(r) =>
      if Some(r.day.month) == m then t[r.site := Get(t, r.site) + (r.req + r.resp)] else t
    case None => t
  }

  function Fold(p: Parser, m: Option<Month>, t: Totals, ls: seq<string>): Totals {
    if ls == [] then t
    else FoldLine(p, m, Fold(p, m, t, ls[..|ls| - 1]), ls[|ls| - 1])
  }

  lemma {:induction false} FoldBills(p: Parser, m: Month, t: Totals, ls: seq<string>, site: string)
    ensures Get(Fold(p, Some(m), t, ls), site) == Get(t, site) + Bill(p, m, site, ls)
    decreases |ls|
  {
    if ls != [] {
      FoldBills(p, m, t, ls[..|ls| - 1], site);
    }
  }
}
