/**
 The alert engine: breach counters and open alerts per rule and subject in
 memory, alert rows in the table.
 */
module Alerts {
  import opened Common
  import opened Text

  datatype Comparison = Gt | Lt | Unknown

  datatype Rule = Rule(id: string, name: string, threshold: bool, comparison: Comparison,
                       limit: real, duration: int, margin: real)

  /** The assumed seconds between samples. */
  function SweepUnit(r: Rule): int {
    if r.duration <= 0 then 1 else if r.duration < 30 then r.duration else 30
  }

  predicate Breaching(r: Rule, v: real) {
    (r.comparison == Gt && v > r.limit) || (r.comparison == Lt && v < r.limit)
  }

  predicate Recovering(r: Rule, v: real) {
    !Breaching(r, v) &&
    ((r.comparison == Gt && v <= r.limit - r.margin) || (r.comparison == Lt && v >= r.limit + r.margin))
  }

  /** Consecutive breaching samples it takes to raise. */
  function Needed(r: Rule): (n: nat)
    ensures n >= 1
  {
    if r.duration < 30 then 1 else (r.duration + 29) / 30
  }

  /** The engine's product test is this count. */
  lemma {:induction false} NeededIsTest(r: Rule, consecutive: nat)
    requires consecutive >= 1
    ensures consecutive * SweepUnit(r) >= r.duration <==> consecutive >= Needed(r)
  {
    if r.duration >= 30 {
      assert SweepUnit(r) == 30;
    } else if r.duration > 0 {
      assert consecutive * r.duration >= r.duration;
    }
  }

  // ---------------------------------------------------------------------
  // One rule and subject
  // ---------------------------------------------------------------------

  /** A sample as it bears on one key: the rule's value at that time, and whether an insert would succeed. */
  datatype Reading = Reading(r: Rule, v: real, inserts: bool)

  datatype Cell = Cell(breach: nat, open: bool)

  /** One reading's effect. Whether an update succeeds does not matter to it. */
  function CellStep(c: Cell, x: Reading): Cell {
    if Breaching(x.r, x.v) then
      Cell(c.breach + 1, c.open || (x.inserts && (c.breach + 1) * SweepUnit(x.r) >= x.r.duration))
    else Cell(0, c.open && !Recovering(x.r, x.v))
  }

  function CellRun(xs: seq<Reading>): Cell {
    if xs == [] then Cell(0, false) else CellStep(CellRun(xs[..|xs| - 1]), xs[|xs| - 1])
  }

  /** A streak of the length the rule then needs ends at position `i`. */
  predicate Fires(xs: seq<Reading>, i: nat)
    requires i < |xs|
  {
    var n := Needed(xs[i].r);
    i + 1 >= n && forall j :: i + 1 - n <= j <= i ==> Breaching(xs[j].r, xs[j].v)
  }

  /** The counter is the length of the breaching suffix. */
  lemma {:induction false} BreachIsSuffix(xs: seq<Reading>)
    ensures CellRun(xs).breach <= |xs|
    ensures forall j :: |xs| - CellRun(xs).breach <= j < |xs| ==> Breaching(xs[j].r, xs[j].v)
    ensures CellRun(xs).breach < |xs| ==>
              var x := xs[|xs| - 1 - CellRun(xs).breach]; !Breaching(x.r, x.v)
    decreases |xs|
  {
    if xs != [] { BreachIsSuffix(xs[..|xs| - 1]); }
  }

  lemma {:induction false} FiresIffCounted(xs: seq<Reading>)
    requires xs != []
    ensures var x := xs[|xs| - 1];
            Fires(xs, |xs| - 1) <==>
            Breaching(x.r, x.v) && CellRun(xs).breach * SweepUnit(x.r) >= x.r.duration
  {
    var x, n := xs[|xs| - 1], CellRun(xs).breach;
    BreachIsSuffix(xs);
    if Breaching(x.r, x.v) {
      assert n >= 1;
      NeededIsTest(x.r, n);
      if n < Needed(x.r) <= |xs| {
        assert !Breaching(xs[|xs| - 1 - n].r, xs[|xs| - 1 - n].v);
      }
    } else {
      assert Needed(x.r) >= 1;
    }
  }

  /** Fired and inserted at `i`, and nothing after it recovered. */
  predicate FiresSince(xs: seq<Reading>, i: nat) {
    i < |xs| && Fires(xs, i) && xs[i].inserts && forall j :: i < j < |xs| ==> !Recovering(xs[j].r, xs[j].v)
  }

  /** Raised at some position and not recovered since. */
  ghost predicate StillFiring(xs: seq<Reading>) {
    exists i :: 0 <= i < |xs| && FiresSince(xs, i)
  }

  lemma {:induction false} FiresPrefix(xs: seq<Reading>, i: nat)
    requires i < |xs| - 1
    ensures Fires(xs[..|xs| - 1], i) <==> Fires(xs, i)
  {
    var init := xs[..|xs| - 1];
    assert forall j :: 0 <= j < |init| ==> init[j] == xs[j];
  }

  lemma {:induction false} FiresSinceNext(xs: seq<Reading>, i: nat)
    requires i < |xs| - 1
    ensures var x := xs[|xs| - 1];
            FiresSince(xs, i) <==> FiresSince(xs[..|xs| - 1], i) && !Recovering(x.r, x.v)
  {
    var init := xs[..|xs| - 1];
    FiresPrefix(xs, i);
    assert forall j :: 0 <= j < |init| ==> init[j] == xs[j];
  }

  lemma {:induction false} StillFiringNext(xs: seq<Reading>)
    requires xs != []
    ensures var init, x := xs[..|xs| - 1], xs[|xs| - 1];
            StillFiring(xs) <==> (Fires(xs, |xs| - 1) && x.inserts) || (StillFiring(init) && !Recovering(x.r, x.v))
  {
    var n := |xs| - 1;
    var init := xs[..n];
    forall i | 0 <= i < n
      ensures FiresSince(xs, i) <==> FiresSince(init, i) && !Recovering(xs[n].r, xs[n].v)
    {
      FiresSinceNext(xs, i);
    }
    assert FiresSince(xs, n) <==> Fires(xs, n) && xs[n].inserts;
    if i :| 0 <= i < n && FiresSince(init, i) {
      assert FiresSince(xs, i) <==> !Recovering(xs[n].r, xs[n].v);
    }
  }

  /**
   After any trace, with rules tuned and inserts and updates failing at will, an
   alert is open exactly when some position ended a breach streak of the length
   then needed, its insert succeeded, and no later sample met the recovery
   margin.
   */
  lemma {:induction false} OpenIffStillFiring(xs: seq<Reading>)
    ensures CellRun(xs).open <==> StillFiring(xs)
    decreases |xs|
  {
    if xs != [] {
      OpenIffStillFiring(xs[..|xs| - 1]);
      StillFiringNext(xs);
      FiresIffCounted(xs);
    }
  }

  // ---------------------------------------------------------------------
  // The engine
  // ---------------------------------------------------------------------

  datatype Kind = Raised | Resolved
  datatype Event = Event(key: string, kind: Kind)

  /** A row of the alerts table; `typ` and `subject` are unique among unresolved rows. */
  datatype Row = Row(typ: string, subject: string, occurrences: nat, resolved: bool)

  datatype State = State(breach: map<string, nat>, open: map<string, nat>, table: map<nat, Row>, events: seq<Event>)

  function KeyOf(r: Rule, subject: string): string {
    r.id + "|" + subject
  }

  function Count(m: map<string, nat>, k: string): nat {
    if k in m then m[k] else 0
  }

  /** What the database does: whether an insert and an update succeed. */
  datatype Db = Db(inserts: bool, updates: bool)

  predicate Conflict(table: map<nat, Row>, typ: string, subject: string) {
    exists id :: id in table && table[id].typ == typ && table[id].subject == subject && !table[id].resolved
  }

  /** Insert, or nothing when an unresolved row of that type and subject exists. */
  function Inserted(table: map<nat, Row>, aid: nat, typ: string, subject: string): map<nat, Row> {
    if Conflict(table, typ, subject) then table else table[aid := Row(typ, subject, 1, false)]
  }

  function Bumped(table: map<nat, Row>, id: nat): map<nat, Row> {
    if id in table then table[id := table[id].(occurrences := table[id].occurrences + 1)] else table
  }

  function Closed(table: map<nat, Row>, id: nat): map<nat, Row> {
    if id in table then table[id := table[id].(resolved := true)] else table
  }

  function RaisedState(s: State, r: Rule, subject: string, aid: nat, db: Db): State {
    var k := KeyOf(r, subject);
    if k in s.open then s.(table := if db.updates then Bumped(s.table, s.open[k]) else s.table)
    else if !db.inserts then s
    else
      s.(open := s.open[k := aid], table := Inserted(s.table, aid, "rule." + r.name, subject),
         events := s.events + [Event(k, Raised)])
  }

  function ResolvedState(s: State, r: Rule, subject: string, db: Db): State {
    var k := KeyOf(r, subject);
    if k !in s.open then s
    else if !db.updates then s.(open := s.open - {k})
    else
      s.(open := s.open - {k}, table := Closed(s.table, s.open[k]), events := s.events + [Event(k, Resolved)])
  }

  function Evaluated(s: State, r: Rule, subject: string, v: real, aid: nat, db: Db): State {
    if !r.threshold then s
    else
      var k := KeyOf(r, subject);
      var n := if Breaching(r, v) then Count(s.breach, k) + 1 else 0;
      var s1 := s.(breach := s.breach[k := n]);
      if Breaching(r, v) && n * SweepUnit(r) >= r.duration then RaisedState(s1, r, subject, aid, db)
      else if Recovering(r, v) then ResolvedState(s1, r, subject, db)
      else s1
  }

  class Engine {
    var breach: map<string, nat>
    var open: map<string, nat>
    var table: map<nat, Row>
    var events: seq<Event>

    function Now(): State
      reads this
    {
      State(breach, open, table, events)
    }

    /** A new process starts with empty maps over whatever the table holds. */
    constructor (table: map<nat, Row>)
      ensures Now() == State(map[], map[], table, [])
    {
      this.breach, this.open, this.table, this.events := map[], map[], table, [];
    }

    method Raise(r: Rule, subject: string, aid: nat, db: Db)
      modifies this`open, this`table, this`events
      ensures Now() == RaisedState(old(Now()), r, subject, aid, db)
    {
      var k := KeyOf(r, subject);
      if k in open {
        if db.updates {
          table := Bumped(table, open[k]);
        }
        return;
      }
      if !db.inserts {
        return;
      }
      table := Inserted(table, aid, "rule." + r.name, subject);
      open := open[k := aid];
      events := events + [Event(k, Raised)];
    }

    method ResolveAuto(r: Rule, subject: string, db: Db)
      modifies this`open, this`table, this`events
      ensures Now() == ResolvedState(old(Now()), r, subject, db)
    {
      var k := KeyOf(r, subject);
      if k !in open {
        return;
      }
      var id := open[k];
      open := open - {k};
      if !db.updates {
        return;
      }
      table := Closed(table, id);
      events := events + [Event(k, Resolved)];
    }

    method EvaluateThreshold(r: Rule, subject: string, v: real, aid: nat, db: Db)
      modifies this
      ensures Now() == Evaluated(old(Now()), r, subject, v, aid, db)
    {
      if !r.threshold {
        return;
      }
      var breaching := Breaching(r, v);
      var k := KeyOf(r, subject);
      breach := breach[k := if breaching then Count(breach, k) + 1 else 0];
      var consecutive := breach[k];
      if breaching && consecutive * SweepUnit(r) >= r.duration {
        Raise(r, subject, aid, db);
        return;
      }
      if !breaching {
        if r.comparison == Gt && v <= r.limit - r.margin {
          ResolveAuto(r, subject, db);
        } else if r.comparison == Lt && v >= r.limit + r.margin {
          ResolveAuto(r, subject, db);
        }
      }
    }
  }

  // ---------------------------------------------------------------------
  // One sample, in plain numbers
  // ---------------------------------------------------------------------

  /** The streak a rule needs: samples are taken to be 30 seconds apart, and one is enough up to then. */
  lemma {:induction false} NeededCovers(r: Rule)
    ensures r.duration <= 30 ==> Needed(r) == 1
    ensures r.duration > 30 ==> 30 * Needed(r) >= r.duration > 30 * (Needed(r) - 1)
  {
  }

  /**
   A rule that watches for values above its limit: only a sample above it counts,
   one in the recovery margin below it changes nothing but the counter, and one
   at or below the margin closes the alert.
   */
  lemma {:induction false} HighSample(s: State, r: Rule, subject: string, v: real, aid: nat, db: Db)
    requires r.threshold && r.comparison == Gt
    ensures var k, t := KeyOf(r, subject), Evaluated(s, r, subject, v, aid, db);
            && (v > r.limit ==>
                  && Count(t.breach, k) == Count(s.breach, k) + 1
                  && (k in t.open <==>
                        k in s.open || (db.inserts && 30 * (Count(s.breach, k) + 1) >= r.duration)))
            && (v <= r.limit && v > r.limit - r.margin ==> t == s.(breach := s.breach[k := 0]))
            && (v <= r.limit && v <= r.limit - r.margin ==>
                  Count(t.breach, k) == 0 && k !in t.open && t.open == s.open - {k})
  {
    NeededIsTest(r, Count(s.breach, KeyOf(r, subject)) + 1);
    NeededCovers(r);
  }

  /** The same for values below a limit, mirrored. */
  lemma {:induction false} LowSample(s: State, r: Rule, subject: string, v: real, aid: nat, db: Db)
    requires r.threshold && r.comparison == Lt
    ensures var k, t := KeyOf(r, subject), Evaluated(s, r, subject, v, aid, db);
            && (v < r.limit ==>
                  && Count(t.breach, k) == Count(s.breach, k) + 1
                  && (k in t.open <==>
                        k in s.open || (db.inserts && 30 * (Count(s.breach, k) + 1) >= r.duration)))
            && (v >= r.limit && v < r.limit + r.margin ==> t == s.(breach := s.breach[k := 0]))
            && (v >= r.limit && v >= r.limit + r.margin ==>
                  Count(t.breach, k) == 0 && k !in t.open && t.open == s.open - {k})
  {
    NeededIsTest(r, Count(s.breach, KeyOf(r, subject)) + 1);
    NeededCovers(r);
  }

  /** Rules of other classes are not sampled, and one with another comparison never breaches. */
  lemma {:induction false} OtherSample(s: State, r: Rule, subject: string, v: real, aid: nat, db: Db)
    requires !r.threshold || r.comparison == Unknown
    ensures Evaluated(s, r, subject, v, aid, db) ==
            if r.threshold then s.(breach := s.breach[KeyOf(r, subject) := 0]) else s
  {
  }

  /** What a raise writes: a bump of the open alert's row, or a row of the rule's name and the subject; else nothing. */
  lemma {:induction false} RaiseWrites(s: State, r: Rule, subject: string, aid: nat, db: Db)
    requires aid !in s.table
    ensures var k, t := KeyOf(r, subject), RaisedState(s, r, subject, aid, db);
            && (k in s.open && s.open[k] in s.table && db.updates ==>
                  var row := s.table[s.open[k]];
                  t == s.(table := s.table[s.open[k] := Row(row.typ, row.subject, row.occurrences + 1, row.resolved)]))
            && (k in s.open && (s.open[k] !in s.table || !db.updates) ==> t == s)
            && (k !in s.open && !db.inserts ==> t == s)
            && (k !in s.open && db.inserts ==>
                  t.open == s.open[k := aid] && t.events == s.events + [Event(k, Raised)] && t.breach == s.breach
                  && t.table == if Conflict(s.table, "rule." + r.name, subject) then s.table
                                else s.table[aid := Row("rule." + r.name, subject, 1, false)])
  {
  }

  /** What a resolve writes: the alert is forgotten, and only when its row could be updated is that told. */
  lemma {:induction false} ResolveWrites(s: State, r: Rule, subject: string, db: Db)
    ensures var k, t := KeyOf(r, subject), ResolvedState(s, r, subject, db);
            && k !in t.open && t.breach == s.breach
            && (forall l :: l in s.open && l != k ==> l in t.open && t.open[l] == s.open[l])
            && (k !in s.open ==> t == s)
            && (k in s.open && !db.updates ==> t.table == s.table && t.events == s.events)
            && (k in s.open && db.updates ==> t.events == s.events + [Event(k, Resolved)])
            && (k in s.open && db.updates && s.open[k] in s.table ==>
                  var row := s.table[s.open[k]];
                  t.table == s.table[s.open[k] := Row(row.typ, row.subject, row.occurrences, true)])
  {
  }

  /** From `m` to `i` every value was above its rule's limit, for at least the duration the rule then had. */
  predicate HighFrom(xs: seq<Reading>, m: nat, i: nat) {
    && m <= i < |xs| && 30 * (i + 1 - m) >= xs[i].r.duration
    && forall j :: m <= j <= i ==> xs[j].v > xs[j].r.limit
  }

  predicate LowFrom(xs: seq<Reading>, m: nat, i: nat) {
    && m <= i < |xs| && 30 * (i + 1 - m) >= xs[i].r.duration
    && forall j :: m <= j <= i ==> xs[j].v < xs[j].r.limit
  }

  lemma {:induction false} HighFires(xs: seq<Reading>, i: nat)
    requires i < |xs| && forall j :: 0 <= j < |xs| ==> xs[j].r.comparison == Gt
    ensures Fires(xs, i) <==> exists m :: 0 <= m <= i && HighFrom(xs, m, i)
  {
    var n := Needed(xs[i].r);
    NeededCovers(xs[i].r);
    if Fires(xs, i) {
      assert HighFrom(xs, i + 1 - n, i);
    }
    if m :| 0 <= m <= i && HighFrom(xs, m, i) {
      assert i + 1 - m >= n;
    }
  }

  lemma {:induction false} LowFires(xs: seq<Reading>, i: nat)
    requires i < |xs| && forall j :: 0 <= j < |xs| ==> xs[j].r.comparison == Lt
    ensures Fires(xs, i) <==> exists m :: 0 <= m <= i && LowFrom(xs, m, i)
  {
    var n := Needed(xs[i].r);
    NeededCovers(xs[i].r);
    if Fires(xs, i) {
      assert LowFrom(xs, i + 1 - n, i);
    }
    if m :| 0 <= m <= i && LowFrom(xs, m, i) {
      assert i + 1 - m >= n;
    }
  }

  /** From `i` on no value fell to the recovery margin below its limit. */
  predicate StaysHigh(xs: seq<Reading>, i: nat) {
    forall j :: i < j < |xs| ==> xs[j].v > xs[j].r.limit || xs[j].v > xs[j].r.limit - xs[j].r.margin
  }

  predicate StaysLow(xs: seq<Reading>, i: nat) {
    forall j :: i < j < |xs| ==> xs[j].v < xs[j].r.limit || xs[j].v < xs[j].r.limit + xs[j].r.margin
  }

  /**
   In plain numbers: an alert on high values is open exactly when the values were
   above the limit for the duration, its insert succeeded, and none since was at
   or below the limit less the recovery margin.
   */
  lemma {:induction false} OpenIffHigh(xs: seq<Reading>)
    requires forall j :: 0 <= j < |xs| ==> xs[j].r.comparison == Gt
    ensures CellRun(xs).open <==>
            exists m: nat, i: nat :: HighFrom(xs, m, i) && xs[i].inserts && StaysHigh(xs, i)
  {
    OpenIffStillFiring(xs);
    if i :| 0 <= i < |xs| && FiresSince(xs, i) {
      HighFires(xs, i);
      var m :| 0 <= m <= i && HighFrom(xs, m, i);
      assert HighFrom(xs, m, i) && xs[i].inserts && StaysHigh(xs, i);
    }
    if m: nat, i: nat :| HighFrom(xs, m, i) && xs[i].inserts && StaysHigh(xs, i) {
      HighFires(xs, i);
      assert FiresSince(xs, i);
    }
  }

  /** The same for alerts on low values. */
  lemma {:induction false} OpenIffLow(xs: seq<Reading>)
    requires forall j :: 0 <= j < |xs| ==> xs[j].r.comparison == Lt
    ensures CellRun(xs).open <==>
            exists m: nat, i: nat :: LowFrom(xs, m, i) && xs[i].inserts && StaysLow(xs, i)
  {
    OpenIffStillFiring(xs);
    if i :| 0 <= i < |xs| && FiresSince(xs, i) {
      LowFires(xs, i);
      var m :| 0 <= m <= i && LowFrom(xs, m, i);
      assert LowFrom(xs, m, i) && xs[i].inserts && StaysLow(xs, i);
    }
    if m: nat, i: nat :| LowFrom(xs, m, i) && xs[i].inserts && StaysLow(xs, i) {
      LowFires(xs, i);
      assert FiresSince(xs, i);
    }
  }

  // ---------------------------------------------------------------------
  // Interleaved subjects
  // ---------------------------------------------------------------------

  /** One sample, the id an alert would get, and what the database does. */
  datatype Sample = Sample(r: Rule, subject: string, v: real, aid: nat, db: Db)

  function Run(table: map<nat, Row>, xs: seq<Sample>): State {
    if xs == [] then State(map[], map[], table, [])
    else
      var x := xs[|xs| - 1];
      Evaluated(Run(table, xs[..|xs| - 1]), x.r, x.subject, x.v, x.aid, x.db)
  }

  function CellOf(s: State, k: string): Cell {
    Cell(Count(s.breach, k), k in s.open)
  }

  /** What is sampled under one key, in order; rules of other classes are not sampled. */
  function ReadingsFor(xs: seq<Sample>, k: string): seq<Reading> {
    if xs == [] then []
    else
      var x := xs[|xs| - 1];
      ReadingsFor(xs[..|xs| - 1], k)
      + (if KeyOf(x.r, x.subject) == k && x.r.threshold then [Reading(x.r, x.v, x.db.inserts)] else [])
  }

  lemma {:induction false} EvaluatedCell(s: State, x: Sample, k: string)
    ensures CellOf(Evaluated(s, x.r, x.subject, x.v, x.aid, x.db), k) ==
            if KeyOf(x.r, x.subject) == k && x.r.threshold
            then CellStep(CellOf(s, k), Reading(x.r, x.v, x.db.inserts))
            else CellOf(s, k)
  {
  }

  lemma {:induction false} CellRunNext(xs: seq<Reading>, x: Reading)
    ensures CellRun(xs + [x]) == CellStep(CellRun(xs), x)
  {
    Appended(xs, x);
  }

  /** Each rule and subject behaves as if it were alone, whatever the database does. */
  lemma {:induction false} SubjectsAreIndependent(table: map<nat, Row>, xs: seq<Sample>, k: string)
    ensures CellOf(Run(table, xs), k) == CellRun(ReadingsFor(xs, k))
    decreases |xs|
  {
    if xs != [] {
      var init, x := xs[..|xs| - 1], xs[|xs| - 1];
      SubjectsAreIndependent(table, init, k);
      EvaluatedCell(Run(table, init), x, k);
      CellRunNext(ReadingsFor(init, k), Reading(x.r, x.v, x.db.inserts));
      NothingAdded(ReadingsFor(init, k));
    }
  }

  /** Rule ids hold no '|', so keys tell rules and subjects apart. */
  lemma {:induction false} KeysAreApart(r1: Rule, s1: string, r2: Rule, s2: string)
    requires '|' !in r1.id && '|' !in r2.id
    ensures KeyOf(r1, s1) == KeyOf(r2, s2) <==> r1.id == r2.id && s1 == s2
  {
    if KeyOf(r1, s1) == KeyOf(r2, s2) { CutEqual(r1.id, s1, r2.id, s2); }
  }
}
