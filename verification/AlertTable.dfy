/**
 The engine's memory against the alerts table, over runs of samples, of the
 other rule classes' raises and resolves, of manual resolves and of restarts.
 */
module AlertTable {
  import opened Common
  import opened Alerts

  datatype Step =
    | Sampled(x: Sample)
    | Raises(r: Rule, subject: string, aid: nat, db: Db)
    | Resolves(r: Rule, subject: string, db: Db)
    | ManualResolve(id: nat, updates: bool)
    | Restart

  /** A new process over the same table. */
  function Restarted(s: State): State {
    State(map[], map[], s.table, s.events)
  }

  function Next(s: State, st: Step): State {
    match st
    case Sampled(x) => Evaluated(s, x.r, x.subject, x.v, x.aid, x.db)
    case Raises(r, subject, aid, db) => RaisedState(s, r, subject, aid, db)
    case Resolves(r, subject, db) => ResolvedState(s, r, subject, db)
    case ManualResolve(id, updates) => if updates then s.(table := Closed(s.table, id)) else s
    case Restart => Restarted(s)
  }

  /** A run of the first process and its successors over a table. */
  function After(table: map<nat, Row>, steps: seq<Step>): State {
    if steps == [] then State(map[], map[], table, [])
    else Next(After(table, steps[..|steps| - 1]), steps[|steps| - 1])
  }

  // ---------------------------------------------------------------------
  // Agreement
  // ---------------------------------------------------------------------

  predicate Unresolved(table: map<nat, Row>, id: nat) {
    id in table && !table[id].resolved
  }

  /** Each open key has an unresolved row of its own, and each unresolved row belongs to an open key. */
  ghost predicate Agree(s: State) {
    && (forall k :: k in s.open ==> Unresolved(s.table, s.open[k]))
    && (forall k, l :: k in s.open && l in s.open && s.open[k] == s.open[l] ==> k == l)
    && (forall id :: Unresolved(s.table, id) ==> id in s.open.Values)
  }

  /**
   A raise needs a row of its own: the key is open already, nothing is
   inserted, or no unresolved row is in the way.
   */
  predicate RaiseFits(s: State, r: Rule, subject: string, db: Db) {
    KeyOf(r, subject) in s.open || !db.inserts || !Conflict(s.table, "rule." + r.name, subject)
  }

  lemma {:induction false} OpenedAgrees(s: State, t: State, k: string, aid: nat)
    requires Agree(s) && aid !in s.table && k !in s.open && t.open == s.open[k := aid]
    requires forall id :: Unresolved(t.table, id) <==> Unresolved(s.table, id) || id == aid
    ensures Agree(t)
  {
    forall id | Unresolved(t.table, id)
      ensures id in t.open.Values
    {
      if id == aid {
        assert t.open[k] == aid;
      } else {
        var l :| l in s.open && s.open[l] == id;
        assert l in t.open && t.open[l] == id;
      }
    }
  }

  lemma {:induction false} RaiseKeepsRowsIff(s: State, r: Rule, subject: string, aid: nat, db: Db)
    requires Agree(s) && aid !in s.table
    ensures Agree(RaisedState(s, r, subject, aid, db)) <==> RaiseFits(s, r, subject, db)
  {
    var k := KeyOf(r, subject);
    var t := RaisedState(s, r, subject, aid, db);
    if k in s.open {
      assert t.open == s.open && forall id :: Unresolved(t.table, id) <==> Unresolved(s.table, id);
    } else if db.inserts {
      assert k in t.open && t.open[k] == aid;
      if RaiseFits(s, r, subject, db) {
        assert forall id :: Unresolved(t.table, id) <==> Unresolved(s.table, id) || id == aid;
        OpenedAgrees(s, t, k, aid);
      }
    }
  }

  lemma {:induction false} ClosedAgrees(s: State, t: State, k: string)
    requires Agree(s) && k in s.open && t.open == s.open - {k}
    requires forall id :: Unresolved(t.table, id) <==> Unresolved(s.table, id) && id != s.open[k]
    ensures Agree(t)
  {
    forall id | Unresolved(t.table, id)
      ensures id in t.open.Values
    {
      var l :| l in s.open && s.open[l] == id;
      assert l in t.open && t.open[l] == id;
    }
  }

  /** The key is given up before the row is closed, so the update must not fail. */
  predicate ResolveFits(s: State, r: Rule, subject: string, db: Db) {
    KeyOf(r, subject) in s.open ==> db.updates
  }

  lemma {:induction false} ResolveKeepsRowsIff(s: State, r: Rule, subject: string, db: Db)
    requires Agree(s)
    ensures Agree(ResolvedState(s, r, subject, db)) <==> ResolveFits(s, r, subject, db)
  {
    var k := KeyOf(r, subject);
    var t := ResolvedState(s, r, subject, db);
    if k in s.open {
      var id := s.open[k];
      assert Unresolved(s.table, id);
      if db.updates {
        ClosedAgrees(s, t, k);
      } else {
        assert Unresolved(t.table, id) && id !in t.open.Values;
      }
    }
  }

  lemma {:induction false} ManualResolveKeepsRowsIff(s: State, id: nat, updates: bool)
    requires Agree(s)
    ensures Agree(Next(s, ManualResolve(id, updates))) <==> !updates || id !in s.open.Values
  {
    var t := Next(s, ManualResolve(id, updates));
    if updates && id in s.open.Values {
      var k :| k in s.open && s.open[k] == id;
      assert k in t.open && !Unresolved(t.table, t.open[k]);
    } else if updates {
      assert !Unresolved(s.table, id);
      assert forall i :: Unresolved(t.table, i) <==> Unresolved(s.table, i);
    }
  }

  lemma {:induction false} RestartKeepsRowsIff(s: State)
    ensures Agree(Restarted(s)) <==> forall id :: !Unresolved(s.table, id)
  {
    if id :| Unresolved(s.table, id) {
      assert Unresolved(Restarted(s).table, id) && id !in Restarted(s).open.Values;
    }
  }

  /** Whether a sample makes the engine raise, after it has counted. */
  predicate SampleRaises(s: State, x: Sample) {
    && x.r.threshold && Breaching(x.r, x.v)
    && (Count(s.breach, KeyOf(x.r, x.subject)) + 1) * SweepUnit(x.r) >= x.r.duration
  }

  /** What a step needs, in terms of the state it meets. */
  predicate Fits(s: State, st: Step) {
    match st
    case Sampled(x) =>
      && (SampleRaises(s, x) ==> RaiseFits(s, x.r, x.subject, x.db))
      && (x.r.threshold && Recovering(x.r, x.v) ==> ResolveFits(s, x.r, x.subject, x.db))
    case Raises(r, subject, _, db) => RaiseFits(s, r, subject, db)
    case Resolves(r, subject, db) => ResolveFits(s, r, subject, db)
    case ManualResolve(id, updates) => !updates || id !in s.open.Values
    case Restart => s.open == map[]
  }

  /** Alert ids are new when they are made. */
  predicate Fresh(s: State, st: Step) {
    match st
    case Sampled(x) => x.aid !in s.table
    case Raises(_, _, aid, _) => aid !in s.table
    case _ => true
  }

  /** The state once the engine has counted a sample. */
  function Counted(s: State, x: Sample): State {
    if !x.r.threshold then s
    else
      var k := KeyOf(x.r, x.subject);
      s.(breach := s.breach[k := if Breaching(x.r, x.v) then Count(s.breach, k) + 1 else 0])
  }

  lemma {:induction false} SampleEffect(s: State, x: Sample)
    ensures var s1 := Counted(s, x);
            Evaluated(s, x.r, x.subject, x.v, x.aid, x.db) ==
            if SampleRaises(s, x) then RaisedState(s1, x.r, x.subject, x.aid, x.db)
            else if x.r.threshold && Recovering(x.r, x.v) then ResolvedState(s1, x.r, x.subject, x.db)
            else s1
  {
  }

  /** Breach counters do not matter to agreement. */
  lemma {:induction false} CountersAside(s: State, breach: map<string, nat>)
    ensures Agree(s.(breach := breach)) <==> Agree(s)
  {
  }

  /** From agreement, a step keeps memory and table in agreement exactly when it fits. */
  lemma {:induction false} StepKeepsRowsIff(s: State, st: Step)
    requires Agree(s) && Fresh(s, st)
    ensures Agree(Next(s, st)) <==> Fits(s, st)
  {
    match st
    case Sampled(x) =>
      var s1 := Counted(s, x);
      SampleEffect(s, x);
      CountersAside(s, s1.breach);
      RaiseKeepsRowsIff(s1, x.r, x.subject, x.aid, x.db);
      ResolveKeepsRowsIff(s1, x.r, x.subject, x.db);
    case Raises(r, subject, aid, db) => RaiseKeepsRowsIff(s, r, subject, aid, db);
    case Resolves(r, subject, db) => ResolveKeepsRowsIff(s, r, subject, db);
    case ManualResolve(id, updates) => ManualResolveKeepsRowsIff(s, id, updates);
    case Restart =>
      RestartKeepsRowsIff(s);
      if k :| k in s.open { assert Unresolved(s.table, s.open[k]); }
  }

  // ---------------------------------------------------------------------
  // Over whole runs
  // ---------------------------------------------------------------------

  predicate AllFresh(table: map<nat, Row>, steps: seq<Step>) {
    steps == [] ||
    var init := steps[..|steps| - 1];
    AllFresh(table, init) && Fresh(After(table, init), steps[|steps| - 1])
  }

  predicate AllFit(table: map<nat, Row>, steps: seq<Step>) {
    steps == [] ||
    var init := steps[..|steps| - 1];
    AllFit(table, init) && Fits(After(table, init), steps[|steps| - 1])
  }

  ghost function Agrees(table: map<nat, Row>): seq<Step> -> bool {
    steps => Agree(After(table, steps))
  }

  ghost predicate NoneUnresolved(table: map<nat, Row>) {
    forall id :: !Unresolved(table, id)
  }

  /**
   Over any table, whatever becomes of rules, memory and table agree all along
   a run exactly when no row was unresolved at first and every step fits.
   */
  lemma {:induction false} RunKeepsRowsIff(table: map<nat, Row>, steps: seq<Step>)
    requires AllFresh(table, steps)
    ensures Throughout(Agrees(table), steps) <==> NoneUnresolved(table) && AllFit(table, steps)
    decreases |steps|
  {
    if steps == [] {
      RestartKeepsRowsIff(After(table, steps));
      assert steps[..0] == steps;
    } else {
      var init, st := steps[..|steps| - 1], steps[|steps| - 1];
      RunKeepsRowsIff(table, init);
      ThroughoutNext(Agrees(table), steps);
      if Throughout(Agrees(table), init) {
        LastAgrees(table, init);
        StepKeepsRowsIff(After(table, init), st);
      }
    }
  }

  lemma {:induction false} LastAgrees(table: map<nat, Row>, steps: seq<Step>)
    requires Throughout(Agrees(table), steps)
    ensures Agree(After(table, steps))
  {
    assert steps[..|steps|] == steps && Agrees(table)(steps[..|steps|]);
  }

  // ---------------------------------------------------------------------
  // Rules by name
  // ---------------------------------------------------------------------

  predicate RowOf(rules: set<Rule>, s: State, k: string, r: Rule, subject: string)
    requires k in s.open && s.open[k] in s.table
  {
    r in rules && k == KeyOf(r, subject)
    && s.table[s.open[k]].typ == "rule." + r.name && s.table[s.open[k]].subject == subject
  }

  /** Each open alert's row carries the type and subject of its rule. */
  ghost predicate Labelled(rules: set<Rule>, s: State) {
    forall k :: k in s.open && s.open[k] in s.table ==>
      exists r, subject :: RowOf(rules, s, k, r, subject)
  }

  /**
   All values rules have had: ids hold no '|' and are never reused, and a rule
   keeps its name when it is tuned. Names may be reused, once their rule is gone.
   */
  predicate IdsApart(rules: set<Rule>) {
    && (forall r :: r in rules ==> '|' !in r.id)
    && (forall r, q :: r in rules && q in rules && r.id == q.id ==> r.name == q.name)
  }

  /** No rule was made under the name of one deleted before. */
  predicate NamesApart(rules: set<Rule>) {
    forall r, q :: r in rules && q in rules && r.name == q.name ==> r.id == q.id
  }

  predicate UsesRules(rules: set<Rule>, st: Step) {
    match st
    case Sampled(x) => x.r in rules
    case Raises(r, _, _, _) => r in rules
    case Resolves(r, _, _) => r in rules
    case _ => true
  }

  lemma {:induction false} SameName(a: string, b: string)
    requires "rule." + a == "rule." + b
    ensures a == b
  {
    assert ("rule." + a)[5..] == a && ("rule." + b)[5..] == b;
  }

  /** Some rule of that name, now or before, has an alert open for the subject. */
  predicate OpenUnder(rules: set<Rule>, s: State, name: string, subject: string) {
    exists q :: q in rules && q.name == name && KeyOf(q, subject) in s.open
  }

  /** While they agree, the table has an unresolved row exactly for what is open under its name. */
  lemma {:induction false} UnresolvedRowIff(rules: set<Rule>, s: State, name: string, subject: string)
    requires Agree(s) && Labelled(rules, s) && IdsApart(rules)
    ensures Conflict(s.table, "rule." + name, subject) <==> OpenUnder(rules, s, name, subject)
  {
    if Conflict(s.table, "rule." + name, subject) {
      var id :| Unresolved(s.table, id) && s.table[id].typ == "rule." + name && s.table[id].subject == subject;
      var k :| k in s.open && s.open[k] == id;
      var q, other :| RowOf(rules, s, k, q, other);
      SameName(name, q.name);
    }
    if OpenUnder(rules, s, name, subject) {
      var q :| q in rules && q.name == name && KeyOf(q, subject) in s.open;
      OpenHasRow(rules, s, q, subject);
    }
  }

  lemma {:induction false} OpenHasRow(rules: set<Rule>, s: State, q: Rule, subject: string)
    requires Agree(s) && Labelled(rules, s) && IdsApart(rules) && q in rules && KeyOf(q, subject) in s.open
    ensures var id := s.open[KeyOf(q, subject)];
            Unresolved(s.table, id) && s.table[id].typ == "rule." + q.name && s.table[id].subject == subject
  {
    var k := KeyOf(q, subject);
    assert Unresolved(s.table, s.open[k]);
    var r, other :| RowOf(rules, s, k, r, other);
    KeysAreApart(r, other, q, subject);
  }

  /** While they agree and no name is reused, the table alone tells which alerts are open. */
  lemma {:induction false} OpenIffUnresolvedRow(rules: set<Rule>, s: State, r: Rule, subject: string)
    requires Agree(s) && Labelled(rules, s) && NamesApart(rules) && IdsApart(rules) && r in rules
    ensures KeyOf(r, subject) in s.open <==> Conflict(s.table, "rule." + r.name, subject)
  {
    UnresolvedRowIff(rules, s, r.name, subject);
  }

  /** An alert is still open that a rule of the same name raised before it was deleted. */
  predicate HeldByOther(rules: set<Rule>, s: State, r: Rule, subject: string) {
    exists q :: q in rules && q.name == r.name && q.id != r.id && KeyOf(q, subject) in s.open
  }

  predicate RaisePermitted(rules: set<Rule>, s: State, r: Rule, subject: string, db: Db) {
    KeyOf(r, subject) in s.open || !db.inserts || !HeldByOther(rules, s, r, subject)
  }

  lemma {:induction false} RaiseFitsIff(rules: set<Rule>, s: State, r: Rule, subject: string, db: Db)
    requires Agree(s) && Labelled(rules, s) && IdsApart(rules) && r in rules
    ensures RaiseFits(s, r, subject, db) <==> RaisePermitted(rules, s, r, subject, db)
  {
    UnresolvedRowIff(rules, s, r.name, subject);
  }

  /** Open keys and rows that a step leaves alone keep their labels. */
  lemma {:induction false} LabelsStay(rules: set<Rule>, s: State, t: State)
    requires Agree(s) && Labelled(rules, s)
    requires forall k :: k in t.open ==> k in s.open && t.open[k] == s.open[k]
    requires forall id :: id in s.table ==>
               id in t.table && t.table[id].typ == s.table[id].typ && t.table[id].subject == s.table[id].subject
    ensures Labelled(rules, t)
  {
    forall k | k in t.open && t.open[k] in t.table
      ensures exists r, subject :: RowOf(rules, t, k, r, subject)
    {
      assert Unresolved(s.table, s.open[k]);
      var r, subject :| RowOf(rules, s, k, r, subject);
      assert RowOf(rules, t, k, r, subject);
    }
  }

  lemma {:induction false} LabelOneMore(rules: set<Rule>, t: State, open: map<string, nat>, k: string, r: Rule,
                                        subject: string)
    requires Labelled(rules, t.(open := open))
    requires k in t.open && t.open == open[k := t.open[k]]
    requires t.open[k] in t.table ==> RowOf(rules, t, k, r, subject)
    ensures Labelled(rules, t)
  {
    forall l | l in t.open && t.open[l] in t.table
      ensures exists q, other :: RowOf(rules, t, l, q, other)
    {
      if l != k {
        var q, other :| RowOf(rules, t.(open := open), l, q, other);
        assert RowOf(rules, t, l, q, other);
      }
    }
  }

  /** A new row gets the type and subject of its rule. */
  lemma {:induction false} LabelledRaised(rules: set<Rule>, s: State, r: Rule, subject: string, aid: nat, db: Db)
    requires Agree(s) && Labelled(rules, s) && aid !in s.table && r in rules
    ensures Labelled(rules, RaisedState(s, r, subject, aid, db))
  {
    var k := KeyOf(r, subject);
    var t := RaisedState(s, r, subject, aid, db);
    if k in s.open || !db.inserts {
      LabelsStay(rules, s, t);
    } else {
      LabelsStay(rules, s, t.(open := s.open));
      LabelOneMore(rules, t, s.open, k, r, subject);
    }
  }

  lemma {:induction false} LabelledResolved(rules: set<Rule>, s: State, r: Rule, subject: string, db: Db)
    requires Agree(s) && Labelled(rules, s)
    ensures Labelled(rules, ResolvedState(s, r, subject, db))
  {
    LabelsStay(rules, s, ResolvedState(s, r, subject, db));
  }

  lemma {:induction false} LabelledNext(rules: set<Rule>, s: State, st: Step)
    requires Agree(s) && Labelled(rules, s) && Fresh(s, st) && UsesRules(rules, st)
    ensures Labelled(rules, Next(s, st))
  {
    match st
    case Sampled(x) =>
      var s1 := Counted(s, x);
      SampleEffect(s, x);
      LabelsStay(rules, s, s1);
      LabelledRaised(rules, s1, x.r, x.subject, x.aid, x.db);
      LabelledResolved(rules, s1, x.r, x.subject, x.db);
    case Raises(r, subject, aid, db) => LabelledRaised(rules, s, r, subject, aid, db);
    case Resolves(r, subject, db) => LabelledResolved(rules, s, r, subject, db);
    case _ => LabelsStay(rules, s, Next(s, st));
  }

  /**
   What must not happen to a step: an automatic resolve of an open alert fails,
   an open alert is resolved by hand, the process restarts over one, or a rule
   made again under its old name breaches while the old alert is open.
   */
  predicate Permits(rules: set<Rule>, s: State, st: Step) {
    match st
    case Sampled(x) =>
      && (SampleRaises(s, x) ==> RaisePermitted(rules, s, x.r, x.subject, x.db))
      && (x.r.threshold && Recovering(x.r, x.v) ==> ResolveFits(s, x.r, x.subject, x.db))
    case Raises(r, subject, _, db) => RaisePermitted(rules, s, r, subject, db)
    case Resolves(r, subject, db) => ResolveFits(s, r, subject, db)
    case ManualResolve(id, updates) => !updates || id !in s.open.Values
    case Restart => s.open == map[]
  }

  lemma {:induction false} PermitsIsFits(rules: set<Rule>, s: State, st: Step)
    requires Agree(s) && Labelled(rules, s) && IdsApart(rules) && UsesRules(rules, st)
    ensures Fits(s, st) <==> Permits(rules, s, st)
  {
    match st
    case Sampled(x) => RaiseFitsIff(rules, s, x.r, x.subject, x.db);
    case Raises(r, subject, _, db) => RaiseFitsIff(rules, s, r, subject, db);
    case _ =>
  }

  predicate AllUseRules(rules: set<Rule>, steps: seq<Step>) {
    forall i :: 0 <= i < |steps| ==> UsesRules(rules, steps[i])
  }

  predicate Permitted(rules: set<Rule>, table: map<nat, Row>, steps: seq<Step>) {
    steps == [] ||
    var init := steps[..|steps| - 1];
    Permitted(rules, table, init) && Permits(rules, After(table, init), steps[|steps| - 1])
  }

  lemma {:induction false} RunLabelled(rules: set<Rule>, table: map<nat, Row>, steps: seq<Step>)
    requires AllUseRules(rules, steps) && AllFresh(table, steps) && Throughout(Agrees(table), steps)
    ensures Labelled(rules, After(table, steps))
    decreases |steps|
  {
    if steps != [] {
      var init, st := steps[..|steps| - 1], steps[|steps| - 1];
      ThroughoutNext(Agrees(table), steps);
      RunLabelled(rules, table, init);
      LastAgrees(table, init);
      LabelledNext(rules, After(table, init), st);
    }
  }

  /**
   In terms of rules: memory and table agree all along a run exactly when no row
   was unresolved at first and nothing happens that must not.
   */
  lemma {:induction false} RunKeepsRowsByRulesIff(rules: set<Rule>, table: map<nat, Row>, steps: seq<Step>)
    requires IdsApart(rules) && AllUseRules(rules, steps) && AllFresh(table, steps)
    ensures Throughout(Agrees(table), steps) <==> NoneUnresolved(table) && Permitted(rules, table, steps)
    decreases |steps|
  {
    RunKeepsRowsIff(table, steps);
    if steps != [] {
      var init, st := steps[..|steps| - 1], steps[|steps| - 1];
      RunKeepsRowsIff(table, init);
      RunKeepsRowsByRulesIff(rules, table, init);
      if Throughout(Agrees(table), init) {
        LastAgrees(table, init);
        RunLabelled(rules, table, init);
        PermitsIsFits(rules, After(table, init), st);
      }
    }
  }

  /** When no name is reused, tuning rules included, no raise is ever in danger. */
  lemma {:induction false} RaisesAlwaysPermitted(rules: set<Rule>, s: State, r: Rule, subject: string, db: Db)
    requires NamesApart(rules) && r in rules
    ensures RaisePermitted(rules, s, r, subject, db)
  {
  }

  // ---------------------------------------------------------------------
  // The table and the streaks
  // ---------------------------------------------------------------------

  function AllSampled(xs: seq<Sample>): seq<Step> {
    seq(|xs|, i requires 0 <= i < |xs| => Sampled(xs[i]))
  }

  lemma {:induction false} AfterSamples(table: map<nat, Row>, xs: seq<Sample>)
    ensures After(table, AllSampled(xs)) == Run(table, xs)
    decreases |xs|
  {
    if xs != [] {
      var init := xs[..|xs| - 1];
      AfterSamples(table, init);
      assert AllSampled(xs)[..|xs| - 1] == AllSampled(init);
    }
  }

  /**
   In one process in which memory and table agree, the unresolved row of a name
   and subject exists exactly when, for some rule of that name, a streak of the
   subject's samples fired and no later one recovered.
   */
  lemma {:induction false} UnresolvedIffStillFiring(rules: set<Rule>, table: map<nat, Row>, xs: seq<Sample>,
                                                    name: string, subject: string)
    requires IdsApart(rules) && AllUseRules(rules, AllSampled(xs))
    requires NoneUnresolved(table) && AllFresh(table, AllSampled(xs)) && AllFit(table, AllSampled(xs))
    ensures Conflict(Run(table, xs).table, "rule." + name, subject) <==>
            exists q :: q in rules && q.name == name && StillFiring(ReadingsFor(xs, KeyOf(q, subject)))
  {
    var steps, s := AllSampled(xs), Run(table, xs);
    AfterSamples(table, xs);
    RunKeepsRowsIff(table, steps);
    LastAgrees(table, steps);
    RunLabelled(rules, table, steps);
    UnresolvedRowIff(rules, s, name, subject);
    forall q | q in rules
      ensures KeyOf(q, subject) in s.open <==> StillFiring(ReadingsFor(xs, KeyOf(q, subject)))
    {
      SubjectsAreIndependent(table, xs, KeyOf(q, subject));
      OpenIffStillFiring(ReadingsFor(xs, KeyOf(q, subject)));
    }
  }

  // ---------------------------------------------------------------------
  // Events
  // ---------------------------------------------------------------------

  /** Kinds of the events under one key, in order. */
  function KindsOf(es: seq<Event>, k: string): seq<Kind> {
    if es == [] then []
    else
      var e := es[|es| - 1];
      KindsOf(es[..|es| - 1], k) + (if e.key == k then [e.kind] else [])
  }

  predicate Alternating(ks: seq<Kind>) {
    forall i :: 0 <= i < |ks| ==> ks[i] == if i % 2 == 0 then Kind.Raised else Kind.Resolved
  }

  /** A key's events alternate, and the last one tells whether its alert is open. */
  predicate Told(s: State, k: string) {
    Alternating(KindsOf(s.events, k)) && (k in s.open <==> |KindsOf(s.events, k)| % 2 == 1)
  }

  lemma {:induction false} KindsNext(es: seq<Event>, e: Event, k: string)
    ensures KindsOf(es + [e], k) == KindsOf(es, k) + (if e.key == k then [e.kind] else [])
  {
    Appended(es, e);
  }

  /** A raise opens its key, and says so if it was not open. */
  lemma {:induction false} RaiseTells(s: State, r: Rule, subject: string, aid: nat, db: Db, k: string)
    requires Told(s, k)
    ensures Told(RaisedState(s, r, subject, aid, db), k)
  {
    KindsNext(s.events, Event(KeyOf(r, subject), Kind.Raised), k);
    NothingAdded(KindsOf(s.events, k));
    Appended(KindsOf(s.events, k), Kind.Raised);
  }

  /** A resolve closes its key, but says so only if the update succeeds. */
  lemma {:induction false} ResolveTellsIff(s: State, r: Rule, subject: string, db: Db, k: string)
    requires Told(s, k)
    ensures Told(ResolvedState(s, r, subject, db), k) <==> (KeyOf(r, subject) == k ==> ResolveFits(s, r, subject, db))
  {
    KindsNext(s.events, Event(KeyOf(r, subject), Kind.Resolved), k);
    NothingAdded(KindsOf(s.events, k));
    Appended(KindsOf(s.events, k), Kind.Resolved);
  }

  /** What a step must not do to a key's events: fail to resolve its open alert, or restart over it. */
  predicate Tells(s: State, st: Step, k: string) {
    match st
    case Sampled(x) =>
      x.r.threshold && Recovering(x.r, x.v) && KeyOf(x.r, x.subject) == k ==> ResolveFits(s, x.r, x.subject, x.db)
    case Resolves(r, subject, db) => KeyOf(r, subject) == k ==> ResolveFits(s, r, subject, db)
    case Restart => k !in s.open
    case _ => true
  }

  lemma {:induction false} StepTellsIff(s: State, st: Step, k: string)
    requires Told(s, k)
    ensures Told(Next(s, st), k) <==> Tells(s, st, k)
  {
    match st
    case Sampled(x) =>
      var s1 := Counted(s, x);
      SampleEffect(s, x);
      RaiseTells(s1, x.r, x.subject, x.aid, x.db, k);
      ResolveTellsIff(s1, x.r, x.subject, x.db, k);
    case Raises(r, subject, aid, db) => RaiseTells(s, r, subject, aid, db, k);
    case Resolves(r, subject, db) => ResolveTellsIff(s, r, subject, db, k);
    case _ =>
  }

  predicate AllTell(table: map<nat, Row>, steps: seq<Step>, k: string) {
    steps == [] ||
    var init := steps[..|steps| - 1];
    AllTell(table, init, k) && Tells(After(table, init), steps[|steps| - 1], k)
  }

  function ToldOf(table: map<nat, Row>, k: string): seq<Step> -> bool {
    steps => Told(After(table, steps), k)
  }

  /**
   All along a run a key's raised and resolved events alternate in step with its
   alert, exactly when no automatic resolve of it fails while it is open and the
   process never restarts over it.
   */
  lemma {:induction false} EventsAlternateIff(table: map<nat, Row>, steps: seq<Step>, k: string)
    ensures Throughout(ToldOf(table, k), steps) <==> AllTell(table, steps, k)
    decreases |steps|
  {
    if steps == [] {
      assert steps[..0] == steps;
    } else {
      var init, st := steps[..|steps| - 1], steps[|steps| - 1];
      EventsAlternateIff(table, init, k);
      ThroughoutNext(ToldOf(table, k), steps);
      if Throughout(ToldOf(table, k), init) {
        assert init[..|init|] == init && ToldOf(table, k)(init[..|init|]);
        StepTellsIff(After(table, init), st, k);
      }
    }
  }

  /** In one process a key's events alternate when its updates succeed. */
  lemma {:induction false} EventsAlternate(table: map<nat, Row>, xs: seq<Sample>, k: string)
    requires forall i :: 0 <= i < |xs| && KeyOf(xs[i].r, xs[i].subject) == k ==> xs[i].db.updates
    ensures Told(Run(table, xs), k)
    decreases |xs|
  {
    if xs != [] {
      var init, x := xs[..|xs| - 1], xs[|xs| - 1];
      EventsAlternate(table, init, k);
      StepTellsIff(Run(table, init), Sampled(x), k);
    }
  }

  // ---------------------------------------------------------------------
  // Runs in which they part
  // ---------------------------------------------------------------------

  const OK := Db(true, true)
  const CPU := Rule("r", "cpu", true, Gt, 90.0, 0, 5.0)

  /** The same rule, deleted and made again: its name, a new id. */
  const CPU2 := CPU.(id := "q")

  function At(r: Rule, v: real, aid: nat, db: Db): Step {
    Sampled(Sample(r, "n", v, aid, db))
  }

  const HOT := At(CPU, 95.0, 0, OK)
  const HOT_AGAIN := At(CPU, 95.0, 1, OK)
  const KEY := KeyOf(CPU, "n")

  lemma {:induction false} AfterMore(steps: seq<Step>, st: Step)
    ensures After(map[], steps + [st]) == Next(After(map[], steps), st)
  {
    Appended(steps, st);
  }

  /** After one more step, then another. */
  lemma {:induction false} AfterThree(a: Step, b: Step, c: Step)
    ensures After(map[], [a, b, c]) == Next(Next(After(map[], [a]), b), c)
  {
    AfterMore([a], b);
    AfterMore([a, b], c);
    assert [a] + [b] == [a, b] && [a, b] + [c] == [a, b, c];
  }

  lemma {:induction false} Raised()
    ensures After(map[], [HOT]) ==
            State(map[KEY := 1], map[KEY := 0], map[0 := Row("rule.cpu", "n", 1, false)], [Event(KEY, Kind.Raised)])
  {
    AfterMore([], HOT);
    assert [] + [HOT] == [HOT];
    assert "rule." + "cpu" == "rule.cpu";
  }

  lemma {:induction false} OneEvent(e: Event, k: string)
    ensures KindsOf([e], k) == if e.key == k then [e.kind] else []
  {
    KindsNext([], e, k);
    assert [] + [e] == [e];
  }

  /** Two raised events in a row. */
  lemma {:induction false} RaisedTwice(es: seq<Event>)
    requires es == [Event(KEY, Kind.Raised)] + [Event(KEY, Kind.Raised)]
    ensures KindsOf(es, KEY) == [Kind.Raised, Kind.Raised] && !Alternating(KindsOf(es, KEY))
  {
    OneEvent(Event(KEY, Kind.Raised), KEY);
    KindsNext([Event(KEY, Kind.Raised)], Event(KEY, Kind.Raised), KEY);
    assert KindsOf(es, KEY)[1] == Kind.Raised;
  }

  /** A breach that meets an unresolved row nobody in memory owns: an alert without a row. */
  lemma {:induction false} BreachMeetsRow(s: State)
    requires s.table == map[0 := Row("rule.cpu", "n", 1, false)] && s.open == map[]
    ensures var t := Next(s, HOT_AGAIN);
            t.table == s.table && t.open == map[KEY := 1] && t.events == s.events + [Event(KEY, Kind.Raised)]
  {
    assert "rule." + "cpu" == "rule.cpu";
    assert 0 in s.table && Conflict(s.table, "rule.cpu", "n");
  }

  /**
   After a restart the engine no longer knows the open row: a recovering sample
   leaves it unresolved, and a breaching one announces an alert without a row,
   raised twice in a row.
   */
  lemma {:induction false} RestartForgetsOpenAlert()
    ensures var cool := After(map[], [HOT, Restart, At(CPU, 10.0, 1, OK)]);
            var hot := After(map[], [HOT, Restart, HOT_AGAIN]);
            && cool.table == hot.table == map[0 := Row("rule.cpu", "n", 1, false)]
            && cool.open == map[] && hot.open == map[KEY := 1]
            && KindsOf(hot.events, KEY) == [Kind.Raised, Kind.Raised]
  {
    Raised();
    AfterThree(HOT, Restart, At(CPU, 10.0, 1, OK));
    AfterThree(HOT, Restart, HOT_AGAIN);
    BreachMeetsRow(Restarted(After(map[], [HOT])));
    RaisedTwice(After(map[], [HOT, Restart, HOT_AGAIN]).events);
  }

  /** After a manual resolve a new breach only bumps the resolved row: no alert is raised. */
  lemma {:induction false} ManualResolveMutesAlert()
    ensures var t := After(map[], [HOT, ManualResolve(0, true), HOT_AGAIN]);
            && t.table == map[0 := Row("rule.cpu", "n", 2, true)]
            && t.open == map[KEY := 0] && |t.events| == 1
  {
    Raised();
    AfterThree(HOT, ManualResolve(0, true), HOT_AGAIN);
  }

  /**
   An automatic resolve whose update fails says nothing and leaves the row
   unresolved; the next breach announces an alert without a row, raised twice in
   a row.
   */
  lemma {:induction false} FailedResolveForgetsAlert()
    ensures var t := After(map[], [HOT, At(CPU, 10.0, 1, Db(true, false)), HOT_AGAIN]);
            && t.table == map[0 := Row("rule.cpu", "n", 1, false)] && t.open == map[KEY := 1]
            && KindsOf(t.events, KEY) == [Kind.Raised, Kind.Raised]
  {
    Raised();
    var cool := At(CPU, 10.0, 1, Db(true, false));
    AfterThree(HOT, cool, HOT_AGAIN);
    var s := Next(After(map[], [HOT]), cool);
    assert s.open == map[];
    BreachMeetsRow(s);
    RaisedTwice(Next(s, HOT_AGAIN).events);
  }

  /** A rule deleted with its alert open and made again under its name: its alert gets no row. */
  lemma {:induction false} RecreatedRuleHasNoRow()
    ensures var t := After(map[], [HOT, At(CPU2, 95.0, 1, OK)]);
            && t.table == map[0 := Row("rule.cpu", "n", 1, false)]
            && t.open == map[KEY := 0, KeyOf(CPU2, "n") := 1] && !Agree(t)
  {
    Raised();
    var again := At(CPU2, 95.0, 1, OK);
    AfterMore([HOT], again);
    assert [HOT] + [again] == [HOT, again];
    var s := After(map[], [HOT]);
    assert KEY[0] == 'r' && KeyOf(CPU2, "n")[0] == 'q';
    assert "rule." + "cpu" == "rule.cpu";
    assert 0 in s.table && Conflict(s.table, "rule.cpu", "n");
    var t := Next(s, again);
    assert KeyOf(CPU2, "n") in t.open && t.open[KeyOf(CPU2, "n")] == 1;
  }
}
