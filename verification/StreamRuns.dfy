/**
 Runs of the stream protocol over connections that deliver a prefix in order
 and may drop at any moment.
 */
module StreamRuns {
  import opened Common
  import opened Stream

  /** Agent to control plane: a hello or resume, or the sample with a number. */
  datatype Msg = Handshake | Sample(num: nat)

  /** One connection: messages in flight both ways; the replay comes before new samples. */
  datatype Conn = Conn(up: seq<Msg>, down: seq<nat>, replayed: bool)

  /**
   `n` samples taken and `acked` the highest acknowledged one on the agent;
   `last` and all `ingested` numbers on the control plane.
   */
  datatype World = World(n: nat, acked: nat, last: nat, ingested: seq<nat>, conn: Option<Conn>)

  const START := World(0, 0, 0, [], None)

  datatype Step = Dial | Replay | TakeSample | DeliverUp | SendAck | DeliverDown | Drop

  /** Samples `lo + 1` to `n`. */
  function Samples(lo: nat, n: nat): seq<Msg>
    requires lo <= n
  {
    seq(n - lo, i requires 0 <= i => Sample(lo + 1 + i))
  }

  /** The control plane: dedup by number, answer a handshake with the last number. */
  function Received(w: World, c: Conn): World
    requires c.up != []
  {
    var rest := c.(up := c.up[1..]);
    match c.up[0]
    case Handshake => w.(conn := Some(rest.(down := c.down + [w.last])))
    case Sample(k) =>
      if k > w.last then w.(last := k, ingested := w.ingested + [k], conn := Some(rest))
      else w.(conn := Some(rest))
  }

  function Next(w: World, st: Step): World {
    if w.conn.None? then
      if st.Dial? then w.(conn := Some(Conn([Handshake], [], false))) else w
    else
      var c := w.conn.value;
      match st
      case Dial => w
      case Replay =>
        if c.replayed then w
        else w.(conn := Some(c.(up := c.up + Samples(ReplayFrom(w.n, w.acked), w.n), replayed := true)))
      case TakeSample =>
        if !c.replayed then w else w.(n := w.n + 1, conn := Some(c.(up := c.up + [Sample(w.n + 1)])))
      case DeliverUp => if c.up == [] then w else Received(w, c)
      case SendAck => w.(conn := Some(c.(down := c.down + [w.last])))
      case DeliverDown =>
        if c.down == [] then w
        else w.(acked := if c.down[0] > w.acked then c.down[0] else w.acked, conn := Some(c.(down := c.down[1..])))
      case Drop => w.(conn := None)
  }

  function Run(w: World, steps: seq<Step>): World {
    if steps == [] then w else Next(Run(w, steps[..|steps| - 1]), steps[|steps| - 1])
  }

  // ---------------------------------------------------------------------
  // Every run: order and no repeats
  // ---------------------------------------------------------------------

  predicate Increasing(s: seq<nat>) {
    forall i, j :: 0 <= i < j < |s| ==> s[i] < s[j]
  }

  ghost predicate Ordered(w: World) {
    && w.acked <= w.last <= w.n
    && Increasing(w.ingested)
    && (forall k :: k in w.ingested ==> 1 <= k <= w.last)
    && (w.last > 0 ==> w.last in w.ingested)
    && (w.conn.Some? ==>
          && (forall m :: m in w.conn.value.up && m.Sample? ==> m.num <= w.n)
          && (forall k :: k in w.conn.value.down ==> k <= w.last))
  }

  lemma {:induction false} OrderedNext(w: World, st: Step)
    requires Ordered(w)
    ensures Ordered(Next(w, st))
  {
    if w.conn.Some? {
      var c := w.conn.value;
      if st.DeliverUp? && c.up != [] {
        assert c.up[0] in c.up;
        assert forall m :: m in c.up[1..] ==> m in c.up;
        assert forall i :: 0 <= i < |w.ingested| ==> w.ingested[i] in w.ingested;
      } else if st.DeliverDown? && c.down != [] {
        assert c.down[0] in c.down;
        assert forall k :: k in c.down[1..] ==> k in c.down;
      }
    }
  }

  /** No run acknowledges what was not ingested, ingests what was not taken, or ingests twice. */
  lemma {:induction false} OrderedAlways(steps: seq<Step>)
    ensures Ordered(Run(START, steps))
    decreases |steps|
  {
    if steps != [] {
      OrderedAlways(steps[..|steps| - 1]);
      OrderedNext(Run(START, steps[..|steps| - 1]), steps[|steps| - 1]);
    }
  }

  /** The agent takes a delivered number for acknowledged, unless it knows a higher one. */
  lemma {:induction false} AckedIsHighest(w: World)
    requires w.conn.Some? && w.conn.value.down != []
    ensures var got, t := w.conn.value.down[0], Next(w, DeliverDown);
            && t.acked >= w.acked && t.acked >= got && t.acked in {w.acked, got}
            && t.conn.value.down == w.conn.value.down[1..]
  {
  }

  /** What was acknowledged stays so, through every drop. */
  lemma {:induction false} AckedNeverFalls(w: World, steps: seq<Step>, i: nat)
    requires i <= |steps|
    ensures Run(w, steps[..i]).acked <= Run(w, steps).acked
    decreases |steps|
  {
    if i < |steps| {
      var init := steps[..|steps| - 1];
      AckedNeverFalls(w, init, i);
      assert init[..i] == steps[..i];
    } else {
      assert steps[..i] == steps;
    }
  }

  // ---------------------------------------------------------------------
  // No gaps
  // ---------------------------------------------------------------------

  /** Delivering `up` to a control plane at `last` never jumps over a number. */
  predicate NoGap(last: nat, up: seq<Msg>)
    decreases |up|
  {
    up == [] ||
    match up[0]
    case Handshake => NoGap(last, up[1..])
    case Sample(k) => k <= last + 1 && NoGap(if k > last then k else last, up[1..])
  }

  /** Where the control plane stands once `up` is delivered. */
  function Final(last: nat, up: seq<Msg>): nat
    decreases |up|
  {
    if up == [] then last
    else
      match up[0]
      case Handshake => Final(last, up[1..])
      case Sample(k) => Final(if k > last then k else last, up[1..])
  }

  lemma {:induction false} NoGapConcat(last: nat, a: seq<Msg>, b: seq<Msg>)
    ensures NoGap(last, a + b) <==> NoGap(last, a) && NoGap(Final(last, a), b)
    ensures Final(last, a + b) == Final(Final(last, a), b)
    decreases |a|
  {
    if a == [] {
      assert a + b == b;
    } else {
      assert (a + b)[1..] == a[1..] + b;
      NoGapConcat(match a[0] case Handshake => last case Sample(k) => if k > last then k else last, a[1..], b);
    }
  }

  /** A run of consecutive samples closes the gap to `n` exactly when it starts low enough. */
  lemma {:induction false} SamplesNoGap(last: nat, lo: nat, n: nat)
    requires lo <= n && last <= n
    ensures NoGap(last, Samples(lo, n)) && Final(last, Samples(lo, n)) == n <==> last == n || (lo < n && lo <= last)
    decreases n - lo
  {
    var s := Samples(lo, n);
    if lo < n {
      assert s[0] == Sample(lo + 1);
      assert s[1..] == Samples(lo + 1, n);
      if lo <= last {
        SamplesNoGap(if lo + 1 > last then lo + 1 else last, lo + 1, n);
      }
    }
  }

  /** What a reconnect needs: nothing is missing, or an ack exists and the ring reaches back. */
  predicate Covered(w: World) {
    w.last == w.n || (w.acked > 0 && w.n - w.last <= RING)
  }

  /** On a fresh connection the replay leaves no gap if and only if it is covered. */
  lemma {:induction false} ReplayCoversIff(w: World)
    requires Ordered(w)
    ensures var r := Samples(ReplayFrom(w.n, w.acked), w.n);
            NoGap(w.last, r) && Final(w.last, r) == w.n <==> Covered(w)
  {
    SamplesNoGap(w.last, ReplayFrom(w.n, w.acked), w.n);
  }

  /** The documented condition implies the exact one. */
  lemma {:induction false} DocumentedConditionCovers(w: World)
    requires Ordered(w) && w.acked > 0 && w.n - w.acked <= RING
    ensures Covered(w)
  {
  }

  function FirstNumbers(k: nat): seq<nat> {
    seq(k, i => i + 1)
  }

  ghost predicate Gapless(w: World) {
    && Ordered(w)
    && w.ingested == FirstNumbers(w.last)
    && (w.conn.Some? ==>
          var c := w.conn.value;
          if c.replayed then NoGap(w.last, c.up) && Final(w.last, c.up) == w.n
          else c.up == [] || c.up == [Handshake])
  }

  /** Every replay of the run happens in a covered state. */
  predicate AllCovered(steps: seq<Step>) {
    steps == [] ||
    var n := |steps| - 1;
    var w := Run(START, steps[..n]);
    AllCovered(steps[..n]) &&
    (steps[n].Replay? && w.conn.Some? && !w.conn.value.replayed ==> Covered(w))
  }

  lemma {:induction false} GaplessNext(w: World, st: Step)
    requires Gapless(w)
    requires st.Replay? && w.conn.Some? && !w.conn.value.replayed ==> Covered(w)
    ensures Gapless(Next(w, st))
  {
    OrderedNext(w, st);
    if w.conn.Some? {
      var c := w.conn.value;
      if st.Replay? && !c.replayed {
        var r := Samples(ReplayFrom(w.n, w.acked), w.n);
        ReplayCoversIff(w);
        NoGapConcat(w.last, c.up, r);
      } else if st.TakeSample? && c.replayed {
        NoGapConcat(w.last, c.up, [Sample(w.n + 1)]);
      } else if st.DeliverUp? && c.up != [] && c.up[0].Sample? {
        assert w.ingested + [w.last + 1] == FirstNumbers(w.last + 1);
      }
    }
  }

  /** With every replay covered, the control plane ingests exactly 1, 2, ..., k. */
  lemma {:induction false} GaplessWhenCovered(steps: seq<Step>)
    requires AllCovered(steps)
    ensures Gapless(Run(START, steps))
    decreases |steps|
  {
    if steps != [] {
      GaplessWhenCovered(steps[..|steps| - 1]);
      GaplessNext(Run(START, steps[..|steps| - 1]), steps[|steps| - 1]);
    }
  }

  /** A number passed over is never ingested later: an uncovered gap stays. */
  lemma {:induction false} GapStays(w: World, steps: seq<Step>, k: nat)
    requires Ordered(w) && 1 <= k <= w.last && k !in w.ingested
    ensures Ordered(Run(w, steps)) && k <= Run(w, steps).last && k !in Run(w, steps).ingested
    decreases |steps|
  {
    if steps != [] {
      GapStays(w, steps[..|steps| - 1], k);
      OrderedNext(Run(w, steps[..|steps| - 1]), steps[|steps| - 1]);
    }
  }

  lemma {:induction false} Then(w: World, steps: seq<Step>, st: Step) returns (w': World, steps': seq<Step>)
    requires w == Run(START, steps)
    ensures steps' == steps + [st] && w' == Next(w, st) == Run(START, steps')
  {
    steps' := steps + [st];
    assert steps'[..|steps|] == steps;
    w' := Next(w, st);
  }

  lemma {:induction false} FirstSampleInFlight() returns (steps: seq<Step>)
    ensures Run(START, steps) == World(1, 0, 0, [], None)
  {
    assert Samples(0, 0) == [] && [Handshake] + [] == [Handshake];
    var w := START;
    w, steps := Then(w, [], Dial);
    w, steps := Then(w, steps, Replay);
    w, steps := Then(w, steps, TakeSample);
    w, steps := Then(w, steps, Drop);
  }

  /**
   A first connection that drops before any ack: the agent resends nothing on
   reconnect, so the sample lost in flight is never ingested.
   */
  lemma {:induction false} UnackedFirstSampleIsLost() returns (steps: seq<Step>)
    ensures Run(START, steps).n == 2 && Run(START, steps).ingested == [2]
  {
    steps := FirstSampleInFlight();
    var w := Run(START, steps);
    assert Samples(1, 1) == [] && [Handshake] + [] == [Handshake];
    w, steps := Then(w, steps, Dial);
    w, steps := Then(w, steps, Replay);
    w, steps := Then(w, steps, TakeSample);
    w, steps := Then(w, steps, DeliverUp);
    w, steps := Then(w, steps, DeliverUp);
  }
}
