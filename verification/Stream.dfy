/**
 The metrics stream. The agent numbers its samples, keeps the last ones in a
 ring and resends unacknowledged ones after a reconnect; the control plane
 takes a sample when its number is above the last it took.
 */
module Stream {

  const RING := 256

  datatype Kind = Unset | Hello | Resume | Metrics | Heartbeat | Pong

  datatype Frame = Frame(kind: Kind, num: nat, data: string)

  /** An unused ring slot. */
  const NO_FRAME := Frame(Unset, 0, "")

  /** Samples before this index are not resent; nothing is while none is acked. */
  function ReplayFrom(n: nat, acked: nat): (lo: nat)
    ensures lo <= n
  {
    if acked == 0 || acked >= n then n
    else if acked > n - RING then acked
    else n - RING
  }

  /** A sample is resent exactly when something was acknowledged, it was not, and it is among the last 256. */
  lemma {:induction false} ReplayFromIs(n: nat, acked: nat, k: nat)
    requires 1 <= k <= n
    ensures k - 1 >= ReplayFrom(n, acked) <==> acked > 0 && k > acked && k > n - 256
  {
  }

  lemma {:induction false} DistinctSlots(k: nat, n: nat)
    requires k < n < k + RING
    ensures k % RING != n % RING
  {
    var q := n / RING - k / RING;
    assert n - k == RING * q + (n % RING - k % RING);
  }

  /** The i-th slot from the head belongs to the i-th oldest of the last RING samples. */
  lemma {:induction false} SlotOf(n: nat, i: nat)
    requires i < RING
    ensures n - RING + i >= 0 ==> (n % RING + i) % RING == (n - RING + i) % RING
    ensures n - RING + i < 0 ==> n <= (n % RING + i) % RING
  {
    var q, r := n / RING, n % RING;
    assert n == RING * q + r;
    if n < RING {
      assert r == n;
    }
    var w := if r + i >= RING then 1 else 0;
    assert n - RING + i == RING * (q - 1 + w) + (r + i - RING * w);
  }

  /** The slot written next holds none of the samples still to be kept. */
  lemma {:induction false} OtherSlots(n: nat)
    ensures forall k :: 0 <= k < n && n + 1 - RING <= k ==> k % RING != n % RING
  {
    forall k | 0 <= k < n && n + 1 - RING <= k
      ensures k % RING != n % RING
    {
      DistinctSlots(k, n);
    }
  }

  /** Slot `k mod RING` holds sample `k`, for the last RING samples; unused slots are empty. */
  ghost predicate Holds(ring: seq<Frame>, sent: seq<Frame>)
    requires |ring| == RING
  {
    && (forall k :: 0 <= k < |sent| && |sent| - RING <= k ==> ring[k % RING] == sent[k])
    && (forall j :: |sent| <= j < RING ==> ring[j] == NO_FRAME)
  }

  /** Storing one more sample over the oldest slot. */
  lemma {:induction false} Stored(ring: seq<Frame>, sent: seq<Frame>, f: Frame)
    requires |ring| == RING && Holds(ring, sent)
    ensures Holds(ring[|sent| % RING := f], sent + [f])
  {
    OtherSlots(|sent|);
  }

  class Streamer {
    ghost var sent: seq<Frame>
    var seqNo: nat
    var lastAcked: nat
    var ring: array<Frame>
    var ringHead: nat

    /** The numbers follow the samples, and the ring holds the last of them. */
    ghost predicate Valid()
      reads this, ring
    {
      && ring.Length == RING
      && seqNo == |sent| && ringHead == seqNo % RING
      && (forall k :: 0 <= k < |sent| ==> sent[k].kind == Metrics && sent[k].num == k + 1)
      && Holds(ring[..], sent)
    }

    constructor ()
      ensures Valid() && fresh(ring) && sent == [] && lastAcked == 0
    {
      ring := new Frame[RING](_ => NO_FRAME);
      sent, seqNo, lastAcked, ringHead := [], 0, 0, 0;
    }

    /** Numbers one sample and stores it over the oldest slot. */
    method NextSampleFrame(data: string) returns (f: Frame)
      requires Valid()
      modifies this`sent, this`seqNo, this`ringHead, ring
      ensures Valid() && ring == old(ring)
      ensures f == Frame(Metrics, old(seqNo) + 1, data) && sent == old(sent) + [f]
    {
      ghost var n := |sent|;
      seqNo := seqNo + 1;
      f := Frame(Metrics, seqNo, data);
      ring[ringHead] := f;
      ringHead := (ringHead + 1) % RING;
      sent := sent + [f];
      Stored(old(ring[..]), old(sent), f);
      assert ring[..] == old(ring[..])[n % RING := f];
    }

    /** A welcome or an ack; only a higher number counts. */
    method Acknowledge(num: int)
      modifies this`lastAcked
      ensures lastAcked == if num > old(lastAcked) then num else old(lastAcked)
    {
      if num > lastAcked {
        lastAcked := num;
      }
    }

    /** The buffered samples the control plane has not acknowledged, oldest first. */
    method Replay() returns (pending: seq<Frame>)
      requires Valid()
      ensures pending == sent[ReplayFrom(|sent|, lastAcked)..]
    {
      var resumeFrom := lastAcked;
      if resumeFrom == 0 {
        return [];
      }
      ScanEnds(sent, lastAcked);
      pending := [];
      ghost var n, lo := |sent|, ReplayFrom(|sent|, lastAcked);
      var i := 0;
      while i < RING
        invariant 0 <= i <= RING
        invariant pending == sent[lo..Reached(n, lo, i)]
      {
        var f := ring[(ringHead + i) % RING];
        SlotOf(n, i);
        ReachedNext(sent, resumeFrom, i);
        assert f == if n - RING + i >= 0 then sent[n - RING + i] else NO_FRAME;
        if f.num > resumeFrom && f.kind == Metrics {
          pending := pending + [f];
        }
        i := i + 1;
      }
    }
  }

  lemma {:induction false} ScanEnds(sent: seq<Frame>, acked: nat)
    requires acked > 0
    ensures var lo := ReplayFrom(|sent|, acked);
            && sent[lo..Reached(|sent|, lo, 0)] == [] && sent[lo..Reached(|sent|, lo, RING)] == sent[lo..]
  {
  }

  /** The scan takes a slot exactly when it brings it one sample further. */
  lemma {:induction false} ReachedNext(sent: seq<Frame>, acked: nat, i: nat)
    requires acked > 0 && i < RING && forall k :: 0 <= k < |sent| ==> sent[k].num == k + 1
    ensures var n := |sent|;
            var lo := ReplayFrom(n, acked);
            var r, next := Reached(n, lo, i), Reached(n, lo, i + 1);
            if n - RING + i >= 0 && sent[n - RING + i].num > acked
            then sent[lo..next] == sent[lo..r] + [sent[n - RING + i]] else next == r
  {
    var lo := ReplayFrom(|sent|, acked);
    var r := Reached(|sent|, lo, i);
    if r < |sent| { assert sent[lo..r + 1] == sent[lo..r] + [sent[r]]; }
  }

  /** How far a scan of `i` slots from the head has come, as a sample index. */
  function Reached(n: nat, lo: nat, i: nat): (r: nat)
    requires lo <= n && i <= RING
    ensures lo <= r <= n
  {
    if n - RING + i < lo then lo else n - RING + i
  }
}
