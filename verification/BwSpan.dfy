/**
 Positions in the whole history of the rotating log, and the bytes a site is
 billed for between two of them.
 */
module BwSpan {
  import opened Common
  import opened BwLog
  import opened BwState

  /** Every generation of the log ever created; its inode is its index. */
  type History = seq<string>

  predicate WholeRecords(h: History) {
    forall g :: 0 <= g < |h| ==> Tail(h[g]) == ""
  }

  /** A checkpoint at the start of a record. */
  predicate In(h: History, c: Checkpoint) {
    c.inode < |h| && c.offset >= 0 && Boundary(h[c.inode], c.offset)
  }

  predicate Before(a: Checkpoint, b: Checkpoint) {
    a.inode < b.inode || (a.inode == b.inode && a.offset <= b.offset)
  }

  function End(h: History, g: nat): Checkpoint
    requires g < |h|
  {
    Checkpoint(g, |h[g]|)
  }

  function BillOpt(p: Parser, m: Option<Month>, site: string, s: string): nat {
    if m.None? then 0 else BillBytes(p, m.value, site, s)
  }

  lemma {:induction false} EndIn(h: History, g: nat)
    requires WholeRecords(h) && g < |h|
    ensures In(h, End(h, g))
  {
    assert h[g][..|h[g]|] == h[g];
  }

  /** Bytes billed to `site` by exactly the records between `a` and `b`. */
  function Span(p: Parser, h: History, m: Option<Month>, site: string, a: Checkpoint, b: Checkpoint): nat
    requires WholeRecords(h) && In(h, a) && In(h, b) && Before(a, b)
    decreases b.inode
  {
    if a.inode == b.inode then BillOpt(p, m, site, h[a.inode][a.offset..b.offset])
    else
      EndIn(h, b.inode - 1);
      Span(p, h, m, site, a, End(h, b.inode - 1)) + BillOpt(p, m, site, h[b.inode][..b.offset])
  }

  lemma {:induction false} BillOptAppend(p: Parser, m: Option<Month>, site: string, a: string, b: string)
    requires Tail(a) == ""
    ensures BillOpt(p, m, site, a + b) == BillOpt(p, m, site, a) + BillOpt(p, m, site, b)
  {
    if m.Some? { BillBytesAppend(p, m.value, site, a, b); }
  }

  lemma {:induction false} BillPieces(p: Parser, m: Option<Month>, site: string, s: string, x: nat, y: nat, z: nat)
    requires x <= y <= z <= |s| && Tail(s[x..y]) == ""
    ensures BillOpt(p, m, site, s[x..z]) == BillOpt(p, m, site, s[x..y]) + BillOpt(p, m, site, s[y..z])
  {
    assert s[x..z] == s[x..y] + s[y..z];
    BillOptAppend(p, m, site, s[x..y], s[y..z]);
  }

  /** Reading on within one generation adds exactly the records read. */
  lemma {:induction false} SpanExtend(p: Parser, h: History, m: Option<Month>, site: string, a: Checkpoint,
                                      b: Checkpoint, c: Checkpoint)
    requires WholeRecords(h) && In(h, a) && In(h, b) && In(h, c) && Before(a, b)
    requires b.inode == c.inode && b.offset <= c.offset
    ensures Span(p, h, m, site, a, c) == Span(p, h, m, site, a, b) + BillOpt(p, m, site, h[b.inode][b.offset..c.offset])
  {
    var s := h[b.inode];
    if a.inode == b.inode {
      BoundarySplit(s, a.offset, b.offset);
      BillPieces(p, m, site, s, a.offset, b.offset, c.offset);
    } else {
      assert s[0..b.offset] == s[..b.offset] && s[0..c.offset] == s[..c.offset];
      BillPieces(p, m, site, s, 0, b.offset, c.offset);
    }
  }

  lemma {:induction false} SpanToStart(p: Parser, h: History, m: Option<Month>, site: string, a: Checkpoint, g: nat)
    requires WholeRecords(h) && In(h, a) && a.inode < g < |h|
    ensures In(h, Checkpoint(g, 0)) && In(h, End(h, g - 1)) && Before(a, End(h, g - 1))
    ensures Span(p, h, m, site, a, Checkpoint(g, 0)) == Span(p, h, m, site, a, End(h, g - 1))
  {
    EndIn(h, g - 1);
    assert h[g][..0] == "";
    NoLines("");
  }

  /** Moving to the start of a later generation never adds to what was read. */
  lemma {:induction false} SpanJump(p: Parser, h: History, m: Option<Month>, site: string, a: Checkpoint, b: Checkpoint,
                                    g: nat)
    requires WholeRecords(h) && In(h, a) && In(h, b) && Before(a, b) && b.inode < g < |h|
    ensures In(h, Checkpoint(g, 0)) && Before(a, Checkpoint(g, 0))
    ensures Span(p, h, m, site, a, b) <= Span(p, h, m, site, a, Checkpoint(g, 0))
    ensures g == b.inode + 1 && b == End(h, b.inode) ==>
              Span(p, h, m, site, a, b) == Span(p, h, m, site, a, Checkpoint(g, 0))
    decreases g
  {
    var e := End(h, g - 1);
    EndIn(h, g - 1);
    SpanToStart(p, h, m, site, a, g);
    if g - 1 == b.inode {
      SpanExtend(p, h, m, site, a, b, e);
    } else {
      SpanJump(p, h, m, site, a, b, g - 1);
      SpanExtend(p, h, m, site, a, Checkpoint(g - 1, 0), e);
    }
  }

  /** `h'` continues `h`: generations only grow and new ones only follow. */
  predicate Grows(h: History, h': History) {
    |h| <= |h'| && forall g :: 0 <= g < |h| ==> h[g] <= h'[g]
  }

  lemma {:induction false} InGrows(h: History, h': History, c: Checkpoint)
    requires Grows(h, h') && In(h, c)
    ensures In(h', c)
  {
    assert h[c.inode][..c.offset] == h'[c.inode][..c.offset];
  }

  lemma {:induction false} SamePieces(s: string, s': string, x: nat, y: nat)
    requires s <= s' && x <= y <= |s|
    ensures s[x..y] == s'[x..y] && s[..y] == s'[..y]
  {
  }

  /** A span over several generations ends with the start of the last one. */
  lemma {:induction false} SpanLast(p: Parser, h: History, m: Option<Month>, site: string, a: Checkpoint, b: Checkpoint)
    requires WholeRecords(h) && In(h, a) && In(h, b) && a.inode < b.inode
    ensures In(h, End(h, b.inode - 1)) && Before(a, End(h, b.inode - 1))
    ensures Span(p, h, m, site, a, b) ==
            Span(p, h, m, site, a, End(h, b.inode - 1)) + BillOpt(p, m, site, h[b.inode][..b.offset])
  {
    EndIn(h, b.inode - 1);
  }

  /**
   What happens to the log later never lowers a past span, and leaves it as it
   was when only the last generation it touches has grown.
   */
  lemma {:induction false} SpanGrows(p: Parser, h: History, h': History, m: Option<Month>, site: string, a: Checkpoint,
                                     b: Checkpoint)
    requires WholeRecords(h) && WholeRecords(h') && Grows(h, h')
    requires In(h, a) && In(h, b) && Before(a, b)
    ensures In(h', a) && In(h', b)
    ensures Span(p, h, m, site, a, b) <= Span(p, h', m, site, a, b)
    ensures (forall g :: 0 <= g < b.inode ==> h[g] == h'[g]) ==> Span(p, h, m, site, a, b) == Span(p, h', m, site, a, b)
    decreases b.inode
  {
    InGrows(h, h', a);
    InGrows(h, h', b);
    SamePieces(h[b.inode], h'[b.inode], if a.inode == b.inode then a.offset else 0, b.offset);
    if a.inode != b.inode {
      var e, e' := End(h, b.inode - 1), End(h', b.inode - 1);
      EndIn(h, e.inode);
      EndIn(h', e.inode);
      SpanGrows(p, h, h', m, site, a, e);
      InGrows(h, h', e);
      SpanExtend(p, h', m, site, a, e, e');
      SpanLast(p, h, m, site, a, b);
      SpanLast(p, h', m, site, a, b);
    }
  }
}
