/**
 Zone rendering: records are normalized and validated in place, then sorted
 by name, type and value, so that equal record sets give equal files.
 */
module DnsZone {
  import opened Common
  import opened Text

  // ---------------------------------------------------------------------
  // Byte order on strings
  // ---------------------------------------------------------------------

  predicate StrLess(a: string, b: string) {
    if a == "" then b != ""
    else if b == "" then false
    else a[0] < b[0] || (a[0] == b[0] && StrLess(a[1..], b[1..]))
  }

  lemma {:induction false} StrTotal(a: string, b: string)
    ensures StrLess(a, b) || a == b || StrLess(b, a)
    ensures !(StrLess(a, b) && (a == b || StrLess(b, a))) && !(a == b && StrLess(b, a))
    decreases |a|
  {
    if a != "" && b != "" && a[0] == b[0] {
      StrTotal(a[1..], b[1..]);
      assert a == [a[0]] + a[1..] && b == [b[0]] + b[1..];
    }
  }

  lemma {:induction false} StrTrans(a: string, b: string, c: string)
    requires StrLess(a, b) && StrLess(b, c)
    ensures StrLess(a, c)
    decreases |a|
  {
    if a != "" && a[0] == b[0] == c[0] {
      StrTrans(a[1..], b[1..], c[1..]);
    }
  }

  // ---------------------------------------------------------------------
  // Records
  // ---------------------------------------------------------------------

  datatype Record = Record(name: string, typ: string, value: string, ttl: int, prio: int)

  const TYPES := {"A", "AAAA", "CNAME", "MX", "TXT", "NS", "SRV", "CAA"}
  const MIN_TTL := 60
  const MAX_TTL := 7 * 24 * 3600

  /** Per-zone rules: name normalization, type folding and the per-type value checks. */
  datatype Rules = Rules(norm: string -> Option<string>, fold: string -> string, valueOk: Record -> bool)

  /** Normalized names are nonempty and hold no '|'. */
  ghost predicate CleanNames(u: Rules) {
    forall n: string :: u.norm(n).Some? ==> u.norm(n).value != "" && '|' !in u.norm(n).value
  }

  /** A record on its own: its normalized form, or None if it is refused. */
  function Clean(u: Rules, r: Record): Option<Record> {
    match u.norm(r.name)
    case None => None
    case Some(n) =>
      var c := r.(name := n, typ := u.fold(r.typ));
      if c.typ !in TYPES || c.ttl < MIN_TTL || c.ttl > MAX_TTL || !u.valueOk(c) then None else Some(c)
  }

  /** What a record must be on its own, and what becomes of it. */
  lemma {:induction false} CleanIs(u: Rules, r: Record)
    ensures Clean(u, r).Some? <==>
            && u.norm(r.name).Some?
            && u.fold(r.typ) in {"A", "AAAA", "CNAME", "MX", "TXT", "NS", "SRV", "CAA"}
            && 60 <= r.ttl <= 604800
            && u.valueOk(Record(u.norm(r.name).value, u.fold(r.typ), r.value, r.ttl, r.prio))
    ensures Clean(u, r).Some? ==>
              Clean(u, r).value == Record(u.norm(r.name).value, u.fold(r.typ), r.value, r.ttl, r.prio)
  {
  }

  function Key(r: Record): string {
    r.name + "|" + r.typ + "|" + r.value
  }

  predicate SameKey(a: Record, b: Record) {
    a.name == b.name && a.typ == b.typ && a.value == b.value
  }

  lemma {:induction false} TypesHaveNoBar(t: string)
    requires t in TYPES
    ensures '|' !in t
  {
  }

  /** The joined key tells records apart as well as its three parts do. */
  lemma {:induction false} KeyInjective(a: Record, b: Record)
    requires '|' !in a.name && '|' !in b.name && a.typ in TYPES && b.typ in TYPES
    ensures Key(a) == Key(b) <==> SameKey(a, b)
  {
    if Key(a) == Key(b) {
      TypesHaveNoBar(a.typ);
      TypesHaveNoBar(b.typ);
      assert Key(a) == a.name + "|" + (a.typ + "|" + a.value);
      assert Key(b) == b.name + "|" + (b.typ + "|" + b.value);
      CutEqual(a.name, a.typ + "|" + a.value, b.name, b.typ + "|" + b.value);
      CutEqual(a.typ, a.value, b.typ, b.value);
    }
  }

  predicate AllClean(u: Rules, rs: seq<Record>) {
    forall i :: 0 <= i < |rs| ==> Clean(u, rs[i]).Some?
  }

  /** Cleaning as a map over records. */
  function Cleaner(u: Rules): Record -> Record {
    (r: Record) => if Clean(u, r).Some? then Clean(u, r).value else r
  }

  function Map(f: Record -> Record, rs: seq<Record>): (out: seq<Record>)
    ensures |out| == |rs| && forall i :: 0 <= i < |rs| ==> out[i] == f(rs[i])
  {
    seq(|rs|, i requires 0 <= i < |rs| => f(rs[i]))
  }

  function Cleaned(u: Rules, rs: seq<Record>): (out: seq<Record>)
    ensures |out| == |rs| && forall i :: 0 <= i < |rs| && Clean(u, rs[i]).Some? ==> out[i] == Clean(u, rs[i]).value
  {
    Map(Cleaner(u), rs)
  }

  predicate DistinctKeys(rs: seq<Record>) {
    forall i, j :: 0 <= i < j < |rs| ==> !SameKey(rs[i], rs[j])
  }

  /** What a record list must be to pass. */
  predicate Valid(u: Rules, rs: seq<Record>) {
    AllClean(u, rs) && DistinctKeys(Cleaned(u, rs))
  }

  /** A key seen before belongs to an earlier record with the same three parts. */
  lemma {:induction false} DuplicateFound(u: Rules, was: seq<Record>, i: nat, done: seq<Record>, c: Record)
    requires CleanNames(u) && i < |was| && AllClean(u, was[..i]) && done == Cleaned(u, was[..i])
    requires Clean(u, was[i]) == Some(c) && exists j :: 0 <= j < i && Key(done[j]) == Key(c)
    ensures !Valid(u, was)
  {
    var j :| 0 <= j < i && Key(done[j]) == Key(c);
    KeyInjective(done[j], c);
    if AllClean(u, was) {
      assert Cleaned(u, was)[j] == done[j] && Cleaned(u, was)[i] == c;
    }
  }

  lemma {:induction false} FreshKey(u: Rules, was: seq<Record>, i: nat, done: seq<Record>, c: Record)
    requires CleanNames(u) && i < |was| && AllClean(u, was[..i]) && done == Cleaned(u, was[..i])
    requires Clean(u, was[i]) == Some(c) && forall j :: 0 <= j < i ==> Key(done[j]) != Key(c)
    requires DistinctKeys(done)
    ensures AllClean(u, was[..i + 1]) && DistinctKeys(done + [c])
  {
    forall j | 0 <= j < i
      ensures !SameKey(done[j], c)
    {
      KeyInjective(done[j], c);
    }
  }

  /** dnsZoneValidateRecords: normalizes in place and stops at the first fault. */
  method ValidateRecords(u: Rules, a: array<Record>) returns (ok: bool)
    requires CleanNames(u)
    modifies a
    ensures ok == Valid(u, old(a[..]))
    ensures ok ==> a[..] == Cleaned(u, old(a[..]))
  {
    ghost var was := a[..];
    var seen: set<string> := {};
    var i := 0;
    while i < a.Length
      invariant 0 <= i <= a.Length
      invariant a[i..] == was[i..]
      invariant AllClean(u, was[..i]) && a[..i] == Cleaned(u, was[..i]) && DistinctKeys(a[..i])
      invariant seen == set r | r in a[..i] :: Key(r)
    {
      var r := a[i];
      assert r == a[i..][0] == was[i];
      var c := Clean(u, r);
      if c.None? {
        assert !AllClean(u, was);
        return false;
      }
      if Key(c.value) in seen {
        var d :| d in a[..i] && Key(d) == Key(c.value);
        DuplicateFound(u, was, i, a[..i], c.value);
        return false;
      }
      FreshKey(u, was, i, a[..i], c.value);
      seen := seen + {Key(c.value)};
      a[i] := c.value;
      assert a[..i + 1] == a[..i] + [c.value];
      assert a[..i + 1] == Cleaned(u, was[..i + 1]);
      i := i + 1;
    }
    assert was[..i] == was && a[..i] == a[..];
    return true;
  }

  // ---------------------------------------------------------------------
  // Order does not matter to validation
  // ---------------------------------------------------------------------

  /** Two different places of a list hold records that clean to the same key. */
  ghost predicate Clash(u: Rules, m: multiset<Record>) {
    exists x, y :: x in m && y in m && (x == y ==> m[x] > 1)
      && Clean(u, x).Some? && Clean(u, y).Some? && SameKey(Clean(u, x).value, Clean(u, y).value)
  }

  lemma {:induction false} TwicePresent(rs: seq<Record>, i: nat, j: nat)
    requires i < j < |rs| && rs[i] == rs[j]
    ensures multiset(rs)[rs[i]] > 1
  {
    assert rs == rs[..i] + [rs[i]] + rs[i + 1..j] + [rs[j]] + rs[j + 1..];
  }

  lemma {:induction false} FindTwice(rs: seq<Record>, x: Record) returns (i: nat, j: nat)
    requires multiset(rs)[x] > 1
    ensures i < j < |rs| && rs[i] == x && rs[j] == x
  {
    i :| 0 <= i < |rs| && rs[i] == x;
    var rest := rs[..i] + rs[i + 1..];
    assert rs == rs[..i] + [x] + rs[i + 1..];
    assert multiset(rest)[x] > 0;
    assert x in rest;
    var k :| 0 <= k < |rest| && rest[k] == x;
    j := if k < i then k else k + 1;
    assert rs[j] == x;
    if j < i { i, j := j, i; }
  }

  lemma {:induction false} FindTwo(rs: seq<Record>, x: Record, y: Record) returns (i: nat, j: nat)
    requires x in rs && y in rs && (x == y ==> multiset(rs)[x] > 1)
    ensures i < |rs| && j < |rs| && i != j && rs[i] == x && rs[j] == y
  {
    if x == y {
      i, j := FindTwice(rs, x);
    } else {
      i :| 0 <= i < |rs| && rs[i] == x;
      j :| 0 <= j < |rs| && rs[j] == y;
    }
  }

  lemma {:induction false} ClashFound(u: Rules, rs: seq<Record>)
    requires AllClean(u, rs) && Clash(u, multiset(rs))
    ensures !DistinctKeys(Cleaned(u, rs))
  {
    var m := multiset(rs);
    var x, y :| x in m && y in m && (x == y ==> m[x] > 1)
      && Clean(u, x).Some? && Clean(u, y).Some? && SameKey(Clean(u, x).value, Clean(u, y).value);
    var i, j := FindTwo(rs, x, y);
    var cs := Cleaned(u, rs);
    assert SameKey(cs[i], cs[j]) && SameKey(cs[j], cs[i]);
  }

  lemma {:induction false} ValidByMultiset(u: Rules, rs: seq<Record>)
    ensures Valid(u, rs) <==> (forall r :: r in multiset(rs) ==> Clean(u, r).Some?) && !Clash(u, multiset(rs))
  {
    assert AllClean(u, rs) <==> forall r :: r in multiset(rs) ==> Clean(u, r).Some?;
    if AllClean(u, rs) {
      var cs := Cleaned(u, rs);
      if !DistinctKeys(cs) {
        var i, j :| 0 <= i < j < |cs| && SameKey(cs[i], cs[j]);
        if rs[i] == rs[j] { TwicePresent(rs, i, j); }
        assert rs[i] in multiset(rs) && rs[j] in multiset(rs);
        assert Clash(u, multiset(rs));
      }
      if Clash(u, multiset(rs)) {
        ClashFound(u, rs);
      }
    }
  }

  /** One order of a record list passes exactly when any other does. */
  lemma {:induction false} PermutedValidity(u: Rules, a: seq<Record>, b: seq<Record>)
    requires multiset(a) == multiset(b)
    ensures Valid(u, a) <==> Valid(u, b)
  {
    ValidByMultiset(u, a);
    ValidByMultiset(u, b);
  }

  lemma {:induction false} MapSplit(f: Record -> Record, a: seq<Record>, b: seq<Record>)
    ensures Map(f, a + b) == Map(f, a) + Map(f, b)
  {
  }

  lemma {:induction false} Cancel(p: multiset<Record>, q: multiset<Record>, x: Record)
    requires p + multiset{x} == q + multiset{x}
    ensures p == q
  {
    assert p == (p + multiset{x}) - multiset{x};
    assert q == (q + multiset{x}) - multiset{x};
  }

  lemma {:induction false} RemoveOne(a: seq<Record>, b: seq<Record>) returns (i: nat)
    requires a != [] && multiset(a) == multiset(b)
    ensures i < |b| && b[i] == a[|a| - 1]
    ensures multiset(a[..|a| - 1]) == multiset(b[..i] + b[i + 1..])
  {
    var x := a[|a| - 1];
    assert x in multiset(b);
    i :| 0 <= i < |b| && b[i] == x;
    assert a == a[..|a| - 1] + [x];
    assert b == b[..i] + [x] + b[i + 1..];
    assert multiset(a) == multiset(a[..|a| - 1]) + multiset{x};
    assert multiset(b) == multiset(b[..i] + b[i + 1..]) + multiset{x};
    Cancel(multiset(a[..|a| - 1]), multiset(b[..i] + b[i + 1..]), x);
  }

  lemma {:induction false} MapWithOne(f: Record -> Record, l: seq<Record>, r: seq<Record>, x: Record)
    ensures multiset(Map(f, l + [x] + r)) == multiset(Map(f, l + r)) + multiset{f(x)}
  {
    MapSplit(f, l, r);
    MapSplit(f, l + [x], r);
    MapSplit(f, l, [x]);
    assert Map(f, [x]) == [f(x)];
  }

  /** Mapping a permutation gives a permutation. */
  lemma {:induction false} MapMultiset(f: Record -> Record, a: seq<Record>, b: seq<Record>)
    requires multiset(a) == multiset(b)
    ensures multiset(Map(f, a)) == multiset(Map(f, b))
    decreases |a|
  {
    if a == [] {
      assert |multiset(b)| == 0;
      assert b == [];
    } else {
      var n := |a| - 1;
      var i := RemoveOne(a, b);
      var l, r, x := b[..i], b[i + 1..], a[n];
      MapMultiset(f, a[..n], l + r);
      assert a == a[..n] + [x] && b == l + [x] + r;
      MapWithOne(f, a[..n], [], x);
      MapWithOne(f, l, r, x);
      assert a[..n] + [] == a[..n] && a[..n] + [x] + [] == a;
    }
  }

  // ---------------------------------------------------------------------
  // Sorting
  // ---------------------------------------------------------------------

  /** The apex sorts first. */
  function SortName(name: string): string {
    if name == "@" then "" else name
  }

  /** The renderer's comparator. */
  predicate Less(a: Record, b: Record) {
    var x, y := SortName(a.name), SortName(b.name);
    if x != y then StrLess(x, y)
    else if a.typ != b.typ then StrLess(a.typ, b.typ)
    else StrLess(a.value, b.value)
  }

  lemma {:induction false} LessTotal(a: Record, b: Record)
    requires a.name != "" && b.name != ""
    ensures Less(a, b) || SameKey(a, b) || Less(b, a)
    ensures !(Less(a, b) && Less(b, a)) && (SameKey(a, b) ==> !Less(a, b))
  {
    StrTotal(SortName(a.name), SortName(b.name));
    StrTotal(a.typ, b.typ);
    StrTotal(a.value, b.value);
  }

  lemma {:induction false} LessTrans(a: Record, b: Record, c: Record)
    requires Less(a, b) && Less(b, c)
    ensures Less(a, c)
  {
    var x, y, z := SortName(a.name), SortName(b.name), SortName(c.name);
    StrTotal(x, y);
    StrTotal(y, z);
    if x != y && y != z { StrTrans(x, y, z); StrTotal(x, z); }
    if x == y == z {
      StrTotal(a.typ, b.typ);
      StrTotal(b.typ, c.typ);
      if a.typ != b.typ && b.typ != c.typ { StrTrans(a.typ, b.typ, c.typ); StrTotal(a.typ, c.typ); }
      if a.typ == b.typ == c.typ { StrTrans(a.value, b.value, c.value); }
    }
  }

  type Order = (Record, Record) -> bool

  predicate SortedBy(lt: Order, rs: seq<Record>) {
    forall i, j :: 0 <= i < j < |rs| ==> lt(rs[i], rs[j])
  }

  predicate Sorted(rs: seq<Record>) {
    SortedBy(Less, rs)
  }

  lemma {:induction false} StartsAlike(a: string, b: string, k: nat)
    requires k <= |a| && k <= |b| && a[..k] == b[..k]
    ensures k == 0 || a[0] == b[0]
  {
    if k > 0 { assert a[..k][0] == b[..k][0]; }
  }

  /** Byte order: a proper start comes first, else the first byte that differs decides. */
  lemma {:induction false} StrLessIs(a: string, b: string)
    ensures StrLess(a, b) <==>
            exists k :: 0 <= k <= |a| && k < |b| && a[..k] == b[..k] && (k == |a| || a[k] < b[k])
    decreases |a|
  {
    if a == "" {
      if b != "" { assert a[..0] == b[..0]; }
    } else if b != "" && a[0] == b[0] {
      StrLessIs(a[1..], b[1..]);
      if StrLess(a, b) {
        var k :| 0 <= k <= |a| - 1 && k < |b| - 1 && a[1..][..k] == b[1..][..k]
                 && (k == |a| - 1 || a[1..][k] < b[1..][k]);
        assert a[..k + 1] == [a[0]] + a[1..][..k] && b[..k + 1] == [b[0]] + b[1..][..k];
      }
      if k :| 0 <= k <= |a| && k < |b| && a[..k] == b[..k] && (k == |a| || a[k] < b[k]) {
        assert k > 0;
        assert a[1..][..k - 1] == a[..k][1..] && b[1..][..k - 1] == b[..k][1..];
      }
    } else if b != "" {
      if a[0] < b[0] { assert a[..0] == b[..0]; }
      if k :| 0 <= k <= |a| && k < |b| && a[..k] == b[..k] && (k == |a| || a[k] < b[k]) {
        StartsAlike(a, b, k);
      }
    }
  }

  /** In a sorted list the records of the apex come first, then names, types and values go up. */
  lemma {:induction false} SortedIs(rs: seq<Record>, i: nat, j: nat)
    requires Sorted(rs) && NamesSet(rs) && i < j < |rs|
    ensures var a, b := rs[i], rs[j];
            && (b.name == "@" ==> a.name == "@")
            && (a.name != "@" && a.name != b.name ==> StrLess(a.name, b.name))
            && (a.name == b.name && a.typ != b.typ ==> StrLess(a.typ, b.typ))
            && (a.name == b.name && a.typ == b.typ ==> StrLess(a.value, b.value))
  {
    assert Less(rs[i], rs[j]);
  }

  predicate NamesSet(rs: seq<Record>) {
    forall i :: 0 <= i < |rs| ==> rs[i].name != ""
  }

  lemma {:induction false} InsertedSorted(lt: Order, s: seq<Record>, k: nat, r: Record)
    requires k <= |s| && SortedBy(lt, s)
    requires (forall j :: 0 <= j < k ==> lt(s[j], r)) && forall j :: k <= j < |s| ==> lt(r, s[j])
    ensures SortedBy(lt, s[..k] + [r] + s[k..])
  {
  }

  method Insert(lt: Order, s: seq<Record>, r: Record) returns (out: seq<Record>)
    requires SortedBy(lt, s) && (forall x :: x in s ==> lt(x, r) || lt(r, x))
    requires forall x, y :: lt(x, y) && lt(y, r) ==> lt(x, r)
    ensures SortedBy(lt, out) && multiset(out) == multiset(s) + multiset{r}
  {
    var k := |s|;
    while k > 0 && lt(r, s[k - 1])
      invariant 0 <= k <= |s|
      invariant forall j :: k <= j < |s| ==> lt(r, s[j])
    {
      k := k - 1;
    }
    out := s[..k] + [r] + s[k..];
    assert s == s[..k] + s[k..];
    forall j | 0 <= j < k
      ensures lt(s[j], r)
    {
      assert s[k - 1] in s && lt(s[k - 1], r);
      assert j < k - 1 ==> lt(s[j], s[k - 1]);
    }
    InsertedSorted(lt, s, k, r);
  }

  /** The sort, on records with distinct keys; any correct sort gives this result. */
  method SortRecords(rs: seq<Record>) returns (out: seq<Record>)
    requires DistinctKeys(rs) && NamesSet(rs)
    ensures multiset(out) == multiset(rs) && Sorted(out)
  {
    out := [];
    for i := 0 to |rs|
      invariant multiset(out) == multiset(rs[..i]) && Sorted(out)
    {
      assert rs[..i + 1] == rs[..i] + [rs[i]];
      forall x | x in out
        ensures Less(x, rs[i]) || Less(rs[i], x)
      {
        assert x in multiset(rs[..i]);
        LessTotal(x, rs[i]);
      }
      forall x, y | Less(x, y) && Less(y, rs[i])
        ensures Less(x, rs[i])
      {
        LessTrans(x, y, rs[i]);
      }
      out := Insert(Less, out, rs[i]);
    }
    assert rs[..|rs|] == rs;
  }

  lemma {:induction false} CancelFirst(x: Record, a: seq<Record>, b: seq<Record>)
    requires multiset([x] + a) == multiset([x] + b)
    ensures multiset(a) == multiset(b)
  {
    assert multiset([x] + a) == multiset(a) + multiset{x};
    assert multiset([x] + b) == multiset(b) + multiset{x};
    Cancel(multiset(a), multiset(b), x);
  }

  lemma {:induction false} SameFirst(lt: Order, a: seq<Record>, b: seq<Record>)
    requires SortedBy(lt, a) && SortedBy(lt, b) && multiset(a) == multiset(b) && a != []
    requires forall x, y :: x in a && y in a ==> !(lt(x, y) && lt(y, x))
    ensures b != [] && a[0] == b[0]
  {
    assert forall i :: 0 < i < |a| ==> lt(a[0], a[i]);
    assert forall i :: 0 < i < |b| ==> lt(b[0], b[i]);
    assert a[0] in multiset(b);
    var k :| 0 <= k < |b| && b[k] == a[0];
    assert b[0] in multiset(a);
    var m :| 0 <= m < |a| && a[m] == b[0];
    assert a[0] in a && a[m] in a;
  }

  /** There is only one sorted arrangement of a multiset. */
  lemma {:induction false} SortedUnique(lt: Order, a: seq<Record>, b: seq<Record>)
    requires SortedBy(lt, a) && SortedBy(lt, b) && multiset(a) == multiset(b)
    requires forall x, y :: x in a && y in a ==> !(lt(x, y) && lt(y, x))
    ensures a == b
    decreases |a|
  {
    if a == [] {
      assert |multiset(b)| == 0;
    } else {
      SameFirst(lt, a, b);
      var x := a[0];
      var a', b' := a[1..], b[1..];
      assert a == [x] + a' && b == [x] + b';
      CancelFirst(x, a', b');
      assert forall y :: y in a' ==> y in a;
      SortedUnique(lt, a', b');
    }
  }

  /** Header lines, then one line per record in sorted order. */
  function ZoneFile(head: seq<string>, line: Record -> string, sorted: seq<Record>): seq<string> {
    head + seq(|sorted|, i requires 0 <= i < |sorted| => line(sorted[i]))
  }

  /** The file is the header, and behind it the records line by line. */
  lemma {:induction false} ZoneFileIs(head: seq<string>, line: Record -> string, sorted: seq<Record>)
    ensures var text := ZoneFile(head, line, sorted);
            && |text| == |head| + |sorted| && text[..|head|] == head
            && forall i :: 0 <= i < |sorted| ==> text[|head| + i] == line(sorted[i])
  {
  }

  /**
   Any two orders of one record list validate alike and render byte for byte
   alike, whatever their TTLs and priorities, because no two records that
   compare equal survive validation.
   */
  lemma {:induction false} PermutationsRenderAlike(u: Rules, head: seq<string>, line: Record -> string, a: seq<Record>,
                                                   b: seq<Record>, sa: seq<Record>, sb: seq<Record>)
    requires CleanNames(u) && multiset(a) == multiset(b) && Valid(u, a)
    requires Sorted(sa) && multiset(sa) == multiset(Cleaned(u, a))
    requires Valid(u, b) ==> Sorted(sb) && multiset(sb) == multiset(Cleaned(u, b))
    ensures Valid(u, b) && ZoneFile(head, line, sa) == ZoneFile(head, line, sb)
  {
    PermutedValidity(u, a, b);
    MapMultiset(Cleaner(u), a, b);
    forall x | x in sa
      ensures x.name != ""
    {
      assert x in multiset(Cleaned(u, a));
    }
    forall x, y | x in sa && y in sa
      ensures !(Less(x, y) && Less(y, x))
    {
      LessTotal(x, y);
    }
    SortedUnique(Less, sa, sb);
  }

  /** Without the duplicate check the order would show: equal keys, different TTLs. */
  lemma {:induction false} TiesWouldShow()
    ensures var x, y := Record("@", "A", "1.2.3.4", 60, 0), Record("@", "A", "1.2.3.4", 300, 0);
            x != y && !Less(x, y) && !Less(y, x)
  {
    StrTotal("1.2.3.4", "1.2.3.4");
  }

  // ---------------------------------------------------------------------
  // TXT quoting
  // ---------------------------------------------------------------------

  /** Every occurrence of `c` replaced. */
  function ReplaceAll(s: string, c: char, rep: string): string {
    if s == "" then "" else (if s[0] == c then rep else [s[0]]) + ReplaceAll(s[1..], c, rep)
  }

  /** dnsZoneQuoteTXT: backslashes first, then quotes. */
  function QuoteTXT(v: string): string {
    "\"" + ReplaceAll(ReplaceAll(v, '\\', "\\\\"), '"', "\\\"") + "\""
  }

  /** A quoted string as a zone file reader takes it: None if it does not end at its last quote. */
  function Unescape(s: string): Option<string> {
    if s == "" then None
    else if s[0] == '"' then (if |s| == 1 then Some("") else None)
    else if s[0] == '\\' then
      if |s| == 1 then None
      else
        (match Unescape(s[2..])
         case None => None
         case Some(t) => Some([s[1]] + t))
    else
      match Unescape(s[1..])
      case None => None
      case Some(t) => Some([s[0]] + t)
  }

  function UnquoteTXT(s: string): Option<string> {
    if s != "" && s[0] == '"' then Unescape(s[1..]) else None
  }

  lemma {:induction false} ReplaceConcat(a: string, b: string, c: char, rep: string)
    ensures ReplaceAll(a + b, c, rep) == ReplaceAll(a, c, rep) + ReplaceAll(b, c, rep)
    decreases |a|
  {
    if a == "" {
      assert a + b == b;
    } else {
      assert (a + b)[1..] == a[1..] + b;
      ReplaceConcat(a[1..], b, c, rep);
    }
  }

  /** The text between the quotes. */
  function Escaped(v: string): string {
    ReplaceAll(ReplaceAll(v, '\\', "\\\\"), '"', "\\\"")
  }

  lemma {:induction false} ReplaceOne(c: char, d: char, rep: string)
    ensures ReplaceAll([d], c, rep) == if d == c then rep else [d]
  {
    assert [d][1..] == "";
  }

  lemma {:induction false} EscapedCons(v: string)
    requires v != ""
    ensures Escaped(v) == (if v[0] == '\\' then "\\\\" else if v[0] == '"' then "\\\"" else [v[0]]) + Escaped(v[1..])
  {
    var d := v[0];
    var first := if d == '\\' then "\\\\" else [d];
    ReplaceConcat(first, ReplaceAll(v[1..], '\\', "\\\\"), '"', "\\\"");
    if d == '\\' {
      ReplaceConcat("\\", "\\", '"', "\\\"");
      ReplaceOne('"', '\\', "\\\"");
      assert "\\" + "\\" == "\\\\";
    } else {
      ReplaceOne('"', d, "\\\"");
    }
  }

  lemma {:induction false} UnescapeStep(d: char, rest: string)
    requires Unescape(rest).Some?
    ensures var e := if d == '\\' then "\\\\" else if d == '"' then "\\\"" else [d];
            Unescape(e + rest) == Some([d] + Unescape(rest).value)
  {
    var e := if d == '\\' then "\\\\" else if d == '"' then "\\\"" else [d];
    var s := e + rest;
    if d == '\\' || d == '"' {
      assert s[0] == '\\' && s[1] == d && s[2..] == rest;
    } else {
      assert s[0] == d && s[1..] == rest;
    }
  }

  lemma {:induction false} UnescapeEscaped(v: string)
    ensures Unescape(Escaped(v) + "\"") == Some(v)
    decreases |v|
  {
    if v == "" {
      assert Escaped(v) + "\"" == "\"";
    } else {
      UnescapeEscaped(v[1..]);
      EscapedCons(v);
      UnescapeStep(v[0], Escaped(v[1..]) + "\"");
      var e := if v[0] == '\\' then "\\\\" else if v[0] == '"' then "\\\"" else [v[0]];
      assert Escaped(v) + "\"" == e + (Escaped(v[1..]) + "\"");
      assert v == [v[0]] + v[1..];
    }
  }

  /** Quoting is undone exactly, whatever quotes and backslashes the value holds. */
  lemma {:induction false} TxtRoundTrip(v: string)
    ensures UnquoteTXT(QuoteTXT(v)) == Some(v)
  {
    UnescapeEscaped(v);
    assert QuoteTXT(v)[1..] == Escaped(v) + "\"";
  }
}
