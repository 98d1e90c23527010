/**
 Merging zone declarations into the include file: keep the live ones under the
 zones root, upsert one domain, or sweep one site; print in name order.
 */
module DnsMerge {
  import opened Common
  import opened DnsZone
  import opened DnsInclude

  type ZoneMap = map<string, string>

  /** The file system as a merge sees it. */
  datatype Disk = Disk(exists_: string -> bool, under: (string, string) -> bool,
                       rootOf: string -> string, join: (string, string) -> string)

  // ---------------------------------------------------------------------
  // Name order
  // ---------------------------------------------------------------------

  predicate Ascending(s: seq<string>) {
    forall i, j :: 0 <= i < j < |s| ==> StrLess(s[i], s[j])
  }

  predicate Smallest(x: string, names: set<string>) {
    x in names && forall y :: y in names ==> y == x || StrLess(x, y)
  }

  lemma {:induction false} SmallestExists(names: set<string>)
    requires names != {}
    ensures exists x :: Smallest(x, names)
    decreases |names|
  {
    var z :| z in names;
    if names == {z} {
      assert Smallest(z, names);
    } else {
      var rest := names - {z};
      SmallestExists(rest);
      var x :| Smallest(x, rest);
      StrTotal(z, x);
      if StrLess(z, x) {
        forall y | y in names
          ensures y == z || StrLess(z, y)
        {
          if y != z && y != x { StrTrans(z, x, y); }
        }
        assert Smallest(z, names);
      } else {
        assert Smallest(x, names);
      }
    }
  }

  /** The names of a set in byte order. */
  ghost function InOrder(names: set<string>): (s: seq<string>)
    ensures Ascending(s) && forall x :: x in s <==> x in names
    decreases |names|
  {
    if names == {} then []
    else
      SmallestExists(names);
      var m :| Smallest(m, names);
      var rest := InOrder(names - {m});
      assert forall i :: 0 <= i < |rest| ==> rest[i] in names - {m};
      [m] + rest
  }

  lemma {:induction false} SmallestFirst(a: seq<string>, x: string)
    requires Ascending(a) && x in a
    ensures a[0] == x || StrLess(a[0], x)
  {
  }

  lemma {:induction false} AscendingRest(a: seq<string>)
    requires Ascending(a) && a != []
    ensures Ascending(a[1..]) && forall x :: x in a[1..] <==> x in a && x != a[0]
  {
    forall x | x in a[1..]
      ensures x in a && x != a[0]
    {
      var i :| 0 <= i < |a[1..]| && a[1..][i] == x;
      StrTotal(a[0], a[i + 1]);
      assert a[i + 1] == x;
    }
    assert a == [a[0]] + a[1..];
  }

  lemma {:induction false} AscendingUnique(a: seq<string>, b: seq<string>)
    requires Ascending(a) && Ascending(b) && forall x :: x in a <==> x in b
    ensures a == b
    decreases |a|
  {
    if a == [] {
      assert forall i :: 0 <= i < |b| ==> b[i] in b;
    } else {
      assert a[0] in b;
      assert b[0] in a;
      SmallestFirst(a, b[0]);
      SmallestFirst(b, a[0]);
      StrTotal(a[0], b[0]);
      AscendingRest(a);
      AscendingRest(b);
      AscendingUnique(a[1..], b[1..]);
      assert a == [a[0]] + a[1..] && b == [b[0]] + b[1..];
    }
  }

  // ---------------------------------------------------------------------
  // The merged map
  // ---------------------------------------------------------------------

  type Test = Decl -> bool

  /** The declarations that pass, the later winning over the earlier. */
  function Collect(f: Test, ds: seq<Decl>): ZoneMap {
    if ds == [] then map[]
    else
      var d := ds[|ds| - 1];
      var m := Collect(f, ds[..|ds| - 1]);
      if f(d) then m[d.name := d.file] else m
  }

  /** Directory that a sweep clears; empty when a domain is being upserted. */
  function SweptDir(k: Disk, site: string, domain: string, root: string): string {
    if domain == "" && site != "" then k.join(root, site) else ""
  }

  /** What a merge keeps of the existing declarations. */
  function Keeps(k: Disk, site: string, domain: string, file: string): Test {
    var root := k.rootOf(file);
    var swept := SweptDir(k, site, domain, root);
    (d: Decl) =>
      d.name != domain && k.under(d.file, root) && !(swept != "" && k.under(d.file, swept)) && k.exists_(d.file)
  }

  function Upserted(m: ZoneMap, domain: string, file: string): ZoneMap {
    if domain == "" then m else m[domain := file]
  }

  function Merged(k: Disk, existing: seq<Decl>, site: string, domain: string, file: string): ZoneMap {
    Upserted(Collect(Keeps(k, site, domain, file), existing), domain, file)
  }

  function ByName(m: ZoneMap, names: seq<string>): seq<Decl>
    requires forall n :: n in names ==> n in m
  {
    seq(|names|, i requires 0 <= i < |names| => assert names[i] in names; Decl(names[i], m[names[i]]))
  }

  /** The declarations of a map in name order. */
  ghost function InNameOrder(m: ZoneMap): seq<Decl> {
    ByName(m, InOrder(m.Keys))
  }

  /** MergeZoneDeclarations: no text without a zone file path. */
  ghost function MergedText(k: Disk, existing: string, site: string, domain: string, file: string): Option<string> {
    if file == "" then None else Some(IncludeText(InNameOrder(Merged(k, Parsed(existing), site, domain, file))))
  }

  method CollectKept(f: Test, ds: seq<Decl>) returns (kept: ZoneMap)
    ensures kept == Collect(f, ds)
  {
    kept := map[];
    for i := 0 to |ds|
      invariant kept == Collect(f, ds[..i])
    {
      assert ds[..i + 1][..i] == ds[..i];
      if !f(ds[i]) {
        continue;
      }
      kept := kept[ds[i].name := ds[i].file];
    }
    assert ds[..|ds|] == ds;
  }

  lemma {:induction false} InsertedAscending(s: seq<string>, i: nat, n: string)
    requires i <= |s| && Ascending(s)
    requires (forall j :: 0 <= j < i ==> StrLess(s[j], n)) && forall j :: i <= j < |s| ==> StrLess(n, s[j])
    ensures Ascending(s[..i] + [n] + s[i..])
  {
  }

  method InsertName(s: seq<string>, n: string) returns (out: seq<string>)
    requires Ascending(s) && n !in s
    ensures Ascending(out) && forall x :: x in out <==> x in s || x == n
  {
    var i := |s|;
    while i > 0 && StrLess(n, s[i - 1])
      invariant 0 <= i <= |s|
      invariant forall j :: i <= j < |s| ==> StrLess(n, s[j])
    {
      i := i - 1;
    }
    out := s[..i] + [n] + s[i..];
    assert s == s[..i] + s[i..];
    forall j | 0 <= j < i
      ensures StrLess(s[j], n)
    {
      StrTotal(n, s[i - 1]);
      if j < i - 1 { StrTrans(s[j], s[i - 1], n); }
    }
    InsertedAscending(s, i, n);
  }

  /** The keys of a map, taken in any order and then sorted. */
  method SortedNames(names: set<string>) returns (out: seq<string>)
    ensures out == InOrder(names)
  {
    out := [];
    var left := names;
    while left != {}
      invariant left <= names
      invariant Ascending(out) && forall x :: x in out <==> x in names && x !in left
      decreases |left|
    {
      var n :| n in left;
      out := InsertName(out, n);
      left := left - {n};
    }
    AscendingUnique(out, InOrder(names));
  }

  method MergeZoneDeclarations(k: Disk, existing: string, site: string, domain: string, file: string)
    returns (text: Option<string>)
    ensures text == MergedText(k, existing, site, domain, file)
  {
    if file == "" {
      return None;
    }
    var ds := ParseDeclarations(existing);
    var kept := CollectKept(Keeps(k, site, domain, file), ds);
    if domain != "" {
      kept := kept[domain := file];
    }
    var names := SortedNames(kept.Keys);
    return Some(IncludeText(ByName(kept, names)));
  }

  // ---------------------------------------------------------------------
  // Printing and reading a map
  // ---------------------------------------------------------------------

  predicate PlainMap(m: ZoneMap) {
    forall n :: n in m ==> PlainDecl(Decl(n, m[n]))
  }

  /** Reading a printed map gives its declarations back. */
  lemma {:induction false} MapReadsBack(m: ZoneMap)
    requires PlainMap(m)
    ensures Parsed(IncludeText(InNameOrder(m))) == InNameOrder(m)
  {
    var ds := InNameOrder(m);
    forall d | d in ds
      ensures PlainDecl(d)
    {
      var i :| 0 <= i < |ds| && ds[i] == d;
      assert InOrder(m.Keys)[i] in InOrder(m.Keys);
    }
    IncludeReadsBack(ds);
  }

  lemma {:induction false} CollectByName(f: Test, m: ZoneMap, names: seq<string>)
    requires (forall n :: n in names ==> n in m) && Ascending(names)
    ensures Collect(f, ByName(m, names)) == map n | n in names && f(Decl(n, m[n])) :: m[n]
    decreases |names|
  {
    if names != [] {
      var i := |names| - 1;
      var init := names[..i];
      assert names == init + [names[i]];
      assert names[i] in names;
      CollectByName(f, m, init);
      assert ByName(m, names)[..i] == ByName(m, init);
    }
  }

  /** Collecting from the declarations of a map filters the map. */
  lemma {:induction false} CollectOfMap(f: Test, m: ZoneMap)
    ensures Collect(f, InNameOrder(m)) == map n | n in m && f(Decl(n, m[n])) :: m[n]
  {
    CollectByName(f, m, InOrder(m.Keys));
  }

  lemma {:induction false} CollectPlain(f: Test, ds: seq<Decl>)
    requires forall d :: d in ds && f(d) ==> PlainDecl(d)
    ensures PlainMap(Collect(f, ds))
    ensures forall n :: n in Collect(f, ds) ==> f(Decl(n, Collect(f, ds)[n]))
    decreases |ds|
  {
    if ds != [] {
      var i := |ds| - 1;
      CollectPlain(f, ds[..i]);
      assert ds[i] in ds;
    }
  }

  /** Everything worth keeping in the text can be printed as it stands. */
  ghost predicate PlainText(existing: string) {
    forall d :: d in Parsed(existing) ==> PlainDecl(d)
  }

  lemma {:induction false} MergedPlain(k: Disk, existing: string, site: string, domain: string, file: string)
    requires PlainText(existing) && Plain(file) && (domain == "" || Plain(domain))
    ensures PlainMap(Merged(k, Parsed(existing), site, domain, file))
  {
    CollectPlain(Keeps(k, site, domain, file), Parsed(existing));
  }

  /** After a merge the text stands for exactly the merged map. */
  lemma {:induction false} MergeReadsBack(k: Disk, existing: string, site: string, domain: string, file: string)
    requires PlainText(existing) && Plain(file) && (domain == "" || Plain(domain))
    ensures var m := Merged(k, Parsed(existing), site, domain, file);
            && Parsed(MergedText(k, existing, site, domain, file).value) == InNameOrder(m)
            && PlainText(MergedText(k, existing, site, domain, file).value)
  {
    var m := Merged(k, Parsed(existing), site, domain, file);
    MergedPlain(k, existing, site, domain, file);
    MapReadsBack(m);
    forall d | d in InNameOrder(m)
      ensures PlainDecl(d)
    {
      var i :| 0 <= i < |InNameOrder(m)| && InNameOrder(m)[i] == d;
      assert InOrder(m.Keys)[i] in InOrder(m.Keys);
    }
  }

  // ---------------------------------------------------------------------
  // Laws
  // ---------------------------------------------------------------------

  /** What was kept and upserted once is kept and upserted the same again. */
  lemma {:induction false} CollectAgain(f: Test, kept: ZoneMap, domain: string, file: string)
    requires forall n :: n in kept ==> f(Decl(n, kept[n]))
    ensures var m := Upserted(kept, domain, file); Upserted(Collect(f, InNameOrder(m)), domain, file) == m
  {
    CollectOfMap(f, Upserted(kept, domain, file));
  }

  /** A second identical merge changes nothing. */
  lemma {:induction false} MergeIdempotent(k: Disk, existing: string, site: string, domain: string, file: string)
    requires PlainText(existing) && Plain(file) && (domain == "" || Plain(domain))
    ensures var once := MergedText(k, existing, site, domain, file).value;
            MergedText(k, once, site, domain, file) == Some(once)
  {
    var f := Keeps(k, site, domain, file);
    var kept := Collect(f, Parsed(existing));
    MergeReadsBack(k, existing, site, domain, file);
    CollectPlain(f, Parsed(existing));
    CollectAgain(f, kept, domain, file);
  }

  /** What passes a test. */
  function Passing(f: Test, m: ZoneMap): ZoneMap {
    map n | n in m && f(Decl(n, m[n])) :: m[n]
  }

  /** The upserted domains stand as given, and elsewhere what was kept the first time. */
  lemma {:induction false} OneWay(f1: Test, f2: Test, c1: ZoneMap, d1: Decl, d2: Decl)
    requires d1.name != d2.name && f2(d1)
    requires forall n :: n in c1 ==> f1(Decl(n, c1[n]))
    requires forall d: Decl :: d.name != d1.name && d.name != d2.name ==> f1(d) == f2(d)
    ensures var a := Passing(f2, c1[d1.name := d1.file])[d2.name := d2.file];
            && d1.name in a && a[d1.name] == d1.file && d2.name in a && a[d2.name] == d2.file
            && forall n :: n != d1.name && n != d2.name ==> (n in a <==> n in c1) && (n in a ==> a[n] == c1[n])
  {
    assert d1 == Decl(d1.name, d1.file);
    forall n | n != d1.name && n != d2.name && n in c1
      ensures f2(Decl(n, c1[n]))
    {
      assert f1(Decl(n, c1[n])) == f2(Decl(n, c1[n]));
    }
  }

  /** Either order of filtering and upserting two different domains ends in the same map. */
  lemma {:induction false} Crossed(f1: Test, f2: Test, c1: ZoneMap, c2: ZoneMap, d1: Decl, d2: Decl)
    requires d1.name != d2.name && f2(d1) && f1(d2)
    requires forall n :: n in c1 ==> f1(Decl(n, c1[n])) && n != d1.name
    requires forall n :: n in c2 ==> f2(Decl(n, c2[n])) && n != d2.name
    requires forall d: Decl :: d.name != d1.name && d.name != d2.name ==> f1(d) == f2(d)
    requires forall d: Decl :: f1(d) ==> d.name != d1.name
    requires forall d: Decl :: f2(d) ==> d.name != d2.name
    requires forall n :: n != d1.name && n != d2.name ==> (n in c1 <==> n in c2) && (n in c1 ==> c1[n] == c2[n])
    ensures Passing(f2, c1[d1.name := d1.file])[d2.name := d2.file] ==
        Passing(f1, c2[d2.name := d2.file])[d1.name := d1.file]
  {
    var a := Passing(f2, c1[d1.name := d1.file])[d2.name := d2.file];
    var b := Passing(f1, c2[d2.name := d2.file])[d1.name := d1.file];
    assert d1 == Decl(d1.name, d1.file) && d2 == Decl(d2.name, d2.file);
    OneWay(f1, f2, c1, d1, d2);
    OneWay(f2, f1, c2, d2, d1);
    assert forall n :: (n in a <==> n in b) && (n in a ==> a[n] == b[n]);
  }

  /** Two tests that differ only in the domain they leave out collect the same elsewhere. */
  lemma {:induction false} SameButDomains(f1: Test, f2: Test, ds: seq<Decl>, dom1: string, dom2: string)
    requires forall d: Decl :: d.name != dom1 && d.name != dom2 ==> f1(d) == f2(d)
    ensures forall n :: n != dom1 && n != dom2 ==>
              (n in Collect(f1, ds) <==> n in Collect(f2, ds))
                  && (n in Collect(f1, ds) ==> Collect(f1, ds)[n] == Collect(f2, ds)[n])
    ensures (forall d: Decl :: f1(d) ==> d.name != dom1) ==> dom1 !in Collect(f1, ds)
    ensures (forall d: Decl :: f2(d) ==> d.name != dom2) ==> dom2 !in Collect(f2, ds)
    decreases |ds|
  {
    if ds != [] { SameButDomains(f1, f2, ds[..|ds| - 1], dom1, dom2); }
  }

  datatype Call = Call(k: Disk, site: string, domain: string, file: string)

  /** Names and paths as the agent makes them: printable ASCII without quotes, backslashes or braces. */
  predicate PlainCall(c: Call) {
    Plain(c.file) && (c.domain == "" || Plain(c.domain))
  }

  /** The include file after a sequence of merges into an empty one. */
  ghost function MergeAll(calls: seq<Call>): string {
    if calls == [] then ""
    else
      var c := calls[|calls| - 1];
      var existing := MergeAll(calls[..|calls| - 1]);
      match MergedText(c.k, existing, c.site, c.domain, c.file)
      case Some(text) => text
      case None => existing
  }

  /** Every text the agent ever writes is one the other laws speak about. */
  lemma {:induction false} MergesStayPlain(calls: seq<Call>)
    requires forall i :: 0 <= i < |calls| ==> PlainCall(calls[i])
    ensures PlainText(MergeAll(calls))
    decreases |calls|
  {
    if calls == [] {
      assert Parsed("") == [];
    } else {
      var init, c := calls[..|calls| - 1], calls[|calls| - 1];
      MergesStayPlain(init);
      MergeReadsBack(c.k, MergeAll(init), c.site, c.domain, c.file);
    }
  }

  /** Merges of two domains commute while both zone files exist under the shared root. */
  lemma {:induction false} MergesCommute(k: Disk, existing: string, site1: string, dom1: string, file1: string,
                                         site2: string, dom2: string, file2: string)
    requires PlainText(existing) && Plain(dom1) && Plain(file1) && Plain(dom2) && Plain(file2) && dom1 != dom2
    requires k.rootOf(file1) == k.rootOf(file2)
    requires k.under(file1, k.rootOf(file1)) && k.under(file2, k.rootOf(file1)) && k.exists_(file1) && k.exists_(file2)
    ensures var t1 := MergedText(k, existing, site1, dom1, file1).value;
            var t2 := MergedText(k, existing, site2, dom2, file2).value;
            MergedText(k, t1, site2, dom2, file2) == MergedText(k, t2, site1, dom1, file1)
  {
    var ds := Parsed(existing);
    var f1, f2 := Keeps(k, site1, dom1, file1), Keeps(k, site2, dom2, file2);
    var c1, c2 := Collect(f1, ds), Collect(f2, ds);
    MergeReadsBack(k, existing, site1, dom1, file1);
    MergeReadsBack(k, existing, site2, dom2, file2);
    CollectOfMap(f2, c1[dom1 := file1]);
    CollectOfMap(f1, c2[dom2 := file2]);
    SameButDomains(f1, f2, ds, dom1, dom2);
    CollectPlain(f1, ds);
    CollectPlain(f2, ds);
    Crossed(f1, f2, c1, c2, Decl(dom1, file1), Decl(dom2, file2));
  }

  /**
   What a merge leaves, name by name: the upserted domain with the given file, and
   every other live declaration below the root, but in a sweep none of the site's.
   */
  lemma {:induction false} MergedIs(k: Disk, m: ZoneMap, site: string, domain: string, file: string)
    requires PlainMap(m)
    ensures var root := k.rootOf(file);
            var after := Merged(k, Parsed(IncludeText(InNameOrder(m))), site, domain, file);
            && (forall n :: n in after <==>
                  (domain != "" && n == domain)
                  || (n in m && n != domain && k.under(m[n], root) && k.exists_(m[n])
                      && !(domain == "" && site != "" && k.join(root, site) != ""
                           && k.under(m[n], k.join(root, site)))))
            && (domain != "" ==> after[domain] == file)
            && (forall n :: n in after && n != domain ==> after[n] == m[n])
  {
    MapReadsBack(m);
    CollectOfMap(Keeps(k, site, domain, file), m);
  }

  /** An upsert keeps exactly the live declarations below the root, and puts its own in. */
  lemma {:induction false} UpsertKeepsLive(k: Disk, m: ZoneMap, site: string, domain: string, file: string)
    requires PlainMap(m) && domain != ""
    ensures var root := k.rootOf(file);
            var after := Merged(k, Parsed(IncludeText(InNameOrder(m))), site, domain, file);
            && (forall n :: n in after <==>
                  n == domain || (n in m && k.under(m[n], root) && k.exists_(m[n])))
            && after[domain] == file
            && (forall n :: n in after && n != domain ==> after[n] == m[n])
  {
    MergedIs(k, m, site, domain, file);
  }

  /** A merge is refused exactly when it has no zone file path, and else prints what it leaves in name order. */
  lemma {:induction false} MergeRefusedIff(k: Disk, existing: string, site: string, domain: string, file: string)
    ensures var text := MergedText(k, existing, site, domain, file);
            && (text == None <==> file == "")
            && (file != "" ==> text == Some(IncludeText(InNameOrder(Merged(k, Parsed(existing), site, domain, file)))))
  {
  }

  /** A sweep leaves nothing of the site and drops no other site's live zone. */
  lemma {:induction false} SweepClearsSite(k: Disk, m: ZoneMap, site: string, file: string)
    requires PlainMap(m) && site != "" && Plain(file) && k.join(k.rootOf(file), site) != ""
    ensures var root := k.rootOf(file);
            var after := Merged(k, Parsed(IncludeText(InNameOrder(m))), site, "", file);
            && (forall n :: n in after <==>
                  n in m && k.under(m[n], root) && k.exists_(m[n]) && !k.under(m[n], k.join(root, site)))
            && (forall n :: n in after ==> after[n] == m[n])
  {
    MapReadsBack(m);
    CollectOfMap(Keeps(k, site, "", file), m);
  }
}
