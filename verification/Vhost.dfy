/**
 The nginx vhost of a live site: redirect blocks, then per document root one
 plain block, one redirect-to-TLS block and one TLS block.
 */
module Vhost {
  import opened Common
  import opened Text
  import opened Stubs
  import opened StubLaws

  datatype DomainSpec = DomainSpec(name: string, mode: string, cert: string, key: string, suffix: string)

  datatype Rule = Rule(from: string, to: string, status: int)

  /** A server block: its port, its names and the lines after them. */
  datatype Block = Block(port: nat, names: seq<string>, body: Config)

  /** What rendering takes from outside: the disk, path cleaning, and block bodies. */
  datatype Site = Site(
    domains: seq<DomainSpec>, rules: seq<Rule>,
    onDisk: string -> bool, rootFor: string -> string,
    redirectBody: Rule -> Config, common: string -> Config, toTls: Config, tls: DomainSpec -> Config)

  // ---------------------------------------------------------------------
  // Redirects
  // ---------------------------------------------------------------------

  predicate ValidStatus(s: int) {
    s == 301 || s == 302 || s == 307 || s == 308
  }

  predicate ValidTarget(s: string) {
    && s != "" && |s| <= 2000
    && (HasAt(s, 0, "http://") || HasAt(s, 0, "https://") || s[0] == '/')
    && forall i :: 0 <= i < |s| ==> s[i] !in " \t\r\n\"'`;{}\\$#"
  }

  function Defaulted(r: Rule): Rule {
    if r.status == 0 then r.(status := 301) else r
  }

  predicate Keeps(r: Rule) {
    ValidStatus(Defaulted(r).status) && ValidDomain(r.from) && ValidTarget(r.to)
  }

  function Normalized(rules: seq<Rule>): seq<Rule> {
    if rules == [] then []
    else
      var r := rules[|rules| - 1];
      Normalized(rules[..|rules| - 1]) + (if Keeps(r) then [Defaulted(r)] else [])
  }

  /** One rule more: kept with a valid source and target and one of four codes, 301 when it names none. */
  lemma {:induction false} NormalizedNext(rules: seq<Rule>, r: Rule)
    ensures var code := if r.status == 0 then 301 else r.status;
            Normalized(rules + [r]) == Normalized(rules) +
            if code in {301, 302, 307, 308} && ValidDomain(r.from) && ValidTarget(r.to)
            then [Rule(r.from, r.to, code)] else []
  {
    Appended(rules, r);
  }

  /** A target is an absolute URL or path of at most 2000 characters with nothing that ends a directive. */
  lemma {:induction false} TargetIs(s: string)
    ensures ValidTarget(s) <==>
            && 0 < |s| <= 2000
            && (s[0] == '/' || HasAt(s, 0, "http://") || HasAt(s, 0, "https://"))
            && forall c :: c in {' ', '\t', '\r', '\n', '"', '\'', '`', ';', '{', '}', '\\', '$', '#'} ==> c !in s
  {
    var bad := " \t\r\n\"'`;{}\\$#";
    BadCharacters(bad);
    if forall c :: c in {' ', '\t', '\r', '\n', '"', '\'', '`', ';', '{', '}', '\\', '$', '#'} ==> c !in s {
      assert forall i :: 0 <= i < |s| ==> s[i] in s;
    }
  }

  lemma {:induction false} BadCharacters(bad: string)
    requires bad == " \t\r\n\"'`;{}\\$#"
    ensures forall c :: c in bad <==>
              c in {' ', '\t', '\r', '\n', '"', '\'', '`', ';', '{', '}', '\\', '$', '#'}
  {
    assert bad[0] == ' ' && bad[1] == '\t' && bad[2] == '\r' && bad[3] == '\n' && bad[4] == '"' && bad[5] == '\'';
    assert bad[6] == '`' && bad[7] == ';' && bad[8] == '{' && bad[9] == '}' && bad[10] == '\\';
    assert bad[11] == '$' && bad[12] == '#';
  }

  method NormalizeRedirects(rules: seq<Rule>) returns (out: seq<Rule>)
    ensures out == Normalized(rules)
    ensures forall r :: r in out ==> ValidDomain(r.from) && ValidTarget(r.to) && ValidStatus(r.status)
  {
    out := [];
    for i := 0 to |rules|
      invariant out == Normalized(rules[..i])
      invariant forall r :: r in out ==> ValidDomain(r.from) && ValidTarget(r.to) && ValidStatus(r.status)
    {
      var r := Defaulted(rules[i]);
      assert rules[..i + 1][..i] == rules[..i];
      if !ValidStatus(r.status) {
        continue;
      }
      if !ValidDomain(r.from) {
        continue;
      }
      if !ValidTarget(r.to) {
        continue;
      }
      out := out + [r];
    }
    assert rules[..|rules|] == rules;
  }

  function Froms(rs: seq<Rule>): seq<string> {
    seq(|rs|, i requires 0 <= i < |rs| => rs[i].from)
  }

  // ---------------------------------------------------------------------
  // Grouping
  // ---------------------------------------------------------------------

  predicate Secured(s: Site, d: DomainSpec) {
    d.mode != "none" && d.cert != "" && d.key != "" && s.onDisk(d.cert)
  }

  /** The usable ones, in order. */
  function Certified(s: Site, ds: seq<DomainSpec>): seq<DomainSpec> {
    if ds == [] then []
    else
      var d := ds[|ds| - 1];
      Certified(s, ds[..|ds| - 1]) + (if Secured(s, d) then [d] else [])
  }

  method SecuredDomains(s: Site) returns (out: seq<DomainSpec>)
    ensures out == Certified(s, s.domains)
    ensures forall d :: d in out <==> d in s.domains && Secured(s, d)
  {
    out := [];
    NothingAdded(s.domains);
    for i := 0 to |s.domains|
      invariant out == Certified(s, s.domains[..i])
      invariant forall d :: d in out <==> d in s.domains[..i] && Secured(s, d)
    {
      var d := s.domains[i];
      TakeNext(s.domains, i);
      Appended(s.domains[..i], d);
      if d.mode == "none" {
        continue;
      }
      if d.cert == "" || d.key == "" {
        continue;
      }
      if !s.onDisk(d.cert) {
        continue;
      }
      out := out + [d];
    }
    assert s.domains[..|s.domains|] == s.domains;
  }

  /** Names, lower-cased, that a set of domains covers. */
  function LowerNames(ds: seq<DomainSpec>): set<string> {
    set i | 0 <= i < |ds| :: ToLower(ds[i].name)
  }

  /** Domain names without a redirect of their own, in order. */
  function Served(ds: seq<DomainSpec>, redirected: set<string>): seq<string> {
    if ds == [] then []
    else
      var d := ds[|ds| - 1];
      Served(ds[..|ds| - 1], redirected) + (if ToLower(d.name) in redirected then [] else [d.name])
  }

  type NameTest = string -> bool

  function Within(s: set<string>): NameTest {
    (n: string) => ToLower(n) in s
  }

  /** The names that pass the test, or those that do not, in order. */
  function Select(names: seq<string>, f: NameTest, want: bool): seq<string> {
    if names == [] then []
    else
      var n := names[|names| - 1];
      Select(names[..|names| - 1], f, want) + (if f(n) == want then [n] else [])
  }

  lemma {:induction false} SelectPartitions(names: seq<string>, f: NameTest)
    ensures multiset(Select(names, f, true)) + multiset(Select(names, f, false)) == multiset(names)
    decreases |names|
  {
    if names != [] {
      var n := |names| - 1;
      SelectPartitions(names[..n], f);
      assert names == names[..n] + [names[n]];
    }
  }

  lemma {:induction false} SelectEmpty(names: seq<string>, f: NameTest)
    ensures Select(names, f, true) == [] <==> forall n :: n in names ==> !f(n)
    decreases |names|
  {
    if names != [] {
      var n := |names| - 1;
      SelectEmpty(names[..n], f);
      assert names == names[..n] + [names[n]];
    }
  }

  datatype Group = Group(names: seq<string>, secured: seq<DomainSpec>)

  /** All names of the groups, with multiplicity. */
  function Grouped(order: seq<string>, groups: map<string, Group>): multiset<string>
    requires forall r :: r in order ==> r in groups
  {
    if order == [] then multiset{}
    else Grouped(order[..|order| - 1], groups) + multiset(groups[order[|order| - 1]].names)
  }

  lemma {:induction false} GroupedNext(order: seq<string>, groups: map<string, Group>, i: nat)
    requires i < |order| && forall r :: r in order ==> r in groups
    ensures Grouped(order[..i + 1], groups) == Grouped(order[..i], groups) + multiset(groups[order[i]].names)
  {
    assert order[..i + 1][..i] == order[..i];
  }

  lemma {:induction false} GroupedFrame(order: seq<string>, g: map<string, Group>, g': map<string, Group>)
    requires forall r :: r in order ==> r in g && r in g' && g[r].names == g'[r].names
    ensures Grouped(order, g) == Grouped(order, g')
    decreases |order|
  {
    if order != [] {
      assert order[|order| - 1] in order;
      GroupedFrame(order[..|order| - 1], g, g');
    }
  }

  /** One name more in one group is one name more in all. */
  lemma {:induction false} GroupedAdd(order: seq<string>, g: map<string, Group>, g': map<string, Group>, root: string,
                                      name: string)
    requires Distinct(order) && root in order
    requires forall r :: r in order ==> r in g && r in g'
    requires g'[root].names == g[root].names + [name]
    requires forall r :: r in order && r != root ==> g'[r].names == g[r].names
    ensures Grouped(order, g') == Grouped(order, g) + multiset{name}
    decreases |order|
  {
    var n := |order| - 1;
    var last, init := order[n], order[..n];
    assert order == init + [last];
    if last == root {
      assert forall r :: r in init ==> r != root;
      GroupedFrame(init, g, g');
    } else {
      assert last in order;
      GroupedAdd(init, g, g', root, name);
    }
  }

  /** A group has certificates exactly when one of its names is secured. */
  predicate CertsMatch(g: Group, f: NameTest) {
    g.secured != [] <==> exists n :: n in g.names && f(n)
  }

  ghost predicate Grouping(order: seq<string>, groups: map<string, Group>, f: NameTest) {
    && Distinct(order)
    && (forall r :: r in order <==> r in groups)
    && (forall r :: r in groups ==> CertsMatch(groups[r], f))
  }

  /** Certificates for one domain, found without regard to case. */
  method CertsFor(secured: seq<DomainSpec>, name: string) returns (out: seq<DomainSpec>)
    ensures out != [] <==> ToLower(name) in LowerNames(secured)
    ensures forall c :: c in out ==> c in secured && ToLower(c.name) == ToLower(name)
  {
    out := [];
    for i := 0 to |secured|
      invariant forall c :: c in out ==> c in secured && ToLower(c.name) == ToLower(name)
      invariant out != [] <==> exists j :: 0 <= j < i && ToLower(secured[j].name) == ToLower(name)
    {
      if ToLower(secured[i].name) == ToLower(name) {
        out := out + [secured[i]];
      }
    }
  }

  /** Every served domain is in the group of its own document root. */
  ghost predicate Homed(s: Site, groups: map<string, Group>, ds: seq<DomainSpec>, redirected: set<string>) {
    forall d :: d in ds && ToLower(d.name) !in redirected ==>
      s.rootFor(d.suffix) in groups && d.name in groups[s.rootFor(d.suffix)].names
  }

  /** The certificate belongs to one of the names. */
  ghost predicate CertOf(c: DomainSpec, names: seq<string>) {
    exists n :: n in names && ToLower(n) == ToLower(c.name)
  }

  ghost predicate OwnCerts(g: Group, secured: seq<DomainSpec>) {
    forall c :: c in g.secured ==> c in secured && CertOf(c, g.names)
  }

  /** Each group's certificates are usable ones for its own names. */
  ghost predicate Covered(groups: map<string, Group>, secured: seq<DomainSpec>) {
    forall r :: r in groups ==> OwnCerts(groups[r], secured)
  }

  /** The groups hold each served domain once, at its document root, with usable certificates of its own. */
  ghost predicate GroupedBy(s: Site, order: seq<string>, groups: map<string, Group>, ds: seq<DomainSpec>,
                            redirected: set<string>, secured: seq<DomainSpec>) {
    && Grouping(order, groups, Within(LowerNames(secured)))
    && Grouped(order, groups) == multiset(Served(ds, redirected))
    && Homed(s, groups, ds, redirected) && Covered(groups, secured)
  }

  lemma {:induction false} NoGroups(s: Site, redirected: set<string>, secured: seq<DomainSpec>)
    ensures GroupedBy(s, [], map[], [], redirected, secured)
  {
  }

  lemma {:induction false} ServedNext(ds: seq<DomainSpec>, d: DomainSpec, redirected: set<string>)
    ensures multiset(Served(ds + [d], redirected)) ==
            multiset(Served(ds, redirected)) + (if ToLower(d.name) in redirected then multiset{} else multiset{d.name})
  {
    assert (ds + [d])[..|ds|] == ds;
  }

  /** The group of `root` with one more name and its certificates. */
  function Joined(groups: map<string, Group>, root: string, name: string, certs: seq<DomainSpec>): Group {
    var g := if root in groups then groups[root] else Group([], []);
    Group(g.names + [name], g.secured + certs)
  }

  lemma {:induction false} HomedNext(s: Site, groups: map<string, Group>, ds: seq<DomainSpec>, redirected: set<string>,
                                     d: DomainSpec, certs: seq<DomainSpec>)
    requires Homed(s, groups, ds, redirected)
    ensures var root := s.rootFor(d.suffix);
            Homed(s, groups[root := Joined(groups, root, d.name, certs)], ds + [d], redirected)
    ensures ToLower(d.name) in redirected ==> Homed(s, groups, ds + [d], redirected)
  {
  }

  lemma {:induction false} CoveredNext(groups: map<string, Group>, secured: seq<DomainSpec>, root: string, name: string,
                                       certs: seq<DomainSpec>)
    requires Covered(groups, secured)
    requires forall c :: c in certs ==> c in secured && ToLower(c.name) == ToLower(name)
    ensures Covered(groups[root := Joined(groups, root, name, certs)], secured)
  {
    var g := if root in groups then groups[root] else Group([], []);
    assert OwnCerts(g, secured);
    var g' := Joined(groups, root, name, certs);
    forall c | c in g'.secured
      ensures c in secured && CertOf(c, g'.names)
    {
      if c in certs {
        assert name in g'.names;
      } else {
        var n :| n in g.names && ToLower(n) == ToLower(c.name);
        assert n in g'.names;
      }
    }
  }

  lemma {:induction false} DomainJoined(s: Site, order0: seq<string>, groups0: map<string, Group>, order: seq<string>,
                                        groups: map<string, Group>, ds: seq<DomainSpec>, redirected: set<string>,
                                        secured: seq<DomainSpec>, d: DomainSpec, certs: seq<DomainSpec>)
    requires GroupedBy(s, order0, groups0, ds, redirected, secured) && ToLower(d.name) !in redirected
    requires Grouping(order, groups, Within(LowerNames(secured)))
    requires Grouped(order, groups) == Grouped(order0, groups0) + multiset{d.name}
    requires var root := s.rootFor(d.suffix); groups == groups0[root := Joined(groups0, root, d.name, certs)]
    requires forall c :: c in certs ==> c in secured && ToLower(c.name) == ToLower(d.name)
    ensures GroupedBy(s, order, groups, ds + [d], redirected, secured)
  {
    ServedNext(ds, d, redirected);
    HomedNext(s, groups0, ds, redirected, d, certs);
    CoveredNext(groups0, secured, s.rootFor(d.suffix), d.name, certs);
  }

  lemma {:induction false} EmptyGroup(order: seq<string>, groups: map<string, Group>, root: string, f: NameTest)
    requires Grouping(order, groups, f) && root !in groups
    ensures Grouping(order + [root], groups[root := Group([], [])], f)
    ensures Grouped(order + [root], groups[root := Group([], [])]) == Grouped(order, groups)
  {
    var groups' := groups[root := Group([], [])];
    assert (order + [root])[..|order|] == order;
    GroupedFrame(order, groups, groups');
  }

  lemma {:induction false} JoinedTwice(groups: map<string, Group>, root: string, name: string, certs: seq<DomainSpec>)
    requires root !in groups
    ensures var groups1 := groups[root := Group([], [])];
            groups1[root := Joined(groups1, root, name, certs)] == groups[root := Joined(groups, root, name, certs)]
  {
  }

  lemma {:induction false} CertsGrow(g: Group, name: string, certs: seq<DomainSpec>, f: NameTest)
    requires CertsMatch(g, f) && (certs != [] <==> f(name))
    ensures CertsMatch(Group(g.names + [name], g.secured + certs), f)
  {
    assert forall n :: n in g.names + [name] <==> n in g.names || n == name;
  }

  lemma {:induction false} JoinedCounts(order: seq<string>, groups: map<string, Group>, groups': map<string, Group>,
                                        root: string, name: string, certs: seq<DomainSpec>, f: NameTest)
    requires Grouping(order, groups, f) && root in groups && (certs != [] <==> f(name))
    requires groups' == groups[root := Joined(groups, root, name, certs)]
    ensures Grouping(order, groups', f) && Grouped(order, groups') == Grouped(order, groups) + multiset{name}
  {
    GroupedAdd(order, groups, groups', root, name);
    CertsGrow(groups[root], name, certs, f);
  }

  lemma {:induction false} JoinedGrouping(order0: seq<string>, groups0: map<string, Group>, root: string, name: string,
                                          certs: seq<DomainSpec>, f: NameTest)
    requires Grouping(order0, groups0, f) && (certs != [] <==> f(name))
    ensures var order := if root in groups0 then order0 else order0 + [root];
            var groups := groups0[root := Joined(groups0, root, name, certs)];
            Grouping(order, groups, f) && Grouped(order, groups) == Grouped(order0, groups0) + multiset{name}
  {
    var groups := groups0[root := Joined(groups0, root, name, certs)];
    if root in groups0 {
      JoinedCounts(order0, groups0, groups, root, name, certs, f);
    } else {
      EmptyGroup(order0, groups0, root, f);
      JoinedTwice(groups0, root, name, certs);
      JoinedCounts(order0 + [root], groups0[root := Group([], [])], groups, root, name, certs, f);
    }
  }

  method AddToGroup(order0: seq<string>, groups0: map<string, Group>, root: string, name: string,
                    certs: seq<DomainSpec>, ghost f: NameTest)
    returns (order: seq<string>, groups: map<string, Group>)
    requires Grouping(order0, groups0, f) && (certs != [] <==> f(name))
    ensures Grouping(order, groups, f)
    ensures Grouped(order, groups) == Grouped(order0, groups0) + multiset{name}
    ensures groups == groups0[root := Joined(groups0, root, name, certs)]
  {
    order, groups := order0, groups0;
    if root !in groups {
      groups := groups[root := Group([], [])];
      order := order + [root];
    }
    var g := groups[root];
    groups := groups[root := Group(g.names + [name], g.secured + certs)];
    assert groups == groups0[root := Joined(groups0, root, name, certs)];
    JoinedGrouping(order0, groups0, root, name, certs, f);
  }

  /** One served domain joins the group of its document root. */
  method AddDomain(s: Site, order0: seq<string>, groups0: map<string, Group>, ghost ds: seq<DomainSpec>,
                   ghost redirected: set<string>, secured: seq<DomainSpec>, d: DomainSpec)
    returns (order: seq<string>, groups: map<string, Group>)
    requires GroupedBy(s, order0, groups0, ds, redirected, secured) && ToLower(d.name) !in redirected
    ensures GroupedBy(s, order, groups, ds + [d], redirected, secured)
  {
    var certs := CertsFor(secured, d.name);
    order, groups := AddToGroup(order0, groups0, s.rootFor(d.suffix), d.name, certs, Within(LowerNames(secured)));
    DomainJoined(s, order0, groups0, order, groups, ds, redirected, secured, d, certs);
  }

  lemma {:induction false} DomainSkipped(s: Site, order: seq<string>, groups: map<string, Group>, ds: seq<DomainSpec>,
                                         redirected: set<string>, secured: seq<DomainSpec>, d: DomainSpec)
    requires GroupedBy(s, order, groups, ds, redirected, secured) && ToLower(d.name) in redirected
    ensures GroupedBy(s, order, groups, ds + [d], redirected, secured)
  {
    ServedNext(ds, d, redirected);
    HomedNext(s, groups, ds, redirected, d, []);
  }

  method GroupDomains(s: Site, redirected: set<string>, secured: seq<DomainSpec>)
    returns (order: seq<string>, groups: map<string, Group>)
    ensures GroupedBy(s, order, groups, s.domains, redirected, secured)
  {
    order, groups := [], map[];
    NoGroups(s, redirected, secured);
    for i := 0 to |s.domains|
      invariant GroupedBy(s, order, groups, s.domains[..i], redirected, secured)
    {
      var d := s.domains[i];
      TakeNext(s.domains, i);
      if ToLower(d.name) in redirected {
        DomainSkipped(s, order, groups, s.domains[..i], redirected, secured, d);
        continue;
      }
      order, groups := AddDomain(s, order, groups, s.domains[..i], redirected, secured, d);
    }
    assert s.domains[..|s.domains|] == s.domains;
  }

  // ---------------------------------------------------------------------
  // Rendering
  // ---------------------------------------------------------------------

  /** Names of all blocks on a port, with multiplicity. */
  function NamesOn(port: nat, bs: seq<Block>): multiset<string> {
    if bs == [] then multiset{}
    else
      var b := bs[|bs| - 1];
      NamesOn(port, bs[..|bs| - 1]) + (if b.port == port then multiset(b.names) else multiset{})
  }

  lemma {:induction false} NamesOnAdd(bs: seq<Block>, b: Block)
    ensures NamesOn(80, bs + [b]) == NamesOn(80, bs) + (if b.port == 80 then multiset(b.names) else multiset{})
    ensures NamesOn(443, bs + [b]) == NamesOn(443, bs) + (if b.port == 443 then multiset(b.names) else multiset{})
  {
    assert (bs + [b])[..|bs|] == bs;
  }

  /** A block as it may be rendered: named, on a web port, with no names in its body. */
  predicate WellMade(b: Block) {
    b.names != [] && (b.port == 80 || b.port == 443) && Absent("server_name", b.body)
  }

  /** No body that comes from outside carries a server_name of its own. */
  ghost predicate QuietBodies(s: Site) {
    && (forall r: Rule :: Absent("server_name", s.redirectBody(r)))
    && (forall root: string :: Absent("server_name", s.common(root)))
    && Absent("server_name", s.toTls)
    && (forall d: DomainSpec :: Absent("server_name", s.tls(d)))
  }

  lemma {:induction false} TlsBodyQuiet(s: Site, d: DomainSpec, root: string)
    requires QuietBodies(s)
    ensures Absent("server_name", s.tls(d) + s.common(root))
  {
    AbsentConcat("server_name", s.tls(d), s.common(root));
  }

  /** The plain block of a group, if it has plain names. */
  method PlainBlock(s: Site, root: string, plain: seq<string>, bs: seq<Block>) returns (out: seq<Block>)
    requires QuietBodies(s)
    ensures NamesOn(80, out) == NamesOn(80, bs) + multiset(plain) && NamesOn(443, out) == NamesOn(443, bs)
    ensures forall b :: b in out ==> b in bs || (WellMade(b) && b.port == 80)
    ensures forall b :: b in bs ==> b in out
    ensures plain != [] ==> Block(80, plain, s.common(root)) in out
  {
    out := bs;
    if plain != [] {
      NamesOnAdd(bs, Block(80, plain, s.common(root)));
      out := bs + [Block(80, plain, s.common(root))];
    }
  }

  /** The redirect-to-TLS and TLS blocks of a group, if it has certificates. */
  method TlsBlocks(s: Site, root: string, tls: seq<string>, certs: seq<DomainSpec>, bs: seq<Block>)
    returns (out: seq<Block>)
    requires QuietBodies(s) && (certs != [] <==> tls != [])
    ensures NamesOn(80, out) == NamesOn(80, bs) + multiset(tls)
    ensures NamesOn(443, out) == NamesOn(443, bs) + multiset(tls)
    ensures forall b :: b in out ==> b in bs || (WellMade(b) && b.names == tls)
    ensures forall b :: b in bs ==> b in out
    ensures tls != [] ==> Block(80, tls, s.toTls) in out && Block(443, tls, s.tls(certs[0]) + s.common(root)) in out
  {
    out := bs;
    if |certs| > 0 {
      var b := Block(80, tls, s.toTls);
      NamesOnAdd(bs, b);
      out := bs + [b];
      var c := Block(443, tls, s.tls(certs[0]) + s.common(root));
      TlsBodyQuiet(s, certs[0], root);
      NamesOnAdd(out, c);
      out := out + [c];
    }
  }

  /** The blocks a group gives rise to are among these. */
  predicate GroupShown(s: Site, root: string, g: Group, f: NameTest, bs: seq<Block>) {
    var plain, tls := Select(g.names, f, false), Select(g.names, f, true);
    && (plain != [] ==> Block(80, plain, s.common(root)) in bs)
    && (tls != [] ==>
          && g.secured != [] && Block(80, tls, s.toTls) in bs
          && Block(443, tls, s.tls(g.secured[0]) + s.common(root)) in bs)
  }

  /** Some usable certificate is for this name. */
  ghost predicate HasCert(s: Site, name: string) {
    exists c :: c in s.domains && Secured(s, c) && ToLower(c.name) == ToLower(name)
  }

  /** A name is served over TLS when one of its entries asks for it and has a key and a certificate on disk. */
  lemma {:induction false} HasCertIs(s: Site, name: string)
    ensures HasCert(s, name) <==>
            exists i :: 0 <= i < |s.domains| && ToLower(s.domains[i].name) == ToLower(name)
                        && s.domains[i].mode != "none" && s.domains[i].key != ""
                        && s.domains[i].cert != "" && s.onDisk(s.domains[i].cert)
  {
    if HasCert(s, name) {
      var c :| c in s.domains && Secured(s, c) && ToLower(c.name) == ToLower(name);
      var i :| 0 <= i < |s.domains| && s.domains[i] == c;
    }
    if i :| 0 <= i < |s.domains| && ToLower(s.domains[i].name) == ToLower(name)
            && s.domains[i].mode != "none" && s.domains[i].key != ""
            && s.domains[i].cert != "" && s.onDisk(s.domains[i].cert) {
      assert s.domains[i] in s.domains;
    }
  }

  /** A well-made block that offers TLS only to names with a certificate. */
  ghost predicate Proper(s: Site, b: Block) {
    WellMade(b) && (b.port == 443 ==> forall n :: n in b.names ==> HasCert(s, n))
  }

  /**
   The domain is answered from its own document root: over TLS, with a
   certificate for a name of its block, if it has one, else in the clear.
   */
  ghost predicate ServedAs(s: Site, d: DomainSpec, bs: seq<Block>) {
    var common := s.common(s.rootFor(d.suffix));
    if HasCert(s, d.name) then
      && (exists b :: b in bs && b.port == 80 && d.name in b.names && b.body == s.toTls)
      && (exists b, c :: b in bs && b.port == 443 && d.name in b.names && b.body == s.tls(c) + common
                         && c in s.domains && Secured(s, c) && CertOf(c, b.names))
    else exists b :: b in bs && b.port == 80 && d.name in b.names && b.body == common
  }

  lemma {:induction false} SelectMembers(names: seq<string>, f: NameTest, want: bool)
    ensures forall n :: n in Select(names, f, want) <==> n in names && f(n) == want
    decreases |names|
  {
    if names != [] {
      var n := |names| - 1;
      SelectMembers(names[..n], f, want);
      assert names == names[..n] + [names[n]];
    }
  }

  lemma {:induction false} CertifiedNames(s: Site, certified: seq<DomainSpec>, name: string)
    requires forall c :: c in certified <==> c in s.domains && Secured(s, c)
    ensures ToLower(name) in LowerNames(certified) <==> HasCert(s, name)
  {
    if HasCert(s, name) {
      var c :| c in s.domains && Secured(s, c) && ToLower(c.name) == ToLower(name);
      var i :| 0 <= i < |certified| && certified[i] == c;
      assert ToLower(certified[i].name) in LowerNames(certified);
    }
    if ToLower(name) in LowerNames(certified) {
      var i :| 0 <= i < |certified| && ToLower(certified[i].name) == ToLower(name);
      assert certified[i] in certified;
    }
  }

  /** A shown group serves its members as they should be. */
  lemma {:induction false} MemberServed(s: Site, certified: seq<DomainSpec>, g: Group, d: DomainSpec, bs: seq<Block>)
    requires forall c :: c in certified <==> c in s.domains && Secured(s, c)
    requires GroupShown(s, s.rootFor(d.suffix), g, Within(LowerNames(certified)), bs)
    requires d.name in g.names && forall c :: c in g.secured ==> c in certified && CertOf(c, g.names)
    ensures ServedAs(s, d, bs)
  {
    var f := Within(LowerNames(certified));
    var root := s.rootFor(d.suffix);
    var plain, tls := Select(g.names, f, false), Select(g.names, f, true);
    SelectMembers(g.names, f, false);
    SelectMembers(g.names, f, true);
    CertifiedNames(s, certified, d.name);
    if f(d.name) {
      var c := g.secured[0];
      assert c in g.secured;
      var n :| n in g.names && ToLower(n) == ToLower(c.name);
      CertifiedNames(s, certified, n);
      assert n in tls;
      var b80, b443 := Block(80, tls, s.toTls), Block(443, tls, s.tls(c) + s.common(root));
      assert b80 in bs && b443 in bs && CertOf(c, b443.names);
    } else {
      assert Block(80, plain, s.common(root)) in bs;
    }
  }

  /** The blocks of one group. */
  method GroupBlocks(s: Site, root: string, g: Group, f: NameTest, bs: seq<Block>) returns (out: seq<Block>)
    requires QuietBodies(s) && CertsMatch(g, f)
    ensures NamesOn(80, out) == NamesOn(80, bs) + multiset(g.names)
    ensures NamesOn(443, out) == NamesOn(443, bs) + multiset(Select(g.names, f, true))
    ensures NamesOn(443, bs) <= NamesOn(80, bs) ==> NamesOn(443, out) <= NamesOn(80, out)
    ensures forall b :: b in out ==> b in bs || (WellMade(b) && (b.port == 443 ==> b.names == Select(g.names, f, true)))
    ensures (forall b :: b in bs ==> b in out) && GroupShown(s, root, g, f, out)
  {
    var plain, tls := Select(g.names, f, false), Select(g.names, f, true);
    SelectPartitions(g.names, f);
    SelectEmpty(g.names, f);
    out := PlainBlock(s, root, plain, bs);
    out := TlsBlocks(s, root, tls, g.secured, out);
  }

  function RedirectBlock(s: Site, r: Rule): Block {
    Block(80, [r.from], s.redirectBody(r))
  }

  function RedirectsOf(s: Site, rs: seq<Rule>): seq<Block> {
    seq(|rs|, i requires 0 <= i < |rs| => RedirectBlock(s, rs[i]))
  }

  lemma {:induction false} RedirectsProper(s: Site, rs: seq<Rule>)
    requires QuietBodies(s)
    ensures forall b :: b in RedirectsOf(s, rs) ==> Proper(s, b)
    ensures forall r :: r in rs ==> RedirectBlock(s, r) in RedirectsOf(s, rs)
  {
    var bs := RedirectsOf(s, rs);
    forall r | r in rs
      ensures RedirectBlock(s, r) in bs
    {
      var i :| 0 <= i < |rs| && rs[i] == r;
      assert bs[i] == RedirectBlock(s, r);
    }
  }

  lemma {:induction false} TlsNames(s: Site, certified: seq<DomainSpec>, names: seq<string>)
    requires forall c :: c in certified <==> c in s.domains && Secured(s, c)
    ensures forall n :: n in Select(names, Within(LowerNames(certified)), true) ==> HasCert(s, n)
  {
    var f := Within(LowerNames(certified));
    SelectMembers(names, f, true);
    forall n | n in Select(names, f, true)
      ensures HasCert(s, n)
    {
      CertifiedNames(s, certified, n);
    }
  }

  predicate AllShown(s: Site, roots: seq<string>, groups: map<string, Group>, f: NameTest, bs: seq<Block>) {
    forall r :: r in roots ==> r in groups && GroupShown(s, r, groups[r], f, bs)
  }

  lemma {:induction false} ShownNext(s: Site, order: seq<string>, i: nat, groups: map<string, Group>, f: NameTest,
                                     bs: seq<Block>, more: seq<Block>)
    requires i < |order| && AllShown(s, order[..i], groups, f, bs) && forall b :: b in bs ==> b in more
    requires order[i] in groups && GroupShown(s, order[i], groups[order[i]], f, more)
    ensures AllShown(s, order[..i + 1], groups, f, more)
  {
    TakeNext(order, i);
  }

  /** The blocks of all groups, in order. */
  method AllGroups(s: Site, order: seq<string>, groups: map<string, Group>, certified: seq<DomainSpec>,
                   bs0: seq<Block>) returns (bs: seq<Block>)
    requires QuietBodies(s) && Grouping(order, groups, Within(LowerNames(certified)))
    requires forall c :: c in certified <==> c in s.domains && Secured(s, c)
    requires NamesOn(443, bs0) == multiset{}
    ensures NamesOn(80, bs) == NamesOn(80, bs0) + Grouped(order, groups) && NamesOn(443, bs) <= NamesOn(80, bs)
    ensures forall b :: b in bs ==> b in bs0 || Proper(s, b)
    ensures forall b :: b in bs0 ==> b in bs
    ensures forall r :: r in groups ==> GroupShown(s, r, groups[r], Within(LowerNames(certified)), bs)
  {
    bs := bs0;
    var f := Within(LowerNames(certified));
    ghost var base := NamesOn(80, bs);
    for i := 0 to |order|
      invariant NamesOn(80, bs) == base + Grouped(order[..i], groups)
      invariant forall b :: b in bs ==> b in bs0 || Proper(s, b)
      invariant forall b :: b in bs0 ==> b in bs
      invariant AllShown(s, order[..i], groups, f, bs)
      invariant NamesOn(443, bs) <= NamesOn(80, bs)
    {
      var g := groups[order[i]];
      TlsNames(s, certified, g.names);
      ghost var was := bs;
      bs := GroupBlocks(s, order[i], g, f, bs);
      GroupedNext(order, groups, i);
      ShownNext(s, order, i, groups, f, was, bs);
    }
    assert order[..|order|] == order;
  }

  lemma {:induction false} RedirectLast(s: Site, rs: seq<Rule>)
    requires rs != []
    ensures var init, r := rs[..|rs| - 1], rs[|rs| - 1];
            RedirectsOf(s, rs) == RedirectsOf(s, init) + [RedirectBlock(s, r)] && Froms(rs) == Froms(init) + [r.from]
  {
  }

  lemma {:induction false} RedirectNames(s: Site, rs: seq<Rule>)
    ensures NamesOn(80, RedirectsOf(s, rs)) == multiset(Froms(rs)) && NamesOn(443, RedirectsOf(s, rs)) == multiset{}
    decreases |rs|
  {
    if rs != [] {
      var init, r := rs[..|rs| - 1], rs[|rs| - 1];
      RedirectNames(s, init);
      RedirectLast(s, rs);
      NamesOnAdd(RedirectsOf(s, init), RedirectBlock(s, r));
    }
  }

  /** Redirect-only blocks, one per rule. */
  method RedirectBlocks(s: Site, rs: seq<Rule>) returns (bs: seq<Block>)
    ensures bs == RedirectsOf(s, rs)
  {
    bs := [];
    for i := 0 to |rs|
      invariant bs == RedirectsOf(s, rs)[..i]
    {
      bs := bs + [RedirectBlock(s, rs[i])];
    }
  }

  /**
   RenderVhost: over port 80 every served name and every redirect source
   occurs exactly as often as it was given, whatever the grouping.
   */
  method RenderVhost(s: Site) returns (bs: seq<Block>)
    requires QuietBodies(s)
    ensures var rs := Normalized(s.rules);
            NamesOn(80, bs) == multiset(Froms(rs)) + multiset(Served(s.domains, set r | r in rs :: ToLower(r.from)))
    ensures forall b :: b in bs ==> Proper(s, b)
    ensures NamesOn(443, bs) <= NamesOn(80, bs)
    ensures var rs := Normalized(s.rules);
            && (forall r :: r in rs ==> RedirectBlock(s, r) in bs)
            && (forall d :: d in s.domains && ToLower(d.name) !in (set r | r in rs :: ToLower(r.from)) ==>
                 ServedAs(s, d, bs))
  {
    var rs := NormalizeRedirects(s.rules);
    var redirected := set r | r in rs :: ToLower(r.from);
    var certified := SecuredDomains(s);
    var order, groups := GroupDomains(s, redirected, certified);
    bs := RedirectBlocks(s, rs);
    RedirectNames(s, rs);
    RedirectsProper(s, rs);
    bs := AllGroups(s, order, groups, certified, bs);
    forall d | d in s.domains && ToLower(d.name) !in redirected
      ensures ServedAs(s, d, bs)
    {
      MemberServed(s, certified, groups[s.rootFor(d.suffix)], d, bs);
    }
  }

  // ---------------------------------------------------------------------
  // What the rendered text says
  // ---------------------------------------------------------------------

  lemma {:induction false} NoBlock(bs: seq<Block>, name: string)
    requires NamesOn(80, bs)[name] == 0
    ensures forall j :: 0 <= j < |bs| && bs[j].port == 80 ==> name !in bs[j].names
    decreases |bs|
  {
    if bs != [] { NoBlock(bs[..|bs| - 1], name); }
  }

  lemma {:induction false} OnlyBlock(bs: seq<Block>, name: string) returns (i: nat)
    requires NamesOn(80, bs)[name] == 1
    ensures i < |bs| && bs[i].port == 80 && multiset(bs[i].names)[name] == 1
    ensures forall j :: 0 <= j < |bs| && j != i && bs[j].port == 80 ==> name !in bs[j].names
    decreases |bs|
  {
    var n := |bs| - 1;
    if bs[n].port == 80 && name in bs[n].names {
      i := n;
      NoBlock(bs[..n], name);
    } else {
      i := OnlyBlock(bs[..n], name);
    }
  }

  lemma {:induction false} DistinctCount(names: seq<string>, name: string)
    requires Distinct(names)
    ensures multiset(names)[name] == if name in names then 1 else 0
    decreases |names|
  {
    if names != [] {
      var n := |names| - 1;
      DistinctCount(names[..n], name);
      assert names == names[..n] + [names[n]];
    }
  }

  predicate HasName(ds: seq<DomainSpec>, name: string) {
    exists d :: d in ds && d.name == name
  }

  lemma {:induction false} HasNameNext(ds: seq<DomainSpec>, d: DomainSpec, name: string)
    ensures HasName(ds + [d], name) <==> HasName(ds, name) || d.name == name
  {
    if HasName(ds, name) {
      var c :| c in ds && c.name == name;
      assert c in ds + [d];
    }
    assert d in ds + [d];
  }

  lemma {:induction false} ServedCount(ds: seq<DomainSpec>, redirected: set<string>, name: string)
    requires forall i, j :: 0 <= i < j < |ds| ==> ds[i].name != ds[j].name
    ensures multiset(Served(ds, redirected))[name] ==
            if HasName(ds, name) && ToLower(name) !in redirected then 1 else 0
    decreases |ds|
  {
    if ds != [] {
      var init, last := ds[..|ds| - 1], ds[|ds| - 1];
      ServedCount(init, redirected, name);
      SplitLast(ds);
      ServedNext(init, last, redirected);
      HasNameNext(init, last, name);
      assert !HasName(init, last.name);
    }
  }

  /** With valid, distinct names no name is served by two port-80 blocks. */
  lemma {:induction false} EachNameOnce(ds: seq<DomainSpec>, rs: seq<Rule>, name: string)
    requires Distinct(Froms(rs)) && (forall r :: r in rs ==> ValidDomain(r.from))
    requires forall i, j :: 0 <= i < j < |ds| ==> ds[i].name != ds[j].name
    requires forall d :: d in ds ==> ValidDomain(d.name)
    requires name in Froms(rs) || exists d :: d in ds && d.name == name
    ensures (multiset(Froms(rs)) + multiset(Served(ds, set r | r in rs :: ToLower(r.from))))[name] == 1
  {
    var redirected := set r | r in rs :: ToLower(r.from);
    DistinctCount(Froms(rs), name);
    ServedCount(ds, redirected, name);
    if name in Froms(rs) {
      var i :| 0 <= i < |rs| && Froms(rs)[i] == name;
      assert rs[i] in rs;
      ValidDomainIsLowerWord(name);
      assert ToLower(name) in redirected;
    } else {
      var d :| d in ds && d.name == name;
      ValidDomainIsLowerWord(name);
      forall r | r in rs
        ensures ToLower(r.from) != name
      {
        ValidDomainIsLowerWord(r.from);
        var i :| 0 <= i < |rs| && rs[i] == r;
        assert Froms(rs)[i] in Froms(rs);
      }
    }
  }

  lemma {:induction false} NormalizedValid(rules: seq<Rule>)
    ensures forall r :: r in Normalized(rules) ==> ValidDomain(r.from)
    decreases |rules|
  {
    if rules != [] { NormalizedValid(rules[..|rules| - 1]); }
  }

  /** With valid, distinct names each name is in one port-80 block of the vhost, and once in it. */
  lemma {:induction false} EachNameInOneBlock(s: Site, bs: seq<Block>, name: string) returns (i: nat)
    requires var rs := Normalized(s.rules);
             && Distinct(Froms(rs)) && (name in Froms(rs) || exists d :: d in s.domains && d.name == name)
             && NamesOn(80, bs) == multiset(Froms(rs)) + multiset(Served(s.domains, set r | r in rs :: ToLower(r.from)))
    requires forall i, j :: 0 <= i < j < |s.domains| ==> s.domains[i].name != s.domains[j].name
    requires forall d :: d in s.domains ==> ValidDomain(d.name)
    ensures i < |bs| && bs[i].port == 80 && multiset(bs[i].names)[name] == 1
    ensures forall j :: 0 <= j < |bs| && j != i && bs[j].port == 80 ==> name !in bs[j].names
  {
    NormalizedValid(s.rules);
    EachNameOnce(s.domains, Normalized(s.rules), name);
    i := OnlyBlock(bs, name);
  }

  function BlockStart(port: nat): Config {
    ["server {", if port == 443 then "\tlisten 443 ssl;" else "\tlisten 80;"]
  }

  function BlockText(b: Block): Config {
    BlockStart(b.port) + [NameLine(Nginx, b.names)] + ([""] + b.body + ["}", ""])
  }

  /** A block listens on its port, with TLS on 443, and names its names before its body. */
  lemma {:induction false} BlockListens(b: Block)
    requires b.port == 80 || b.port == 443
    ensures var text := BlockText(b);
            && text[0] == "server {" && text[1] == (if b.port == 443 then "\tlisten 443 ssl;" else "\tlisten 80;")
            && text[2] == "\tserver_name " + (Spaced(b.names) + ";")
            && text[4..4 + |b.body|] == b.body && text[4 + |b.body|] == "}"
  {
    var text := BlockText(b);
    assert text == BlockStart(b.port) + [NameLine(Nginx, b.names)] + [""] + b.body + ["}", ""];
  }

  function VhostText(head: Config, bs: seq<Block>): Config {
    if bs == [] then head else VhostText(head, bs[..|bs| - 1]) + BlockText(bs[|bs| - 1])
  }

  function AllNames(bs: seq<Block>): seq<string> {
    if bs == [] then [] else AllNames(bs[..|bs| - 1]) + bs[|bs| - 1].names
  }

  lemma {:induction false} BlockHead(port: nat)
    ensures Absent("server_name", BlockStart(port))
  {
    var c := AddLine("server_name", [], "server {", 0, 6);
    if port == 443 {
      c := AddLine("server_name", c, "\tlisten 443 ssl;", 1, 0);
    } else {
      c := AddLine("server_name", c, "\tlisten 80;", 1, 0);
    }
    assert c == BlockStart(port);
  }

  lemma {:induction false} BlockTail(body: Config)
    requires Absent("server_name", body)
    ensures Absent("server_name", [""] + body + ["}", ""])
  {
    var end := AddLine("server_name", [], "}", 0, 0);
    end := AddBlank("server_name", end);
    assert end == ["}", ""];
    var blank := AddBlank("server_name", []);
    AbsentConcat("server_name", blank, body);
    AbsentConcat("server_name", blank + body, end);
  }

  lemma {:induction false} BlockTokens(b: Block)
    requires b.names != [] && (forall d :: d in b.names ==> ValidDomain(d)) && Absent("server_name", b.body)
    ensures ConfTokens(NginxTokens, BlockText(b)) == b.names
  {
    BlockHead(b.port);
    BlockTail(b.body);
    AbsentIsSilent(BlockStart(b.port));
    AbsentIsSilent([""] + b.body + ["}", ""]);
    NameLineTokens(Nginx, b.names);
    FramedTokens(NginxTokens, BlockStart(b.port), NameLine(Nginx, b.names), [""] + b.body + ["}", ""]);
  }

  /** Parsing the vhost yields the names of its blocks, in order of first occurrence. */
  lemma {:induction false} VhostTokens(head: Config, bs: seq<Block>)
    requires Absent("server_name", head)
    requires forall b :: b in bs ==>
               b.names != [] && (forall d :: d in b.names ==> ValidDomain(d)) && Absent("server_name", b.body)
    ensures ConfTokens(NginxTokens, VhostText(head, bs)) == AllNames(bs)
    decreases |bs|
  {
    if bs == [] {
      AbsentIsSilent(head);
      SilentHasNoTokens(NginxTokens, head);
    } else {
      var n := |bs| - 1;
      VhostTokens(head, bs[..n]);
      assert bs[n] in bs;
      BlockTokens(bs[n]);
      ConfTokensConcat(NginxTokens, VhostText(head, bs[..n]), BlockText(bs[n]));
    }
  }

  lemma {:induction false} NamesOfBlocks(bs: seq<Block>, n: string)
    requires forall b :: b in bs ==> b.port == 80 || b.port == 443
    ensures n in AllNames(bs) <==> n in NamesOn(80, bs) || n in NamesOn(443, bs)
    decreases |bs|
  {
    if bs != [] {
      var k := |bs| - 1;
      assert bs[k] in bs;
      NamesOfBlocks(bs[..k], n);
    }
  }

  lemma {:induction false} ServedMembers(ds: seq<DomainSpec>, redirected: set<string>, n: string)
    ensures n in Served(ds, redirected) <==> (exists d :: d in ds && d.name == n) && ToLower(n) !in redirected
    decreases |ds|
  {
    if ds != [] {
      var k := |ds| - 1;
      ServedMembers(ds[..k], redirected, n);
      assert ds == ds[..k] + [ds[k]];
    }
  }

  /** The redirect sources, as a list and in lower case. */
  lemma {:induction false} FromsAreValid(rs: seq<Rule>, n: string)
    requires forall r :: r in rs ==> ValidDomain(r.from)
    ensures n in Froms(rs) ==> ValidDomain(n)
    ensures n in (set r | r in rs :: ToLower(r.from)) ==> n in Froms(rs)
  {
    if n in Froms(rs) {
      var i :| 0 <= i < |rs| && Froms(rs)[i] == n;
      assert rs[i] in rs;
    }
    if n in (set r | r in rs :: ToLower(r.from)) {
      var r :| r in rs && ToLower(r.from) == n;
      ValidDomainIsLowerWord(r.from);
      var i :| 0 <= i < |rs| && rs[i] == r;
      assert Froms(rs)[i] == n;
    }
  }

  /** Every name, over either port, is a redirect source or a domain of the site. */
  lemma {:induction false} NamesAreTheSites(ds: seq<DomainSpec>, rs: seq<Rule>, bs: seq<Block>, n: string)
    requires (forall r :: r in rs ==> ValidDomain(r.from)) && (forall d :: d in ds ==> ValidDomain(d.name))
    requires NamesOn(80, bs) == multiset(Froms(rs)) + multiset(Served(ds, set r | r in rs :: ToLower(r.from)))
    requires NamesOn(443, bs) <= NamesOn(80, bs) && forall b :: b in bs ==> WellMade(b)
    ensures n in AllNames(bs) <==> n in Froms(rs) || exists d :: d in ds && d.name == n
    ensures n in AllNames(bs) ==> ValidDomain(n)
  {
    var redirected := set r | r in rs :: ToLower(r.from);
    NamesOfBlocks(bs, n);
    ServedMembers(ds, redirected, n);
    assert n in AllNames(bs) <==> n in Froms(rs) || n in Served(ds, redirected);
    FromsAreValid(rs, n);
    if exists d :: d in ds && d.name == n {
      ValidDomainIsLowerWord(n);
    }
  }

  lemma {:induction false} BlockNamesListed(bs: seq<Block>, b: Block)
    requires b in bs
    ensures forall d :: d in b.names ==> d in AllNames(bs)
    decreases |bs|
  {
    var k := |bs| - 1;
    assert bs == bs[..k] + [bs[k]];
    if b != bs[k] { BlockNamesListed(bs[..k], b); }
  }

  /**
   The names parsed back from a rendered vhost are exactly the site's domains
   and its normalized redirect sources.
   */
  lemma {:induction false} VhostReadsBack(s: Site, head: Config, bs: seq<Block>, n: string)
    requires Absent("server_name", head) && (forall d :: d in s.domains ==> ValidDomain(d.name))
    requires var rs := Normalized(s.rules);
             NamesOn(80, bs) == multiset(Froms(rs)) + multiset(Served(s.domains, set r | r in rs :: ToLower(r.from)))
    requires NamesOn(443, bs) <= NamesOn(80, bs) && forall b :: b in bs ==> WellMade(b)
    ensures n in ParsedDomains(Nginx, VhostText(head, bs))
            <==> n in Froms(Normalized(s.rules)) || exists d :: d in s.domains && d.name == n
  {
    var rs := Normalized(s.rules);
    NormalizedValid(s.rules);
    forall m: string
      ensures m in AllNames(bs) <==> m in Froms(rs) || exists d :: d in s.domains && d.name == m
      ensures m in AllNames(bs) ==> ValidDomain(m)
    {
      NamesAreTheSites(s.domains, rs, bs, m);
    }
    forall b | b in bs
      ensures forall d :: d in b.names ==> ValidDomain(d)
    {
      BlockNamesListed(bs, b);
    }
    VhostTokens(head, bs);
    DomainsMembers(AllNames(bs), n);
    forall t | t in AllNames(bs) ensures ToLower(t) == t { ValidDomainIsLowerWord(t); }
  }
}
