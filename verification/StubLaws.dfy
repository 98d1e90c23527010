/** What stubs keep: reading one back and rendering it again changes nothing. */
module StubLaws {
  import opened Common
  import opened Text
  import opened Stubs

  // ---------------------------------------------------------------------
  // Lines that are not the directive looked for
  // ---------------------------------------------------------------------

  /** No line of the config is a `key` directive. */
  predicate Absent(key: string, conf: Config) {
    forall i :: 0 <= i < |conf| ==> Argument(conf[i], key) == None
  }

  /** One more line, whose start `pre` already differs from `key`. */
  lemma {:induction false} Add(key: string, conf: Config, pre: string, rest: string, a: nat, j: nat) returns (c: Config)
    requires Absent(key, conf)
    requires a + j < |pre| && (forall i :: 0 <= i < a ==> pre[i] == '\t') && !IsBlank(pre[a])
    requires j < |key| && pre[a + j] != key[j]
    ensures c == conf + [pre + rest] && Absent(key, c)
  {
    OtherDirective(pre + rest, key, a, j);
    c := conf + [pre + rest];
  }

  lemma {:induction false} AddLine(key: string, conf: Config, line: string, a: nat, j: nat) returns (c: Config)
    requires Absent(key, conf)
    requires a + j < |line| && (forall i :: 0 <= i < a ==> line[i] == '\t') && !IsBlank(line[a])
    requires j < |key| && line[a + j] != key[j]
    ensures c == conf + [line] && Absent(key, c)
  {
    OtherDirective(line, key, a, j);
    c := conf + [line];
  }

  lemma {:induction false} AddBlank(key: string, conf: Config) returns (c: Config)
    requires Absent(key, conf) && key != ""
    ensures c == conf + [""] && Absent(key, c)
  {
    c := conf + [""];
  }

  lemma {:induction false} AbsentConcat(key: string, a: Config, b: Config)
    requires Absent(key, a) && Absent(key, b)
    ensures Absent(key, a + b)
  {
  }

  lemma {:induction false} AbsentIsSilent(conf: Config)
    ensures Absent("server_name", conf) ==> Silent(NginxTokens, conf)
    ensures Absent("ServerName", conf) ==> Silent(ApacheTokens, conf)
  {
  }

  // ---------------------------------------------------------------------
  // nginx
  // ---------------------------------------------------------------------

  lemma {:induction false} NginxHeadSilent(id: string, k: Stub)
    ensures Absent("server_name", NginxHead(id, k))
  {
    var c := Add("server_name", [], "# managed by EpicPanel — website ",
        id + " (stub " + Status(k) + ") — DO NOT EDIT", 0, 0);
    c := AddLine("server_name", c, "server {", 0, 6);
    c := AddLine("server_name", c, "\tlisten 80;", 1, 0);
    assert c == NginxHead(id, k);
  }

  lemma {:induction false} NginxLogLinesSilent(id: string) returns (c: Config)
    ensures Absent("server_name", c)
    ensures c == ["\taccess_log " + (BWLOG + " epicpanel_bandwidth;"),
                  "\taccess_log " + (SITES + "/" + id + "/logs/nginx-access.log;"),
                  "\terror_log " + (SITES + "/" + id + "/logs/nginx-error.log;")]
  {
    c := Add("server_name", [], "\taccess_log ", BWLOG + " epicpanel_bandwidth;", 1, 0);
    c := Add("server_name", c, "\taccess_log ", SITES + "/" + id + "/logs/nginx-access.log;", 1, 0);
    c := Add("server_name", c, "\terror_log ", SITES + "/" + id + "/logs/nginx-error.log;", 1, 0);
  }

  lemma {:induction false} NginxLogsSilent(id: string)
    ensures Absent("server_name", NginxLogs(id))
  {
    var c := AddBlank("server_name", []);
    c := Add("server_name", c, "\tset $epicpanel_site_id ", "\"" + id + "\";", 1, 2);
    var d := NginxLogLinesSilent(id);
    AbsentConcat("server_name", c, d);
    assert c + d == NginxLogs(id);
  }

  lemma {:induction false} NginxReturnSilent(k: Stub)
    ensures Absent("server_name", NginxReturn(k))
  {
    var c := AddBlank("server_name", []);
    c := Add("server_name", c, "\treturn ", Status(k) + ";", 1, 0);
    c := Add("server_name", c, "\terror_page ", Status(k) + " /" + PageOf(k) + ";", 1, 0);
    c := Add("server_name", c, "\tlocation = /", PageOf(k) + " {", 1, 0);
    assert c == NginxReturn(k);
  }

  lemma {:induction false} NginxPageSilent(id: string, k: Stub)
    ensures Absent("server_name", NginxPage(id, k))
  {
    var c := Add("server_name", [], "\t\troot ", PageDir(id, k) + ";", 2, 0);
    c := AddLine("server_name", c, "\t\tinternal;", 2, 0);
    c := Add("server_name", c, "\t\tadd_header ", "Cache-Control \"no-store\" always;", 2, 0);
    c := AddLine("server_name", c, "\t}", 1, 0);
    c := AddLine("server_name", c, "}", 0, 0);
    assert c == NginxPage(id, k);
  }

  /** An nginx stub is read back as exactly the domains it was rendered from. */
  lemma {:induction false} NginxStubReadsBack(id: string, names: seq<string>, k: Stub)
    requires names != [] && Distinct(names) && forall d :: d in names ==> ValidDomain(d)
    ensures ParsedDomains(Nginx, NginxStub(id, names, k)) == names
  {
    NginxHeadSilent(id, k);
    NginxLogsSilent(id);
    NginxReturnSilent(k);
    NginxPageSilent(id, k);
    AbsentConcat("server_name", NginxLogs(id), NginxReturn(k));
    AbsentConcat("server_name", NginxLogs(id) + NginxReturn(k), NginxPage(id, k));
    AbsentIsSilent(NginxHead(id, k));
    AbsentIsSilent(NginxLogs(id) + NginxReturn(k) + NginxPage(id, k));
    FramedNames(Nginx, NginxHead(id, k), names, NginxLogs(id) + NginxReturn(k) + NginxPage(id, k));
  }

  // ---------------------------------------------------------------------
  // Apache
  // ---------------------------------------------------------------------

  /** The keys Apache stubs are searched for, told apart by their first letter. */
  predicate ApacheKey(key: string) {
    key != "" && (key[0] == 'S' || key[0] == 'D' || key[0] == 'L')
  }

  lemma {:induction false} ApacheTitleAbsent(id: string, k: Stub, key: string)
    requires ApacheKey(key)
    ensures Absent(key, [ApacheTitle(id, k)])
  {
    var c := Add(key, [], "# managed by EpicPanel — website ", id + " (" + Kind(k) + ") — DO NOT EDIT", 0, 0);
    assert c == [ApacheTitle(id, k)];
  }

  lemma {:induction false} ApacheHeadAbsent(id: string, port: nat, k: Stub, key: string)
    requires key == "ServerName" || key == "DocumentRoot"
    ensures Absent(key, ApacheHead(id, port, k))
  {
    ApacheTitleAbsent(id, k, key);
    var c := Add(key, [ApacheTitle(id, k)], "Listen ", "127.0.0.1:" + Decimal(port), 0, 0);
    c := Add(key, c, "<VirtualHost 127.0.0.1:", Decimal(port) + ">", 0, 0);
    assert c == ApacheHead(id, port, k);
  }

  lemma {:induction false} ApacheOptionsAbsent(key: string) returns (c: Config)
    requires ApacheKey(key)
    ensures Absent(key, c)
    ensures c == ["\t\tOptions -Indexes", "\t\tRequire all granted", "\t</Directory>", ""]
  {
    c := AddLine(key, [], "\t\tOptions -Indexes", 2, 0);
    c := AddLine(key, c, "\t\tRequire all granted", 2, 0);
    c := AddLine(key, c, "\t</Directory>", 1, 0);
    c := AddBlank(key, c);
  }

  lemma {:induction false} ApacheDirectoryAbsent(root: string, key: string)
    requires ApacheKey(key)
    ensures Absent(key, ApacheDirectory(root))
  {
    var c := AddBlank(key, []);
    c := Add(key, c, "\t<Directory ", root + ">", 1, 0);
    var d := ApacheOptionsAbsent(key);
    AbsentConcat(key, c, d);
    assert c + d == ApacheDirectory(root);
  }

  lemma {:induction false} ApacheRuleAbsent(k: Stub, key: string) returns (c: Config)
    requires ApacheKey(key)
    ensures Absent(key, c)
    ensures c ==
        ["\t<IfModule mod_rewrite.c>", "\t\tRewriteEngine On", "\t\tRewriteRule ^ - [R=" + (Status(k) + ",L]"),
            "\t</IfModule>"]
  {
    c := AddLine(key, [], "\t<IfModule mod_rewrite.c>", 1, 0);
    c := AddLine(key, c, "\t\tRewriteEngine On", 2, 0);
    c := Add(key, c, "\t\tRewriteRule ^ - [R=", Status(k) + ",L]", 2, 0);
    c := AddLine(key, c, "\t</IfModule>", 1, 0);
  }

  lemma {:induction false} ApachePageAbsent(id: string, k: Stub, key: string) returns (c: Config)
    requires ApacheKey(key)
    ensures Absent(key, c)
    ensures c == ["\tAlias /epicpanel_stub.html " + (PageDir(id, k) + "/" + PageOf(k)),
                  "\tErrorDocument " + (Status(k) + " /epicpanel_stub.html")]
  {
    c := Add(key, [], "\tAlias /epicpanel_stub.html ", PageDir(id, k) + "/" + PageOf(k), 1, 0);
    c := Add(key, c, "\tErrorDocument ", Status(k) + " /epicpanel_stub.html", 1, 0);
  }

  lemma {:induction false} ApacheRewriteAbsent(id: string, k: Stub, key: string)
    requires ApacheKey(key)
    ensures Absent(key, ApacheRewrite(id, k))
  {
    var c := ApacheRuleAbsent(k, key);
    var d := ApachePageAbsent(id, k, key);
    AbsentConcat(key, c, d);
    assert c + d == ApacheRewrite(id, k);
  }

  lemma {:induction false} ApacheHeaderAbsent(key: string) returns (c: Config)
    requires ApacheKey(key)
    ensures Absent(key, c)
    ensures c ==
        ["\t<IfModule mod_headers.c>", "\t\tHeader " + "always set Cache-Control \"no-store\"", "\t</IfModule>", ""]
  {
    c := AddLine(key, [], "\t<IfModule mod_headers.c>", 1, 0);
    c := Add(key, c, "\t\tHeader ", "always set Cache-Control \"no-store\"", 2, 0);
    c := AddLine(key, c, "\t</IfModule>", 1, 0);
    c := AddBlank(key, c);
  }

  lemma {:induction false} ApacheLogLinesAbsent(id: string, key: string) returns (c: Config)
    requires ApacheKey(key)
    ensures Absent(key, c)
    ensures c == ["\tErrorLog " + (SITES + "/" + id + "/logs/apache-error.log"),
                  "\tCustomLog " + (SITES + "/" + id + "/logs/apache-access.log combined"),
                  "</VirtualHost>"]
  {
    c := Add(key, [], "\tErrorLog ", SITES + "/" + id + "/logs/apache-error.log", 1, 0);
    c := Add(key, c, "\tCustomLog ", SITES + "/" + id + "/logs/apache-access.log combined", 1, 0);
    c := AddLine(key, c, "</VirtualHost>", 0, 0);
  }

  lemma {:induction false} ApacheLogsAbsent(id: string, key: string)
    requires ApacheKey(key)
    ensures Absent(key, ApacheLogs(id))
  {
    var c := ApacheHeaderAbsent(key);
    var d := ApacheLogLinesAbsent(id, key);
    AbsentConcat(key, c, d);
    assert c + d == ApacheLogs(id);
  }

  lemma {:induction false} ApacheRestAbsent(id: string, root: string, k: Stub, key: string)
    requires ApacheKey(key)
    ensures Absent(key, ApacheRest(id, root, k))
  {
    ApacheDirectoryAbsent(root, key);
    ApacheRewriteAbsent(id, k, key);
    ApacheLogsAbsent(id, key);
    AbsentConcat(key, ApacheDirectory(root), ApacheRewrite(id, k));
    AbsentConcat(key, ApacheDirectory(root) + ApacheRewrite(id, k), ApacheLogs(id));
  }

  lemma {:induction false} ApacheRootSilent(id: string, root: string, k: Stub)
    ensures Absent("ServerName", [DocRootLine(root)] + ApacheRest(id, root, k))
  {
    var c := Add("ServerName", [], "\tDocumentRoot ", root, 1, 0);
    assert c == [DocRootLine(root)];
    ApacheRestAbsent(id, root, k, "ServerName");
    AbsentConcat("ServerName", c, ApacheRest(id, root, k));
  }

  /** An Apache stub is read back as exactly its domains ... */
  lemma {:induction false} ApacheStubReadsBack(id: string, names: seq<string>, port: nat, root: string, k: Stub)
    requires names != [] && Distinct(names) && forall d :: d in names ==> ValidDomain(d)
    ensures ParsedDomains(Apache, ApacheStub(id, names, port, root, k)) == names
  {
    var pre, post := ApacheHead(id, port, k), [DocRootLine(root)] + ApacheRest(id, root, k);
    ApacheHeadAbsent(id, port, k, "ServerName");
    ApacheRootSilent(id, root, k);
    AbsentIsSilent(pre);
    AbsentIsSilent(post);
    FramedNames(Apache, pre, names, post);
  }

  lemma {:induction false} SoleArgumentReads(pre: string, indent: string, key: string, w: string)
    requires pre == indent + key + " "
    requires (forall i :: 0 <= i < |indent| ==> IsBlank(indent[i])) && Solid(key) && Solid(w)
    ensures SoleArgument(pre + w, key) == Some(w)
  {
    var line := pre + w;
    assert !IsBlank(w[0]);
    ThisDirective(indent, key, w);
    assert line == indent + key + " " + w && line[|pre|..|line|] == w;
    assert forall j :: |pre| <= j < |line| ==> line[j] == w[j - |pre|];
    assert SkipSolid(line, |pre|) == |line|;
  }

  lemma {:induction false} PortReads(port: nat)
    requires port <= MAX_INT
    ensures Solid("127.0.0.1:" + Decimal(port)) && PortOf("127.0.0.1:" + Decimal(port)) == Some(port)
  {
    DecimalReads(port);
    var w := "127.0.0.1:" + Decimal(port);
    assert w[|"127.0.0.1:"|..] == Decimal(port);
    assert forall i :: |"127.0.0.1:"| <= i < |w| ==> w[i] == Decimal(port)[i - |"127.0.0.1:"|];
  }

  lemma {:induction false} AbsentFinds(conf: Config, i: nat)
    requires i < |conf|
    ensures Absent("Listen", conf) ==> ListenOf(conf[i]) == None
    ensures Absent("DocumentRoot", conf) ==> DocRootOf(conf[i]) == None
  {
  }

  lemma {:induction false} ListenLineReads(port: nat)
    requires port <= MAX_INT
    ensures ListenOf(ListenLine(port)) == Some(port)
  {
    PortReads(port);
    assert "Listen " == "" + "Listen" + " ";
    SoleArgumentReads("Listen ", "", "Listen", "127.0.0.1:" + Decimal(port));
  }

  lemma {:induction false} DocRootLineReads(root: string)
    requires Solid(root)
    ensures DocRootOf(DocRootLine(root)) == Some(root)
  {
    assert "\tDocumentRoot " == "\t" + "DocumentRoot" + " ";
    SoleArgumentReads("\tDocumentRoot ", "\t", "DocumentRoot", root);
  }

  lemma {:induction false} Regrouped(t: string, l: string, v: string, n: string, d: string, rest: Config)
    ensures [t, l, v] + [n] + ([d] + rest) == [t] + [l] + ([v, n, d] + rest)
    ensures [t, l, v] + [n] + ([d] + rest) == [t, l, v, n] + [d] + rest
  {
  }

  /** ... with its listen port ... */
  lemma {:induction false} ApacheStubKeepsPort(id: string, names: seq<string>, port: nat, root: string, k: Stub)
    requires port <= MAX_INT
    ensures ListenPort(ApacheStub(id, names, port, root, k)) == port
  {
    var t, l, n, d, rest := ApacheTitle(id, k), ListenLine(port), NameLine(Apache, names), DocRootLine(root),
        ApacheRest(id, root, k);
    var v := ApacheHead(id, port, k)[2];
    ApacheTitleAbsent(id, k, "Listen");
    AbsentFinds([t], 0);
    ListenLineReads(port);
    Regrouped(t, l, v, n, d, rest);
    FirstOfFramed(ListenOf, [t], l, [v, n, d] + rest);
  }

  lemma {:induction false} RootBehind(pre: Config, d: string, rest: Config, root: string)
    requires Absent("DocumentRoot", pre) && d == DocRootLine(root) && Solid(root)
    ensures DocRoot(pre + [d] + rest) == Some(root)
  {
    forall i | 0 <= i < |pre| ensures DocRootOf(pre[i]) == None { AbsentFinds(pre, i); }
    DocRootLineReads(root);
    FirstOfFramed(DocRootOf, pre, d, rest);
  }

  lemma {:induction false} ApacheNamesAbsent(id: string, names: seq<string>, port: nat, k: Stub)
    ensures var h := ApacheHead(id, port, k);
            Absent("DocumentRoot", [h[0], h[1], h[2], NameLine(Apache, names)])
  {
    var h := ApacheHead(id, port, k);
    ApacheHeadAbsent(id, port, k, "DocumentRoot");
    var c := Add("DocumentRoot", h, "\tServerName ", Spaced(names), 1, 0);
    assert c == [h[0], h[1], h[2], NameLine(Apache, names)];
  }

  /** ... and its document root. */
  lemma {:induction false} ApacheStubKeepsRoot(id: string, names: seq<string>, port: nat, root: string, k: Stub)
    requires Solid(root)
    ensures DocRoot(ApacheStub(id, names, port, root, k)) == Some(root)
  {
    var t, l, n, d, rest := ApacheTitle(id, k), ListenLine(port), NameLine(Apache, names), DocRootLine(root),
        ApacheRest(id, root, k);
    var v := ApacheHead(id, port, k)[2];
    ApacheNamesAbsent(id, names, port, k);
    RootBehind([t, l, v, n], d, rest, root);
    Regrouped(t, l, v, n, d, rest);
  }

  // ---------------------------------------------------------------------
  // The stub of a config
  // ---------------------------------------------------------------------

  function RootOf(id: string, conf: Config): string {
    match DocRoot(conf)
    case Some(r) => r
    case None => SITES + "/" + id + "/public"
  }

  /** lifeNginxStub and lifeApacheStub: none when no domain is found. */
  function StubOf(sv: Server, id: string, conf: Config, k: Stub): Option<Config> {
    var names := ParsedDomains(sv, conf);
    if names == [] then None
    else
      match sv
      case Nginx => Some(NginxStub(id, names, k))
      case Apache => Some(ApacheStub(id, names, ListenPort(conf), RootOf(id, conf), k))
  }

  lemma {:induction false} FirstOfIsOne<T>(f: string -> Option<T>, conf: Config)
    ensures FirstOf(f, conf).Some? ==> exists l :: l in conf && f(l) == FirstOf(f, conf)
    decreases |conf|
  {
    if conf != [] {
      FirstOfIsOne(f, conf[1..]);
      assert conf[0] in conf;
    }
  }

  lemma {:induction false} ListenPortFits(conf: Config)
    ensures ListenPort(conf) <= MAX_INT
  {
    FirstOfIsOne(ListenOf, conf);
  }

  lemma {:induction false} SolidBetween(a: string, w: string, b: string)
    requires Solid(w) && (forall i :: 0 <= i < |a| ==> !IsBlank(a[i])) && forall i :: 0 <= i < |b| ==> !IsBlank(b[i])
    ensures Solid(a + w + b)
  {
  }

  lemma {:induction false} DefaultRootIsSolid(id: string)
    requires Solid(id)
    ensures Solid(SITES + "/" + id + "/public")
  {
    assert forall i :: 0 <= i < |SITES + "/"| ==> !IsBlank((SITES + "/")[i]);
    assert forall i :: 0 <= i < |"/public"| ==> !IsBlank("/public"[i]);
    SolidBetween(SITES + "/", id, "/public");
  }

  lemma {:induction false} RootOfLineIsSolid(line: string)
    requires DocRootOf(line).Some?
    ensures Solid(DocRootOf(line).value)
  {
    var c := Argument(line, "DocumentRoot").value;
    var e := SkipSolid(line, c);
    assert forall i :: 0 <= i < e - c ==> line[c..e][i] == line[c + i];
  }

  lemma {:induction false} RootIsSolid(id: string, conf: Config)
    requires Solid(id)
    ensures Solid(RootOf(id, conf))
  {
    FirstOfIsOne(DocRootOf, conf);
    if DocRoot(conf).Some? {
      var l :| l in conf && DocRootOf(l) == DocRoot(conf);
      RootOfLineIsSolid(l);
    } else {
      DefaultRootIsSolid(id);
    }
  }

  lemma {:induction false} NginxStubOfStub(id: string, names: seq<string>, k1: Stub, k2: Stub)
    requires names != [] && Distinct(names) && forall d :: d in names ==> ValidDomain(d)
    ensures StubOf(Nginx, id, NginxStub(id, names, k1), k2) == Some(NginxStub(id, names, k2))
  {
    NginxStubReadsBack(id, names, k1);
  }

  lemma {:induction false} ApacheStubOfStub(id: string, names: seq<string>, port: nat, root: string, k1: Stub, k2: Stub)
    requires names != [] && Distinct(names) && forall d :: d in names ==> ValidDomain(d)
    requires port <= MAX_INT && Solid(root)
    ensures StubOf(Apache, id, ApacheStub(id, names, port, root, k1), k2) == Some(ApacheStub(id, names, port, root, k2))
  {
    ApacheStubReadsBack(id, names, port, root, k1);
    ApacheStubKeepsPort(id, names, port, root, k1);
    ApacheStubKeepsRoot(id, names, port, root, k1);
  }

  /**
   For every config text, a stub of its stub is the stub of the text itself,
   whatever the two reasons: no information the stub needs is ever lost.
   */
  lemma {:induction false} StubOfStub(sv: Server, id: string, conf: Config, k1: Stub, k2: Stub)
    requires Solid(id) && StubOf(sv, id, conf, k1).Some?
    ensures StubOf(sv, id, StubOf(sv, id, conf, k1).value, k2) == StubOf(sv, id, conf, k2)
    ensures ParsedDomains(sv, StubOf(sv, id, conf, k1).value) == ParsedDomains(sv, conf)
  {
    var names := ParsedDomains(sv, conf);
    DomainsAreValid(ConfTokens(TokensOf(sv), conf));
    match sv
    case Nginx =>
      NginxStubReadsBack(id, names, k1);
      NginxStubOfStub(id, names, k1, k2);
    case Apache =>
      var port, root := ListenPort(conf), RootOf(id, conf);
      ListenPortFits(conf);
      RootIsSolid(id, conf);
      ApacheStubReadsBack(id, names, port, root, k1);
      ApacheStubOfStub(id, names, port, root, k1, k2);
  }
}
