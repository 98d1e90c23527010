/**
 Lifecycle stubs. A stub is rendered from the domains parsed out of the config
 it replaces, and is itself a config the same parser must understand.
 Configs are sequences of lines.
 */
module Stubs {
  import opened Common
  import opened Text

  type Config = seq<string>

  datatype Server = Nginx | Apache

  // ---------------------------------------------------------------------
  // Reading domains back
  // ---------------------------------------------------------------------

  /** Name tokens of one line: those of a terminated server_name ... */
  function NginxTokens(line: string): seq<string> {
    match Argument(line, "server_name")
    case None => []
    case Some(c) =>
      var d := IndexFrom(line, ';', c);
      if d == |line| then [] else Fields(line[c..d])
  }

  /** ... or those of a ServerName. */
  function ApacheTokens(line: string): seq<string> {
    match Argument(line, "ServerName")
    case None => []
    case Some(c) => Fields(line[c..])
  }

  type Tokenizer = string -> seq<string>

  function TokensOf(sv: Server): Tokenizer {
    match sv
    case Nginx => NginxTokens
    case Apache => ApacheTokens
  }

  function ConfTokens(f: Tokenizer, conf: Config): seq<string> {
    if conf == [] then []
    else ConfTokens(f, conf[..|conf| - 1]) + f(conf[|conf| - 1])
  }

  function ParsedDomains(sv: Server, conf: Config): seq<string> {
    Domains(ConfTokens(TokensOf(sv), conf))
  }

  /** The inner loop: one match's tokens. */
  method AddNames(names: seq<string>, seen0: set<string>, ghost before: seq<string>, toks: seq<string>)
    returns (out: seq<string>, seen: set<string>)
    requires names == Domains(before) && seen0 == set d | d in names
    ensures out == Domains(before + toks) && seen == set d | d in out
  {
    out, seen := names, seen0;
    assert before + toks[..0] == before;
    for j := 0 to |toks|
      invariant out == Domains(before + toks[..j]) && seen == set d | d in out
    {
      var d := ToLower(toks[j]);
      assert (before + toks[..j + 1])[..|before| + j] == before + toks[..j];
      if d !in seen && ValidDomain(d) {
        seen := seen + {d};
        out := out + [d];
      }
    }
    assert toks[..|toks|] == toks;
  }

  /** lifeParseNginxDomains and lifeParseApacheDomains, with their seen-set. */
  method ParseDomains(f: Tokenizer, conf: Config) returns (out: seq<string>)
    ensures out == Domains(ConfTokens(f, conf))
    ensures Distinct(out) && forall d :: d in out ==> ValidDomain(d)
  {
    out := [];
    var seen: set<string> := {};
    for i := 0 to |conf|
      invariant out == Domains(ConfTokens(f, conf[..i])) && seen == set d | d in out
    {
      assert conf[..i + 1][..i] == conf[..i];
      out, seen := AddNames(out, seen, ConfTokens(f, conf[..i]), f(conf[i]));
    }
    assert conf[..|conf|] == conf;
    DomainsAreValid(ConfTokens(f, conf));
  }

  lemma {:induction false} ConfTokensNext(f: Tokenizer, conf: Config, line: string)
    ensures ConfTokens(f, conf + [line]) == ConfTokens(f, conf) + f(line)
  {
    Appended(conf, line);
  }

  lemma {:induction false} ConfTokensConcat(f: Tokenizer, a: Config, b: Config)
    ensures ConfTokens(f, a + b) == ConfTokens(f, a) + ConfTokens(f, b)
    decreases |b|
  {
    if b == [] {
      NothingAdded(a);
      NothingAdded(ConfTokens(f, a));
    } else {
      var init, line := b[..|b| - 1], b[|b| - 1];
      ConfTokensConcat(f, a, init);
      SplitLast(b);
      Assoc(a, init, [line]);
      ConfTokensNext(f, a + init, line);
      Assoc(ConfTokens(f, a), ConfTokens(f, init), f(line));
    }
  }

  /** No line of `conf` names a domain. */
  predicate Silent(f: Tokenizer, conf: Config) {
    forall i :: 0 <= i < |conf| ==> f(conf[i]) == []
  }

  lemma {:induction false} SilentHasNoTokens(f: Tokenizer, conf: Config)
    requires Silent(f, conf)
    ensures ConfTokens(f, conf) == []
    decreases |conf|
  {
    if conf != [] { SilentHasNoTokens(f, conf[..|conf| - 1]); }
  }

  /** Around silent lines, one name line is all that is read. */
  lemma {:induction false} FramedTokens(f: Tokenizer, pre: Config, line: string, post: Config)
    requires Silent(f, pre) && Silent(f, post)
    ensures ConfTokens(f, pre + [line] + post) == f(line)
  {
    SilentHasNoTokens(f, pre);
    SilentHasNoTokens(f, post);
    ConfTokensConcat(f, pre + [line], post);
    ConfTokensConcat(f, pre, [line]);
    assert [line][..0] == [];
    assert ConfTokens(f, [line]) == ConfTokens(f, []) + f(line);
  }

  function NameLine(sv: Server, names: seq<string>): string {
    match sv
    case Nginx => "\tserver_name " + (Spaced(names) + ";")
    case Apache => "\tServerName " + Spaced(names)
  }

  lemma {:induction false} SpacedShape(names: seq<string>)
    requires names != [] && forall d :: d in names ==> ValidDomain(d)
    ensures Spaced(names) != "" && !IsBlank(Spaced(names)[0]) && ';' !in Spaced(names)
    decreases |names|
  {
    assert names[0] in names;
    ValidDomainIsLowerWord(names[0]);
    if |names| > 1 { SpacedShape(names[1..]); }
  }

  lemma {:induction false} SemicolonAfter(pre: string, body: string)
    requires ';' !in body
    ensures var line := pre + (body + ";");
            IndexFrom(line, ';', |pre|) == |pre| + |body| && line[|pre|..|pre| + |body|] == body
  {
    var line := pre + (body + ";");
    assert line[|pre| + |body|] == ';';
    assert forall j :: |pre| <= j < |pre| + |body| ==> line[j] == body[j - |pre|];
    assert line[|pre|..|pre| + |body|] == body;
  }

  lemma {:induction false} TokensBetween(line: string, c: nat, d: nat)
    requires Argument(line, "server_name") == Some(c) && c <= d < |line| && IndexFrom(line, ';', c) == d
    ensures NginxTokens(line) == Fields(line[c..d])
  {
  }

  lemma {:induction false} NginxArgument(body: string)
    requires body != "" && !IsBlank(body[0]) && ';' !in body
    ensures NginxTokens("\tserver_name " + (body + ";")) == Fields(body)
  {
    assert "\t" + "server_name" + " " == "\tserver_name ";
    ThisDirective("\t", "server_name", body + ";");
    SemicolonAfter("\tserver_name ", body);
    var pre := "\tserver_name ";
    TokensBetween(pre + (body + ";"), |pre|, |pre| + |body|);
  }

  lemma {:induction false} ApacheArgument(body: string)
    requires body != "" && !IsBlank(body[0])
    ensures ApacheTokens("\tServerName " + body) == Fields(body)
  {
    assert "\t" + "ServerName" + " " == "\tServerName ";
    ThisDirective("\t", "ServerName", body);
    assert ("\tServerName " + body)[|"\tServerName "|..] == body;
  }

  /** The name line is read back as its names. */
  lemma {:induction false} NameLineTokens(sv: Server, names: seq<string>)
    requires names != [] && forall d :: d in names ==> ValidDomain(d)
    ensures TokensOf(sv)(NameLine(sv, names)) == names
  {
    var body := Spaced(names);
    SpacedShape(names);
    forall d | d in names ensures Word(d) { ValidDomainIsLowerWord(d); }
    FieldsOfSpaced("", names);
    assert "" + body == body;
    match sv
    case Nginx => NginxArgument(body);
    case Apache => ApacheArgument(body);
  }

  lemma {:induction false} FramedNames(sv: Server, pre: Config, names: seq<string>, post: Config)
    requires Silent(TokensOf(sv), pre) && Silent(TokensOf(sv), post)
    requires names != [] && Distinct(names) && forall d :: d in names ==> ValidDomain(d)
    ensures ParsedDomains(sv, pre + [NameLine(sv, names)] + post) == names
  {
    NameLineTokens(sv, names);
    FramedTokens(TokensOf(sv), pre, NameLine(sv, names), post);
    DomainsOfDomains(names);
  }

  // ---------------------------------------------------------------------
  // Rendering stubs
  // ---------------------------------------------------------------------

  /** Which placeholder: suspended, optionally with a reason page, or terminated. */
  datatype Stub = Suspended(page: string) | Terminated

  const BANDWIDTH_PAGE := "bandwidth_exhausted.html"
  const PAGES := "/srv/epicpanel/default_pages"
  const SITES := "/srv/epicpanel/websites"
  const BWLOG := "/var/log/epicpanel/bandwidth.log"

  function Status(k: Stub): string {
    if k.Terminated? then "410" else "503"
  }

  function PageOf(k: Stub): string {
    if k.Terminated? then "terminated.html" else if k.page == "" then "suspended.html" else k.page
  }

  function PageDir(id: string, k: Stub): string {
    if k.Suspended? && k.page == BANDWIDTH_PAGE then SITES + "/" + id + "/pages" else PAGES
  }

  function NginxHead(id: string, k: Stub): Config {
    ["# managed by EpicPanel — website " + (id + " (stub " + Status(k) + ") — DO NOT EDIT"),
     "server {",
     "\tlisten 80;"]
  }

  /** Accounting stamp and site logs. */
  function NginxLogs(id: string): Config {
    ["",
     "\tset $epicpanel_site_id " + ("\"" + id + "\";"),
     "\taccess_log " + (BWLOG + " epicpanel_bandwidth;"),
     "\taccess_log " + (SITES + "/" + id + "/logs/nginx-access.log;"),
     "\terror_log " + (SITES + "/" + id + "/logs/nginx-error.log;")]
  }

  function NginxReturn(k: Stub): Config {
    ["",
     "\treturn " + (Status(k) + ";"),
     "\terror_page " + (Status(k) + " /" + PageOf(k) + ";"),
     "\tlocation = /" + (PageOf(k) + " {")]
  }

  function NginxPage(id: string, k: Stub): Config {
    ["\t\troot " + (PageDir(id, k) + ";"),
     "\t\tinternal;",
     "\t\tadd_header " + "Cache-Control \"no-store\" always;",
     "\t}",
     "}"]
  }

  /** renderVhostStub, for at least one domain. */
  function NginxStub(id: string, names: seq<string>, k: Stub): Config {
    NginxHead(id, k) + [NameLine(Nginx, names)] + (NginxLogs(id) + NginxReturn(k) + NginxPage(id, k))
  }

  function Kind(k: Stub): string {
    if k.Terminated? then "terminated" else "suspended"
  }

  function ApacheTitle(id: string, k: Stub): string {
    "# managed by EpicPanel — website " + (id + " (" + Kind(k) + ") — DO NOT EDIT")
  }

  function ListenLine(port: nat): string {
    "Listen " + ("127.0.0.1:" + Decimal(port))
  }

  function ApacheHead(id: string, port: nat, k: Stub): Config {
    [ApacheTitle(id, k),
     ListenLine(port),
     "<VirtualHost 127.0.0.1:" + (Decimal(port) + ">")]
  }

  function DocRootLine(root: string): string {
    "\tDocumentRoot " + root
  }

  function ApacheDirectory(root: string): Config {
    ["",
     "\t<Directory " + (root + ">"),
     "\t\tOptions -Indexes",
     "\t\tRequire all granted",
     "\t</Directory>",
     ""]
  }

  function ApacheRewrite(id: string, k: Stub): Config {
    ["\t<IfModule mod_rewrite.c>",
     "\t\tRewriteEngine On",
     "\t\tRewriteRule ^ - [R=" + (Status(k) + ",L]"),
     "\t</IfModule>",
     "\tAlias /epicpanel_stub.html " + (PageDir(id, k) + "/" + PageOf(k)),
     "\tErrorDocument " + (Status(k) + " /epicpanel_stub.html")]
  }

  function ApacheLogs(id: string): Config {
    ["\t<IfModule mod_headers.c>",
     "\t\tHeader " + "always set Cache-Control \"no-store\"",
     "\t</IfModule>",
     "",
     "\tErrorLog " + (SITES + "/" + id + "/logs/apache-error.log"),
     "\tCustomLog " + (SITES + "/" + id + "/logs/apache-access.log combined"),
     "</VirtualHost>"]
  }

  function ApacheRest(id: string, root: string, k: Stub): Config {
    ApacheDirectory(root) + ApacheRewrite(id, k) + ApacheLogs(id)
  }

  /** renderApacheStub. */
  function ApacheStub(id: string, names: seq<string>, port: nat, root: string, k: Stub): Config {
    ApacheHead(id, port, k) + [NameLine(Apache, names)] + ([DocRootLine(root)] + ApacheRest(id, root, k))
  }

  // ---------------------------------------------------------------------
  // Numbers
  // ---------------------------------------------------------------------

  predicate IsDigit(c: char) {
    '0' <= c <= '9'
  }

  function Decimal(n: nat): string {
    var d := [('0' as int + n % 10) as char];
    if n < 10 then d else Decimal(n / 10) + d
  }

  function Number(s: string): nat
    requires forall i :: 0 <= i < |s| ==> IsDigit(s[i])
  {
    if s == "" then 0
    else
      var last := s[|s| - 1];
      assert IsDigit(last);
      10 * Number(s[..|s| - 1]) + (last as int - '0' as int)
  }

  lemma {:induction false} DecimalReads(n: nat)
    ensures Decimal(n) != "" && forall i :: 0 <= i < |Decimal(n)| ==> IsDigit(Decimal(n)[i])
    ensures Number(Decimal(n)) == n
  {
    if n >= 10 {
      DecimalReads(n / 10);
      var s := Decimal(n);
      assert s[..|s| - 1] == Decimal(n / 10);
    } else {
      assert Decimal(n)[..0] == "";
    }
  }

  const MAX_INT := 0x7fff_ffff_ffff_ffff

  /** A port argument "127.0.0.1:<digits>"; a number that does not fit reads as 0. */
  function PortOf(w: string): Option<nat> {
    var pre := "127.0.0.1:";
    if HasAt(w, 0, pre) && |w| > |pre| && forall i :: |pre| <= i < |w| ==> IsDigit(w[i])
    then Some(if Number(w[|pre|..]) > MAX_INT then 0 else Number(w[|pre|..]))
    else None
  }

  /** The single word after directive `key`, if the line is that and no more. */
  function SoleArgument(line: string, key: string): Option<string> {
    match Argument(line, key)
    case None => None
    case Some(c) => var e := SkipSolid(line, c); if SkipBlanks(line, e) == |line| then Some(line[c..e]) else None
  }

  /** The first line `f` accepts. */
  function FirstOf<T>(f: string -> Option<T>, conf: Config): Option<T> {
    if conf == [] then None
    else if f(conf[0]).Some? then f(conf[0])
    else FirstOf(f, conf[1..])
  }

  lemma {:induction false} FirstOfFramed<T>(f: string -> Option<T>, pre: Config, line: string, post: Config)
    requires (forall i :: 0 <= i < |pre| ==> f(pre[i]) == None) && f(line).Some?
    ensures FirstOf(f, pre + [line] + post) == f(line)
    decreases |pre|
  {
    var c := pre + [line] + post;
    if pre != [] {
      assert c[0] == pre[0] && c[1..] == pre[1..] + [line] + post;
      FirstOfFramed(f, pre[1..], line, post);
    }
  }

  function ListenOf(line: string): Option<nat> {
    match SoleArgument(line, "Listen")
    case None => None
    case Some(w) => PortOf(w)
  }

  function DocRootOf(line: string): Option<string> {
    SoleArgument(line, "DocumentRoot")
  }

  /** apacheListenPort: the first loopback Listen line, else 0. */
  function ListenPort(conf: Config): nat {
    match FirstOf(ListenOf, conf)
    case Some(p) => p
    case None => 0
  }

  /** The first DocumentRoot with a single argument. */
  function DocRoot(conf: Config): Option<string> {
    FirstOf(DocRootOf, conf)
  }
}
