/** What the stubs answer: their status, their page, and what they keep logging. */
module StubAnswers {
  import opened Common
  import opened Text
  import opened Stubs
  import opened StubLaws
  import opened Lifecycle

  // ---------------------------------------------------------------------
  // Reading a status
  // ---------------------------------------------------------------------

  /** What stands between `pre` at the start of a line and the next `stop`. */
  function Between(line: string, pre: string, stop: char): Option<string> {
    if HasAt(line, 0, pre) then Some(line[|pre|..IndexFrom(line, stop, |pre|)]) else None
  }

  const NGINX_RETURN := "\treturn "
  const APACHE_RULE := "\t\tRewriteRule ^ - [R="
  const OLS_RULE := "    rewriteRule  ^/.*$  -  [R="

  /** The status a line makes the server answer with, if it does. */
  function StatusIn(pv: Provider): string -> Option<string> {
    match pv
    case Web(Nginx) => (line: string) => Between(line, NGINX_RETURN, ';')
    case Web(Apache) => (line: string) => Between(line, APACHE_RULE, ',')
    case Ols => (line: string) => Between(line, OLS_RULE, ',')
  }

  /** The status of the first line that sets one. */
  function Answer(pv: Provider, conf: Config): Option<string> {
    FirstOf(StatusIn(pv), conf)
  }

  lemma {:induction false} BetweenReads(pre: string, code: string, stop: char, rest: string)
    requires stop !in code
    ensures Between(pre + (code + ([stop] + rest)), pre, stop) == Some(code)
  {
    var line := pre + (code + ([stop] + rest));
    assert line[0..|pre|] == pre;
    assert line[|pre| + |code|] == stop;
    assert forall j :: |pre| <= j < |pre| + |code| ==> line[j] == code[j - |pre|];
    assert line[|pre|..|pre| + |code|] == code;
  }

  // ---------------------------------------------------------------------
  // Lines that set no status
  // ---------------------------------------------------------------------

  /** No line starts with `pre`. */
  predicate Starts(pre: string, conf: Config) {
    exists i :: 0 <= i < |conf| && HasAt(conf[i], 0, pre)
  }

  /** One more line, whose start differs from `pre` at `j`. */
  lemma {:induction false} Other(pre: string, conf: Config, head: string, rest: string, j: nat) returns (c: Config)
    requires !Starts(pre, conf) && j < |head| && j < |pre| && head[j] != pre[j]
    ensures c == conf + [head + rest] && !Starts(pre, c)
  {
    c := conf + [head + rest];
    var line := head + rest;
    assert line[j] == head[j];
    assert |pre| <= |line| ==> line[0..|pre|][j] == line[j];
  }

  lemma {:induction false} OtherLine(pre: string, conf: Config, line: string, j: nat) returns (c: Config)
    requires !Starts(pre, conf) && j < |line| && j < |pre| && line[j] != pre[j]
    ensures c == conf + [line] && !Starts(pre, c)
  {
    c := Other(pre, conf, line, "", j);
    NothingAdded(line);
  }

  lemma {:induction false} OtherBlank(pre: string, conf: Config) returns (c: Config)
    requires !Starts(pre, conf) && pre != ""
    ensures c == conf + [""] && !Starts(pre, c)
  {
    c := conf + [""];
  }

  lemma {:induction false} OthersJoin(pre: string, a: Config, b: Config)
    requires !Starts(pre, a) && !Starts(pre, b)
    ensures !Starts(pre, a + b)
  {
  }

  /** Behind lines that do not start like it, the line with the status decides. */
  lemma {:induction false} FirstStatus(pv: Provider, pre: string, stop: char, a: Config, code: string, rest: string,
                                       b: Config)
    requires forall line: string :: StatusIn(pv)(line) == Between(line, pre, stop)
    requires !Starts(pre, a) && stop !in code
    ensures Answer(pv, a + [pre + (code + ([stop] + rest))] + b) == Some(code)
  {
    BetweenReads(pre, code, stop, rest);
    FirstOfFramed(StatusIn(pv), a, pre + (code + ([stop] + rest)), b);
  }

  // ---------------------------------------------------------------------
  // nginx
  // ---------------------------------------------------------------------

  lemma {:induction false} NginxTopOther(id: string, names: seq<string>, k: Stub) returns (c: Config)
    ensures c == NginxHead(id, k) + [NameLine(Nginx, names)] && !Starts(NGINX_RETURN, c)
  {
    var title := id + " (stub " + Status(k) + ") — DO NOT EDIT";
    c := Other(NGINX_RETURN, [], "# managed by EpicPanel — website ", title, 0);
    c := OtherLine(NGINX_RETURN, c, "server {", 0);
    c := OtherLine(NGINX_RETURN, c, "\tlisten 80;", 1);
    assert c == NginxHead(id, k);
    c := Other(NGINX_RETURN, c, "\tserver_name ", Spaced(names) + ";", 1);
  }

  lemma {:induction false} NginxLogsOther(id: string) returns (c: Config)
    ensures c == NginxLogs(id) + [""] && !Starts(NGINX_RETURN, c)
  {
    c := OtherBlank(NGINX_RETURN, []);
    c := Other(NGINX_RETURN, c, "\tset $epicpanel_site_id ", "\"" + id + "\";", 1);
    c := Other(NGINX_RETURN, c, "\taccess_log ", BWLOG + " epicpanel_bandwidth;", 1);
    c := Other(NGINX_RETURN, c, "\taccess_log ", SITES + "/" + id + "/logs/nginx-access.log;", 1);
    c := Other(NGINX_RETURN, c, "\terror_log ", SITES + "/" + id + "/logs/nginx-error.log;", 1);
    assert c == NginxLogs(id);
    c := OtherBlank(NGINX_RETURN, c);
  }

  /** An nginx stub answers 410 for a terminated site and 503 for a suspended one. */
  lemma {:induction false} NginxAnswers(id: string, names: seq<string>, k: Stub)
    ensures Answer(Web(Nginx), NginxStub(id, names, k)) == Some(if k.Terminated? then "410" else "503")
  {
    var top := NginxTopOther(id, names, k);
    var logs := NginxLogsOther(id);
    OthersJoin(NGINX_RETURN, top, logs);
    var code := if k.Terminated? then "410" else "503";
    var ret := NginxReturn(k);
    var more := ret[2..] + NginxPage(id, k);
    FirstStatus(Web(Nginx), NGINX_RETURN, ';', top + logs, code, "", more);
    assert code + ([';'] + "") == code + ";";
    assert ret[1] == NGINX_RETURN + (code + ";") && ret == [""] + [ret[1]] + ret[2..];
    NginxParts(NginxHead(id, k) + [NameLine(Nginx, names)], NginxLogs(id), ret, NginxPage(id, k));
  }

  lemma {:induction false} NginxParts(top: Config, logs: Config, ret: Config, page: Config)
    requires |ret| >= 2 && ret[0] == ""
    ensures top + (logs + ret + page) == top + (logs + [""]) + [ret[1]] + (ret[2..] + page)
  {
  }

  /** It serves the page of its reason, keeps the site's name in the accounting and goes on logging. */
  lemma {:induction false} NginxServes(id: string, names: seq<string>, k: Stub)
    ensures var conf := NginxStub(id, names, k);
            && "\tlisten 80;" in conf && ("\tserver_name " + (Spaced(names) + ";")) in conf
            && ("\tset $epicpanel_site_id " + ("\"" + id + "\";")) in conf
            && ("\taccess_log " + ("/var/log/epicpanel/bandwidth.log" + " epicpanel_bandwidth;")) in conf
            && match k
               case Terminated =>
                 && ("\terror_page " + ("410" + " /" + "terminated.html" + ";")) in conf
                 && ("\t\troot " + ("/srv/epicpanel/default_pages" + ";")) in conf
               case Suspended(page) =>
                 var shown := if page == "" then "suspended.html" else page;
                 && ("\terror_page " + ("503" + " /" + shown + ";")) in conf
                 && (page == "bandwidth_exhausted.html" ==>
                       ("\t\troot " + ("/srv/epicpanel/websites" + "/" + id + "/pages" + ";")) in conf)
                 && (page != "bandwidth_exhausted.html" ==>
                       ("\t\troot " + ("/srv/epicpanel/default_pages" + ";")) in conf)
  {
    var head, logs, ret, page := NginxHead(id, k), NginxLogs(id), NginxReturn(k), NginxPage(id, k);
    var conf := NginxStub(id, names, k);
    assert conf[2] == head[2] && conf[3] == NameLine(Nginx, names);
    assert conf[5] == logs[1] && conf[6] == logs[2];
    assert conf[11] == ret[2] && conf[13] == page[0];
  }

  // ---------------------------------------------------------------------
  // Apache
  // ---------------------------------------------------------------------

  lemma {:induction false} ApacheTopOther(id: string, names: seq<string>, port: nat, root: string, k: Stub)
    returns (c: Config)
    ensures c == ApacheHead(id, port, k) + [NameLine(Apache, names)] + [DocRootLine(root)] && !Starts(APACHE_RULE, c)
  {
    c := Other(APACHE_RULE, [], "# managed by EpicPanel — website ", id + " (" + Kind(k) + ") — DO NOT EDIT", 0);
    c := Other(APACHE_RULE, c, "Listen ", "127.0.0.1:" + Decimal(port), 0);
    c := Other(APACHE_RULE, c, "<VirtualHost 127.0.0.1:", Decimal(port) + ">", 0);
    assert c == ApacheHead(id, port, k);
    c := Other(APACHE_RULE, c, "\tServerName ", Spaced(names), 1);
    c := Other(APACHE_RULE, c, "\tDocumentRoot ", root, 1);
  }

  lemma {:induction false} ApacheDirectoryOther(root: string) returns (c: Config)
    ensures c == ApacheDirectory(root) && !Starts(APACHE_RULE, c)
  {
    c := OtherBlank(APACHE_RULE, []);
    c := Other(APACHE_RULE, c, "\t<Directory ", root + ">", 1);
    c := OtherLine(APACHE_RULE, c, "\t\tOptions -Indexes", 2);
    c := OtherLine(APACHE_RULE, c, "\t\tRequire all granted", 4);
    c := OtherLine(APACHE_RULE, c, "\t</Directory>", 1);
    c := OtherBlank(APACHE_RULE, c);
    assert c == ApacheDirectory(root);
  }

  lemma {:induction false} ApacheModuleOther() returns (c: Config)
    ensures c == ["\t<IfModule mod_rewrite.c>", "\t\tRewriteEngine On"] && !Starts(APACHE_RULE, c)
  {
    c := OtherLine(APACHE_RULE, [], "\t<IfModule mod_rewrite.c>", 1);
    c := OtherLine(APACHE_RULE, c, "\t\tRewriteEngine On", 9);
  }

  /** An Apache stub answers 410 for a terminated site and 503 for a suspended one. */
  lemma {:induction false} ApacheAnswers(id: string, names: seq<string>, port: nat, root: string, k: Stub)
    ensures Answer(Web(Apache), ApacheStub(id, names, port, root, k)) == Some(if k.Terminated? then "410" else "503")
  {
    var top := ApacheTopOther(id, names, port, root, k);
    var dir := ApacheDirectoryOther(root);
    var mod := ApacheModuleOther();
    OthersJoin(APACHE_RULE, top, dir);
    OthersJoin(APACHE_RULE, top + dir, mod);
    var code := if k.Terminated? then "410" else "503";
    var rule := ApacheRewrite(id, k);
    var more := rule[3..] + ApacheLogs(id);
    FirstStatus(Web(Apache), APACHE_RULE, ',', top + dir + mod, code, "L]", more);
    assert code + ([','] + "L]") == code + ",L]";
    ApacheParts(ApacheHead(id, port, k) + [NameLine(Apache, names)], [DocRootLine(root)], dir, rule, ApacheLogs(id));
    assert rule[..2] == mod;
  }

  lemma {:induction false} ApacheParts(top: Config, root: Config, dir: Config, rule: Config, logs: Config)
    requires |rule| >= 3
    ensures top + (root + (dir + rule + logs)) == top + root + dir + rule[..2] + [rule[2]] + (rule[3..] + logs)
  {
    assert rule == rule[..2] + [rule[2]] + rule[3..];
  }

  /** It serves the page of its reason under the same status. */
  lemma {:induction false} ApacheServes(id: string, names: seq<string>, port: nat, root: string, k: Stub)
    ensures ("\tServerName " + Spaced(names)) in ApacheStub(id, names, port, root, k)
    ensures var conf := ApacheStub(id, names, port, root, k);
            match k
            case Terminated =>
              && ("\tErrorDocument " + ("410" + " /epicpanel_stub.html")) in conf
              && ("\tAlias /epicpanel_stub.html "
                  + ("/srv/epicpanel/default_pages" + "/" + "terminated.html")) in conf
            case Suspended(page) =>
              var shown := if page == "" then "suspended.html" else page;
              && ("\tErrorDocument " + ("503" + " /epicpanel_stub.html")) in conf
              && (page == "bandwidth_exhausted.html" ==>
                    ("\tAlias /epicpanel_stub.html "
                     + ("/srv/epicpanel/websites" + "/" + id + "/pages" + "/" + page)) in conf)
              && (page != "bandwidth_exhausted.html" ==>
                    ("\tAlias /epicpanel_stub.html " + ("/srv/epicpanel/default_pages" + "/" + shown)) in conf)
  {
    var rule := ApacheRewrite(id, k);
    var conf := ApacheStub(id, names, port, root, k);
    assert conf[3] == NameLine(Apache, names);
    assert conf[15] == rule[4] && conf[16] == rule[5];
  }

  // ---------------------------------------------------------------------
  // OpenLiteSpeed
  // ---------------------------------------------------------------------

  lemma {:induction false} OlsBodyOther() returns (c: Config)
    ensures c == OLS_BODY && !Starts(OLS_RULE, c)
  {
    c := OLS_BODY;
    assert c[0][0] == 'd' && c[1][0] == 'v' && c[2][0] == 'a' && c[3][0] == 'e' && c[4][0] == 'e' && c[5][0] == 'e';
    assert c[6][2] == 'u' && c[7][2] == 'l' && c[10][2] == 'u' && c[11][2] == 'r';
    assert c[8][0] == '}' && c[9][0] == 'a' && c[12][0] == '}' && c[13] == "";
    forall i | 0 <= i < |c|
      ensures !HasAt(c[i], 0, OLS_RULE)
    {
      if HasAt(c[i], 0, OLS_RULE) {
        OlsStart(c[i]);
      }
    }
  }

  lemma {:induction false} OlsStart(line: string)
    requires HasAt(line, 0, OLS_RULE)
    ensures |line| > 4 && line[0] == ' ' && line[2] == ' ' && line[4] == 'r'
  {
    assert line[0..|OLS_RULE|][0] == ' ' && line[0..|OLS_RULE|][2] == ' ' && line[0..|OLS_RULE|][4] == 'r';
  }

  lemma {:induction false} OlsPageOther(k: Stub, code: string) returns (c: Config)
    requires code == Status(k)
    ensures c == ["errorpage " + code + " {", "  url                     " + PAGES + "/" + Kind(k) + ".html", "}", ""]
    ensures !Starts(OLS_RULE, c)
  {
    c := Other(OLS_RULE, [], "errorpage ", code + " {", 0);
    c := Other(OLS_RULE, c, "  url                     ", PAGES + "/" + Kind(k) + ".html", 2);
    c := OtherLine(OLS_RULE, c, "}", 0);
    c := OtherBlank(OLS_RULE, c);
    Assoc("errorpage ", code, " {");
    assert "  url                     " + PAGES + "/" + Kind(k) + ".html"
           == "  url                     " + (PAGES + "/" + Kind(k) + ".html");
  }

  lemma {:induction false} OlsContextOther(note: string) returns (c: Config)
    requires note != "" && note[0] == '#'
    ensures c == [note, "context / {", "  location                $VH_ROOT", "  allowBrowse             0",
                  "  rewrite  {", "    enable                1"]
    ensures !Starts(OLS_RULE, c)
  {
    c := OtherLine(OLS_RULE, [], note, 0);
    c := OtherLine(OLS_RULE, c, "context / {", 0);
    c := OtherLine(OLS_RULE, c, "  location                $VH_ROOT", 2);
    c := OtherLine(OLS_RULE, c, "  allowBrowse             0", 2);
    c := OtherLine(OLS_RULE, c, "  rewrite  {", 2);
    c := OtherLine(OLS_RULE, c, "    enable                1", 4);
  }

  lemma {:induction false} OlsParts(title: string, body: Config, page: Config, context: Config, rule: string,
                                    tail: Config)
    requires |page| == 4 && |context| == 6 && |tail| == 2
    ensures [title] + body
            + [page[0], page[1], page[2], page[3], context[0], context[1], context[2], context[3], context[4],
               context[5], rule, tail[0], tail[1]]
            == [title] + body + page + context + [rule] + tail
  {
  }

  /** An OpenLiteSpeed stub answers 410 for a terminated site and 503 for a suspended one. */
  lemma {:induction false} OlsAnswers(id: string, k: Stub)
    ensures Answer(Ols, OlsStub(id, k)) == Some(if k.Terminated? then "410" else "503")
  {
    var code := if k.Terminated? then "410" else "503";
    var body := OlsBodyOther();
    var page := OlsPageOther(k, code);
    var conf := OlsStub(id, k);
    var context := OlsContextOther(OlsNote(k));
    var title := conf[0];
    var top := OtherLine(OLS_RULE, [], title, 0);
    assert top == [title];
    OthersJoin(OLS_RULE, [title], body);
    OthersJoin(OLS_RULE, [title] + body, page);
    OthersJoin(OLS_RULE, [title] + body + page, context);
    var tail: Config := ["  }", "}"];
    var last: Config := if k.Terminated? then [] else ["}"];
    var rule := OLS_RULE + (code + ([','] + "L]"));
    OlsRuleText(code);
    OlsParts(title, body, page, context, rule, tail);
    FirstStatus(Ols, OLS_RULE, ',', [title] + body + page + context, code, "L]", tail + last);
    Assoc([title] + body + page + context + [rule], tail, last);
  }

  lemma {:induction false} OlsRuleText(code: string)
    ensures "    rewriteRule  ^/.*$  -  [R=" + code + ",L]" == OLS_RULE + (code + ([','] + "L]"))
  {
    assert [','] + "L]" == ",L]";
    Assoc(OLS_RULE, code, ",L]");
  }

  /** It serves the generic page of its kind. */
  lemma {:induction false} OlsServes(id: string, k: Stub)
    ensures var conf := OlsStub(id, k);
            if k.Terminated? then
              && ("errorpage " + "410" + " {") in conf
              && ("  url                     " + "/srv/epicpanel/default_pages" + "/" + "terminated" + ".html") in conf
            else
              && ("errorpage " + "503" + " {") in conf
              && ("  url                     " + "/srv/epicpanel/default_pages" + "/" + "suspended" + ".html") in conf
  {
    var conf := OlsStub(id, k);
    assert conf[15] == "errorpage " + Status(k) + " {";
    assert conf[16] == "  url                     " + PAGES + "/" + Kind(k) + ".html";
  }

  // ---------------------------------------------------------------------
  // Every stub
  // ---------------------------------------------------------------------

  /** Whatever the server and the config it replaces, a stub answers the status of its own kind. */
  lemma {:induction false} StubAnswers(pv: Provider, id: string, conf: Config, k: Stub)
    requires StubFor(pv, id, conf, k).Some?
    ensures Answer(pv, StubFor(pv, id, conf, k).value) == Some(if k.Terminated? then "410" else "503")
  {
    match pv
    case Web(Nginx) => NginxAnswers(id, ParsedDomains(Nginx, conf), k);
    case Web(Apache) => ApacheAnswers(id, ParsedDomains(Apache, conf), ListenPort(conf), RootOf(id, conf), k);
    case Ols => OlsAnswers(id, k);
  }

  /** lifeSuspendedStubFor: only exhausted bandwidth has a page of its own. */
  function StubForReason(reason: string): Stub {
    if reason == "bandwidth_exhausted" then Suspended(BANDWIDTH_PAGE) else Suspended("")
  }

  /** After a suspension or a termination that did not fail, the site answers the status of its reason. */
  lemma {:induction false} SuspendedSiteAnswers(pv: Provider, id: string, f: Files, k: Stub, e: Env)
    requires Step(RendererOf(id), pv, f, Suspend(k), e).1 in {Unchanged, Changed}
    ensures var t := Step(RendererOf(id), pv, f, Suspend(k), e).0;
            t.conf.Some? && Answer(pv, t.conf.value) == Some(if k.Terminated? then "410" else "503")
  {
    SuspendShows(RendererOf(id), pv, f, k, e);
    StubAnswers(pv, id, f.conf.value, k);
  }

  /** A suspension answers 503 whatever its reason; its page is the site's own for exhausted bandwidth. */
  lemma {:induction false} ReasonAnswers(id: string, f: Files, reason: string, e: Env)
    requires Step(RendererOf(id), Web(Nginx), f, Suspend(StubForReason(reason)), e).1 in {Unchanged, Changed}
    ensures var t := Step(RendererOf(id), Web(Nginx), f, Suspend(StubForReason(reason)), e).0;
            && t.conf.Some? && Answer(Web(Nginx), t.conf.value) == Some("503")
            && ("\t\troot " + ((if reason == "bandwidth_exhausted" then "/srv/epicpanel/websites" + "/" + id + "/pages"
                                else "/srv/epicpanel/default_pages") + ";")) in t.conf.value
  {
    var k := StubForReason(reason);
    SuspendedSiteAnswers(Web(Nginx), id, f, k, e);
    SuspendShows(RendererOf(id), Web(Nginx), f, k, e);
    NginxServes(id, ParsedDomains(Nginx, f.conf.value), k);
  }
}
