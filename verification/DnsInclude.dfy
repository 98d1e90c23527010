/**
 The BIND include file as text: zone declarations are printed in name order
 and read back with two regular expressions.
 */
module DnsInclude {
  import opened Common
  import opened Text

  datatype Decl = Decl(name: string, file: string)

  // ---------------------------------------------------------------------
  // Reading declarations
  // ---------------------------------------------------------------------

  /** A match: where it ends, the quoted name and the text between the braces. */
  datatype Match = Match(end: nat, name: string, body: string)

  /** A quoted nonempty string at `i`: the position after it and its content. */
  function Quoted(s: string, i: nat): Option<(nat, string)> {
    if i >= |s| || s[i] != '"' then None
    else
      var c := IndexFrom(s, '"', i + 1);
      if c == |s| || c == i + 1 then None else Some((c + 1, s[i + 1..c]))
  }

  /** `key`, spaces, a quoted string: the position after it and its content. */
  function Keyed(s: string, i: nat, key: string): Option<(nat, string)> {
    if !HasAt(s, i, key) then None
    else
      var b := SkipBlanks(s, i + |key|);
      if b == i + |key| then None else Quoted(s, b)
  }

  /** An opening brace at `d`, no closing one before the brace and semicolon that end it. */
  function BraceAt(s: string, d: nat, name: string): Option<Match> {
    if d >= |s| || s[d] != '{' then None
    else
      var e := IndexFrom(s, '}', d + 1);
      if e + 1 >= |s| || s[e + 1] != ';' then None
      else Some(Match(e + 2, name, s[d + 1..e]))
  }

  /** The zone expression at `i`; its body ends at the first closing brace. */
  function ZoneAt(s: string, i: nat): Option<Match> {
    match Keyed(s, i, "zone")
    case None => None
    case Some((c, name)) => if c > |s| then None else BraceAt(s, SkipBlanks(s, c), name)
  }

  /** The file expression at `i`. */
  function FileAt(s: string, i: nat): Option<string> {
    match Keyed(s, i, "file")
    case None => None
    case Some((c, f)) =>
      if c > |s| then None
      else
        var d := SkipBlanks(s, c);
        if d == |s| || s[d] != ';' then None else Some(f)
  }

  // ---------------------------------------------------------------------
  // What the two expressions match
  // ---------------------------------------------------------------------

  predicate Blanks(s: string) {
    forall i :: 0 <= i < |s| ==> IsBlank(s[i])
  }

  /** A keyword, blanks and a quoted name. */
  predicate KeyedForm(t: string, key: string, gap: string, name: string) {
    && t == key + gap + ("\"" + name + "\"")
    && gap != "" && Blanks(gap) && name != "" && '"' !in name
  }

  /** A zone's keyword and name, and its body in braces. */
  predicate ZoneForm(t: string, gap: string, skip: string, m: Match) {
    && t == ("zone" + gap + ("\"" + m.name + "\"")) + skip + ("{" + m.body + "};")
    && gap != "" && Blanks(gap) && m.name != "" && '"' !in m.name
    && Blanks(skip) && '}' !in m.body
  }

  /** A file's keyword and path, ended by a semicolon. */
  predicate FileForm(t: string, gap: string, skip: string, file: string) {
    && t == ("file" + gap + ("\"" + file + "\"")) + skip + ";"
    && gap != "" && Blanks(gap) && file != "" && '"' !in file
    && Blanks(skip)
  }

  lemma {:induction false} Slice(s: string, i: nat, c: nat, a: string, b: string)
    requires i <= c <= |s| && s[i..c] == a + b
    ensures i + |a| <= c && s[i..i + |a|] == a && s[i + |a|..c] == b
  {
    var t := s[i..c];
    assert t[..|a|] == a && t[|a|..] == b;
  }

  lemma {:induction false} Glue(s: string, i: nat, d: nat, c: nat)
    requires i <= d <= c <= |s|
    ensures s[i..c] == s[i..d] + s[d..c]
  {
  }

  lemma {:induction false} IndexAt(s: string, c: char, i: nat, k: nat)
    requires i <= k < |s| && s[k] == c && c !in s[i..k]
    ensures IndexFrom(s, c, i) == k
  {
    assert forall j :: i <= j < k ==> s[j] == s[i..k][j - i];
  }

  lemma {:induction false} IndexAvoids(s: string, c: char, i: nat)
    requires i <= |s|
    ensures c !in s[i..IndexFrom(s, c, i)]
  {
  }

  lemma {:induction false} BlanksTo(s: string, i: nat, k: nat)
    requires i <= k < |s| && !IsBlank(s[k])
    ensures SkipBlanks(s, i) == k <==> Blanks(s[i..k])
  {
    assert forall j :: i <= j < k ==> s[j] == s[i..k][j - i];
  }

  lemma {:induction false} BlanksSkipped(s: string, i: nat)
    requires i <= |s|
    ensures Blanks(s[i..SkipBlanks(s, i)])
  {
  }

  lemma {:induction false} QuotedForm(s: string, i: nat, c: nat, x: string)
    requires i <= |s| && Quoted(s, i) == Some((c, x))
    ensures i <= c <= |s| && s[i..c] == "\"" + x + "\"" && x != "" && '"' !in x
  {
    IndexAvoids(s, '"', i + 1);
    Glue(s, i, i + 1, c);
    Glue(s, i + 1, c - 1, c);
    assert s[i..i + 1] == "\"" && s[c - 1..c] == "\"";
  }

  lemma {:induction false} FormQuoted(s: string, i: nat, c: nat, x: string)
    requires i <= c <= |s| && s[i..c] == "\"" + x + "\"" && x != "" && '"' !in x
    ensures Quoted(s, i) == Some((c, x))
  {
    Slice(s, i, c, "\"" + x, "\"");
    Slice(s, i, c - 1, "\"", x);
    assert s[i] == s[i..i + 1][0] && s[c - 1] == s[c - 1..c][0];
    IndexAt(s, '"', i + 1, c - 1);
  }

  lemma {:induction false} QuotedIff(s: string, i: nat, c: nat, x: string)
    requires i <= |s|
    ensures Quoted(s, i) == Some((c, x)) <==>
            i <= c <= |s| && s[i..c] == "\"" + x + "\"" && x != "" && '"' !in x
  {
    if Quoted(s, i) == Some((c, x)) { QuotedForm(s, i, c, x); }
    if i <= c <= |s| && s[i..c] == "\"" + x + "\"" && x != "" && '"' !in x { FormQuoted(s, i, c, x); }
  }

  lemma {:induction false} KeyedIff(s: string, i: nat, key: string, c: nat, x: string)
    requires i <= |s|
    ensures Keyed(s, i, key) == Some((c, x)) <==>
            i <= c <= |s| && exists gap :: KeyedForm(s[i..c], key, gap, x)
  {
    var a := i + |key|;
    if Keyed(s, i, key) == Some((c, x)) {
      var b := SkipBlanks(s, a);
      QuotedIff(s, b, c, x);
      BlanksSkipped(s, a);
      Glue(s, i, a, b);
      Glue(s, i, b, c);
      assert KeyedForm(s[i..c], key, s[a..b], x);
    }
    if i <= c <= |s| && exists gap :: KeyedForm(s[i..c], key, gap, x) {
      var gap :| KeyedForm(s[i..c], key, gap, x);
      Slice(s, i, c, key + gap, "\"" + x + "\"");
      Slice(s, i, a + |gap|, key, gap);
      QuotedIff(s, a + |gap|, c, x);
      BlanksTo(s, a, a + |gap|);
    }
  }

  lemma {:induction false} BraceIff(s: string, d: nat, name: string, m: Match)
    requires d <= |s|
    ensures BraceAt(s, d, name) == Some(m) <==>
            m.name == name && d <= m.end <= |s| && s[d..m.end] == "{" + m.body + "};" && '}' !in m.body
  {
    if BraceAt(s, d, name) == Some(m) {
      IndexAvoids(s, '}', d + 1);
      assert s[d..m.end] == "{" + m.body + "};";
    }
    if d <= m.end <= |s| && s[d..m.end] == "{" + m.body + "};" && '}' !in m.body {
      var e := m.end - 2;
      assert "{" + m.body + "};" == ("{" + m.body) + "};";
      Slice(s, d, m.end, "{" + m.body, "};");
      Slice(s, d, e, "{", m.body);
      assert s[d] == s[d..d + 1][0] && s[e] == s[e..m.end][0] && s[e + 1] == s[e..m.end][1];
      IndexAt(s, '}', d + 1, e);
    }
  }

  lemma {:induction false} ZoneFormOf(s: string, i: nat, m: Match) returns (gap: string, skip: string)
    requires i <= |s| && ZoneAt(s, i) == Some(m)
    ensures i <= m.end <= |s| && ZoneForm(s[i..m.end], gap, skip, m)
  {
    var (c, name) := Keyed(s, i, "zone").value;
    var d := SkipBlanks(s, c);
    KeyedIff(s, i, "zone", c, name);
    BraceIff(s, d, name, m);
    gap :| KeyedForm(s[i..c], "zone", gap, name);
    skip := s[c..d];
    BlanksSkipped(s, c);
    Glue(s, i, c, d);
    Glue(s, i, d, m.end);
  }

  lemma {:induction false} FormIsZone(s: string, i: nat, m: Match, gap: string, skip: string)
    requires i <= m.end <= |s| && ZoneForm(s[i..m.end], gap, skip, m)
    ensures ZoneAt(s, i) == Some(m)
  {
    var head := "zone" + gap + ("\"" + m.name + "\"");
    var c, d := i + |head|, i + |head| + |skip|;
    Slice(s, i, m.end, head + skip, "{" + m.body + "};");
    Slice(s, i, d, head, skip);
    assert KeyedForm(s[i..c], "zone", gap, m.name);
    KeyedIff(s, i, "zone", c, m.name);
    BraceIff(s, d, m.name, m);
    BlanksTo(s, c, d);
  }

  /** What is read as a zone is exactly a text of its form: keyword, blanks, name, braces around a body without one. */
  lemma {:induction false} ZoneAtIff(s: string, i: nat, m: Match)
    requires i <= |s|
    ensures ZoneAt(s, i) == Some(m) <==> i <= m.end <= |s| && exists gap, skip :: ZoneForm(s[i..m.end], gap, skip, m)
  {
    if ZoneAt(s, i) == Some(m) {
      var gap, skip := ZoneFormOf(s, i, m);
    }
    if i <= m.end <= |s| && exists gap, skip :: ZoneForm(s[i..m.end], gap, skip, m) {
      var gap, skip :| ZoneForm(s[i..m.end], gap, skip, m);
      FormIsZone(s, i, m, gap, skip);
    }
  }

  /** What is read as a zone's file is exactly a text of its form. */
  lemma {:induction false} FileAtIff(s: string, i: nat, file: string)
    requires i <= |s|
    ensures FileAt(s, i) == Some(file) <==>
            exists e, gap, skip :: i <= e <= |s| && FileForm(s[i..e], gap, skip, file)
  {
    if FileAt(s, i) == Some(file) {
      var c := Keyed(s, i, "file").value.0;
      var d := SkipBlanks(s, c);
      KeyedIff(s, i, "file", c, file);
      var gap :| KeyedForm(s[i..c], "file", gap, file);
      BlanksSkipped(s, c);
      Glue(s, i, c, d);
      Glue(s, i, d, d + 1);
      assert s[d..d + 1] == ";";
      assert FileForm(s[i..d + 1], gap, s[c..d], file);
    }
    if e, gap, skip :| i <= e <= |s| && FileForm(s[i..e], gap, skip, file) {
      var head := "file" + gap + ("\"" + file + "\"");
      var c, d := i + |head|, i + |head| + |skip|;
      Slice(s, i, e, head + skip, ";");
      Slice(s, i, d, head, skip);
      assert s[d] == s[d..e][0];
      assert KeyedForm(s[i..c], "file", gap, file);
      KeyedIff(s, i, "file", c, file);
      BlanksTo(s, c, d);
    }
  }

  // ---------------------------------------------------------------------
  // All matches
  // ---------------------------------------------------------------------

  type Finder = (string, nat) -> Option<string>
  type Matcher = (string, nat) -> Option<Match>

  /** Leftmost match from `i` on. */
  function First(at: Finder, s: string, i: nat): Option<string>
    requires i <= |s|
    decreases |s| - i
  {
    if at(s, i).Some? then at(s, i)
    else if i == |s| then None
    else First(at, s, i + 1)
  }

  /** Leftmost, non-overlapping matches from `i` on. */
  function Scan(at: Matcher, s: string, i: nat): seq<Match>
    requires i <= |s|
    decreases |s| - i
  {
    var m := at(s, i);
    if m.Some? && i < m.value.end <= |s| then [m.value] + Scan(at, s, m.value.end)
    else if i == |s| then []
    else Scan(at, s, i + 1)
  }

  function FileIn(body: string): Option<string> {
    First(FileAt, body, 0)
  }

  type BodyReader = string -> Option<string>

  /** The declarations among the matches: those whose body has a file. */
  function Decls(file: BodyReader, ms: seq<Match>): seq<Decl> {
    if ms == [] then []
    else
      var m := ms[|ms| - 1];
      Decls(file, ms[..|ms| - 1]) + (if file(m.body).Some? then [Decl(m.name, file(m.body).value)] else [])
  }

  /** parseDNSZoneDeclarations. */
  function Parsed(content: string): seq<Decl> {
    Decls(FileIn, Scan(ZoneAt, content, 0))
  }

  method CollectDecls(file: BodyReader, ms: seq<Match>) returns (out: seq<Decl>)
    ensures out == Decls(file, ms)
  {
    out := [];
    for i := 0 to |ms|
      invariant out == Decls(file, ms[..i])
    {
      assert ms[..i + 1][..i] == ms[..i];
      var f := file(ms[i].body);
      if f.None? {
        continue;
      }
      out := out + [Decl(ms[i].name, f.value)];
    }
    assert ms[..|ms|] == ms;
  }

  method ParseDeclarations(content: string) returns (out: seq<Decl>)
    ensures out == Parsed(content)
  {
    var ms := Scan(ZoneAt, content, 0);
    out := CollectDecls(FileIn, ms);
  }

  // ---------------------------------------------------------------------
  // Printing declarations
  // ---------------------------------------------------------------------

  /** Printable ASCII that quoting leaves alone and that fits between quotes and braces. */
  predicate Plain(s: string) {
    s != "" && forall i :: 0 <= i < |s| ==> s[i] != '"' && s[i] != '\\' && s[i] != '}' && ' ' <= s[i] <= '~'
  }

  function HexDigit(d: nat): char
    requires d < 16
  {
    "0123456789abcdef"[d]
  }

  function EscapeChar(c: char): string {
    if c == '"' || c == '\\' then ['\\', c]
    else if c == '\n' then "\\n"
    else if c == '\t' then "\\t"
    else if c == '\r' then "\\r"
    else if c == '\U{0007}' then "\\a"
    else if c == '\U{0008}' then "\\b"
    else if c == '\U{000B}' then "\\v"
    else if c == '\U{000C}' then "\\f"
    else if c < ' ' || c == '\U{007F}' then "\\x" + [HexDigit(c as int / 16), HexDigit(c as int % 16)]
    else [c]
  }

  /** What a quoting format verb puts between the quotes. */
  function Escape(s: string): string {
    if s == "" then "" else EscapeChar(s[0]) + Escape(s[1..])
  }

  lemma {:induction false} PlainUnescaped(s: string)
    requires s == "" || Plain(s)
    ensures Escape(s) == s
    decreases |s|
  {
    if s != "" {
      PlainUnescaped(s[1..]);
      assert s == [s[0]] + s[1..];
    }
  }

  const TYPE := "\n\ttype master;\n\t"
  const QUERY := ";\n\tallow-query { any; "
  const CLOSE := "\n};\n"

  /** The text between the opening brace and the first closing one. */
  function BodyText(file: string): string {
    TYPE + ("file" + (" " + ("\"" + (Escape(file) + ("\"" + QUERY)))))
  }

  /** A zone block and what follows it. */
  function ZoneText(name: string, body: string, post: string): string {
    "zone" + (" " + ("\"" + (name + ("\"" + (" {" + (body + ("};" + post)))))))
  }

  /** One declaration followed by `rest`. */
  function DeclThen(d: Decl, rest: string): string {
    ZoneText(Escape(d.name), BodyText(d.file), CLOSE + rest)
  }

  function DeclsText(ds: seq<Decl>): string {
    if ds == [] then "" else DeclThen(ds[0], DeclsText(ds[1..]))
  }

  const TITLE := "// managed by EpicPanel " + "- do not edit\n"

  function IncludeText(ds: seq<Decl>): string {
    TITLE + DeclsText(ds)
  }

  lemma {:induction false} Assoc6(a: string, b: string, c: string, d: string, e: string, f: string)
    ensures a + (b + (c + (d + (e + f)))) == a + b + c + d + e + f
  {
  }

  /** A declaration is a master zone open to all queries, its name and file in quotes. */
  lemma {:induction false} DeclPrinted(d: Decl, rest: string)
    requires PlainDecl(d)
    ensures DeclThen(d, rest) ==
            "zone \"" + d.name + "\" {\n\ttype master;\n\tfile \"" + d.file
            + "\";\n\tallow-query { any; };\n};\n" + rest
  {
    PlainUnescaped(d.name);
    PlainUnescaped(d.file);
    Assoc6("zone \"", d.name, "\" {\n\ttype master;\n\tfile \"", d.file, "\";\n\tallow-query { any; };\n};\n", rest);
    BodyPrinted(d.file, rest);
    HeadPrinted(d.name, BodyText(d.file) + ("};" + (CLOSE + rest)));
  }

  lemma {:induction false} HeadPrinted(name: string, t: string)
    ensures "zone" + (" " + ("\"" + (name + ("\"" + (" {" + t))))) == "zone \"" + (name + ("\" {" + t))
  {
  }

  lemma {:induction false} BodyPrinted(file: string, rest: string)
    requires Plain(file)
    ensures "\" {" + (BodyText(file) + ("};" + (CLOSE + rest))) ==
            "\" {\n\ttype master;\n\tfile \"" + (file + ("\";\n\tallow-query { any; };\n};\n" + rest))
  {
    PlainUnescaped(file);
    Around("\" {", TYPE, "file", " ", "\"", file, QUERY, "};", CLOSE, rest);
    BeforeFile();
    AfterFile();
  }

  lemma {:induction false} Around(a: string, b: string, c: string, d: string, q: string, f: string, g: string,
                                  h: string, i: string, rest: string)
    ensures a + ((b + (c + (d + (q + (f + (q + g)))))) + (h + (i + rest)))
            == (a + b + c + d + q) + (f + ((q + g + h + i) + rest))
  {
  }

  lemma {:induction false} BeforeFile()
    ensures "\" {" + TYPE + "file" + " " + "\"" == "\" {\n\ttype master;\n\tfile \""
  {
  }

  lemma {:induction false} AfterFile()
    ensures "\"" + QUERY + "};" + CLOSE == "\";\n\tallow-query { any; };\n};\n"
  {
  }

  // ---------------------------------------------------------------------
  // Reading back what was printed
  // ---------------------------------------------------------------------

  lemma {:induction false} IndexOver(s: string, pre: string, mid: string, c: char, post: string)
    requires c !in mid && s == pre + (mid + ([c] + post))
    ensures IndexFrom(s, c, |pre|) == |pre| + |mid| < |s|
    ensures s[|pre|..|pre| + |mid|] == mid && s[|pre| + |mid| + 1..] == post
  {
    assert s[|pre| + |mid|] == c;
    assert forall j :: |pre| <= j < |pre| + |mid| ==> s[j] == mid[j - |pre|];
    assert s[|pre|..|pre| + |mid|] == mid;
  }

  lemma {:induction false} QuotedReads(s: string, pre: string, x: string, post: string)
    requires x != "" && '"' !in x && s == pre + ("\"" + (x + ("\"" + post)))
    ensures var c := |pre| + |x| + 2; c <= |s| && Quoted(s, |pre|) == Some((c, x)) && s[c..] == post
  {
    assert s == (pre + "\"") + (x + (['"'] + post));
    IndexOver(s, pre + "\"", x, '"', post);
    assert s[|pre|] == '"';
  }

  lemma {:induction false} KeySpace(s: string, pre: string, key: string, t: string)
    requires t != "" && !IsBlank(t[0]) && s == pre + (key + (" " + t))
    ensures HasAt(s, |pre|, key) && SkipBlanks(s, |pre| + |key|) == |pre| + |key| + 1 <= |s|
    ensures s == (pre + key + " ") + t
  {
    assert s[|pre|..|pre| + |key|] == key;
    assert s[|pre| + |key|] == ' ' && s[|pre| + |key| + 1] == t[0];
  }

  /** A keyword, one space and a quoted string without quotes. */
  lemma {:induction false} KeyedReads(s: string, pre: string, key: string, x: string, post: string)
    requires x != "" && '"' !in x && s == pre + (key + (" " + ("\"" + (x + ("\"" + post)))))
    ensures var c := |pre| + |key| + |x| + 3;
            c <= |s| && Keyed(s, |pre|, key) == Some((c, x)) && s[c..] == post
  {
    KeySpace(s, pre, key, "\"" + (x + ("\"" + post)));
    QuotedReads(s, pre + key + " ", x, post);
  }

  lemma {:induction false} ZoneKeyed(s: string, pre: string, key: string, x: string, tail: string) returns (c: nat)
    requires x != "" && '"' !in x && s == pre + (key + (" " + ("\"" + (x + ("\"" + tail)))))
    ensures c == |pre| + |key| + |x| + 3 <= |s| && Keyed(s, |pre|, key) == Some((c, x)) && s[c..] == tail
  {
    KeyedReads(s, pre, key, x, tail);
    c := |pre| + |key| + |x| + 3;
  }

  lemma {:induction false} BraceSlices(s: string, c: nat, body: string, post: string)
    requires c <= |s| && s[c..] == " {" + (body + ("};" + post))
    ensures c + |body| + 4 <= |s| && s[c] == ' ' && s[c + 1] == '{'
    ensures s == (s[..c] + " {") + (body + (['}'] + (";" + post)))
    ensures |s[..c] + " {"| == c + 2
  {
    var t := s[c..];
    assert s == s[..c] + t;
    assert s[c] == t[0] && s[c + 1] == t[1];
  }

  /** The brace block between two known positions. */
  lemma {:induction false} BraceFrom(s: string, d: nat, e: nat, name: string, body: string, post: string)
    requires d < e && e + 1 < |s| && s[d] == '{' && IndexFrom(s, '}', d + 1) == e && s[d + 1..e] == body
    requires s[e + 1..] == ";" + post
    ensures BraceAt(s, d, name) == Some(Match(e + 2, name, body)) && s[e + 2..] == post
  {
    var t := s[e + 1..];
    assert s[e + 1] == t[0];
    assert s[e + 2..] == t[1..];
  }

  lemma {:induction false} BraceReads(s: string, c: nat, name: string, body: string, post: string)
    requires c <= |s| && s[c..] == " {" + (body + ("};" + post)) && '}' !in body
    ensures var end := c + |body| + 4;
            && SkipBlanks(s, c) == c + 1 && end <= |s| && s[end..] == post
            && BraceAt(s, c + 1, name) == Some(Match(end, name, body))
  {
    BraceSlices(s, c, body, post);
    IndexOver(s, s[..c] + " {", body, '}', ";" + post);
    BraceFrom(s, c + 1, c + 2 + |body|, name, body, post);
    OneSpace(s, c);
  }

  lemma {:induction false} OneSpace(s: string, c: nat)
    requires c + 1 < |s| && s[c] == ' ' && !IsBlank(s[c + 1])
    ensures SkipBlanks(s, c) == c + 1
  {
    assert SkipBlanks(s, c + 1) == c + 1;
  }

  lemma {:induction false} ZoneFrom(s: string, i: nat, c: nat, d: nat, x: string, m: Match)
    requires Keyed(s, i, "zone") == Some((c, x)) && c <= |s| && SkipBlanks(s, c) == d && BraceAt(s, d, x) == Some(m)
    ensures ZoneAt(s, i) == Some(m)
  {
  }

  lemma {:induction false} ZoneTail(s: string, pre: string, x: string, body: string, post: string) returns (c: nat)
    requires x != "" && '"' !in x && s == pre + ZoneText(x, body, post)
    ensures |pre| < c <= |s| && Keyed(s, |pre|, "zone") == Some((c, x)) && s[c..] == " {" + (body + ("};" + post))
  {
    c := ZoneKeyed(s, pre, "zone", x, " {" + (body + ("};" + post)));
  }

  lemma {:induction false} ZoneAfter(s: string, i: nat, c: nat, x: string, body: string, post: string)
    returns (end: nat)
    requires Keyed(s, i, "zone") == Some((c, x)) && c <= |s|
    requires s[c..] == " {" + (body + ("};" + post)) && '}' !in body
    ensures c < end <= |s| && s[end..] == post && ZoneAt(s, i) == Some(Match(end, x, body))
  {
    end := c + |body| + 4;
    BraceReads(s, c, x, body, post);
    ZoneFrom(s, i, c, c + 1, x, Match(end, x, body));
  }

  /** A printed zone is matched up to the first closing brace. */
  lemma {:induction false} ZoneReads(s: string, pre: string, x: string, body: string, post: string)
    returns (end: nat)
    requires x != "" && '"' !in x && '}' !in body && s == pre + ZoneText(x, body, post)
    ensures |pre| < end <= |s| && s[end..] == post
    ensures ZoneAt(s, |pre|) == Some(Match(end, x, body))
  {
    var c := ZoneTail(s, pre, x, body, post);
    end := ZoneAfter(s, |pre|, c, x, body, post);
  }

  lemma {:induction false} NotHere(s: string, i: nat, key: string)
    requires i < |s| && key != "" && s[i] != key[0]
    ensures !HasAt(s, i, key)
  {
    assert i + |key| <= |s| ==> s[i..i + |key|][0] == s[i];
  }

  lemma {:induction false} ScanSkips(at: Matcher, s: string, i: nat, n: nat)
    requires i + n <= |s| && forall j :: i <= j < i + n ==> at(s, j) == None
    ensures Scan(at, s, i) == Scan(at, s, i + n)
    decreases n
  {
    if n > 0 { ScanSkips(at, s, i + 1, n - 1); }
  }

  lemma {:induction false} FirstSkips(at: Finder, s: string, i: nat, n: nat)
    requires i + n <= |s| && forall j :: i <= j < i + n ==> at(s, j) == None
    ensures First(at, s, i) == First(at, s, i + n)
    decreases n
  {
    if n > 0 { FirstSkips(at, s, i + 1, n - 1); }
  }

  /** Every match starts with `c`. */
  ghost predicate StartsWith(at: Matcher, s: string, c: char) {
    forall j :: 0 <= j < |s| && s[j] != c ==> at(s, j) == None
  }

  lemma {:induction false} ZonesStart(s: string)
    ensures StartsWith(ZoneAt, s, 'z')
  {
    forall j | 0 <= j < |s| && s[j] != 'z'
      ensures ZoneAt(s, j) == None
    {
      NotHere(s, j, "zone");
    }
  }

  /** Where no `c` stands, nothing is found. */
  lemma {:induction false} NoZone(at: Matcher, c: char, s: string, i: nat, n: nat)
    requires StartsWith(at, s, c) && i + n <= |s| && c !in s[i..i + n]
    ensures Scan(at, s, i) == Scan(at, s, i + n)
  {
    assert forall j :: i <= j < i + n ==> s[j] == s[i..i + n][j - i];
    ScanSkips(at, s, i, n);
  }

  lemma {:induction false} NoZoneBefore(s: string, pre: string, rest: string)
    requires s == pre + rest && 'z' !in pre
    ensures Scan(ZoneAt, s, 0) == Scan(ZoneAt, s, |pre|)
  {
    assert s[0..|pre|] == pre;
    ZonesStart(s);
    NoZone(ZoneAt, 'z', s, 0, |pre|);
  }

  lemma {:induction false} TypeText()
    ensures 'f' !in TYPE && '}' !in TYPE
  {
  }

  lemma {:induction false} QueryText()
    ensures '}' !in QUERY && QUERY != "" && QUERY[0] == ';'
  {
  }

  lemma {:induction false} FileReads(s: string, pre: string, file: string, post: string)
    requires file != "" && '"' !in file && post != "" && post[0] == ';'
    requires s == pre + ("file" + (" " + ("\"" + (file + ("\"" + post)))))
    ensures FileAt(s, |pre|) == Some(file)
  {
    KeyedReads(s, pre, "file", file, post);
    var c := |pre| + 4 + |file| + 3;
    assert s[c] == s[c..][0] == ';';
    assert SkipBlanks(s, c) == c;
  }

  lemma {:induction false} FirstFileReads(s: string, pre: string, file: string, post: string)
    requires file != "" && '"' !in file && post != "" && post[0] == ';' && 'f' !in pre
    requires s == pre + ("file" + (" " + ("\"" + (file + ("\"" + post)))))
    ensures First(FileAt, s, 0) == Some(file)
  {
    forall j | 0 <= j < |pre|
      ensures FileAt(s, j) == None
    {
      assert s[j] == pre[j];
      NotHere(s, j, "file");
    }
    FirstSkips(FileAt, s, 0, |pre|);
    FileReads(s, pre, file, post);
  }

  lemma {:induction false} NoBrace(pre: string, file: string, post: string)
    requires '}' !in pre && '}' !in file && '}' !in post
    ensures '}' !in pre + ("file" + (" " + ("\"" + (file + ("\"" + post)))))
  {
  }

  /** The body of a printed declaration yields its file. */
  lemma {:induction false} BodyFile(file: string)
    requires Plain(file)
    ensures FileIn(BodyText(file)) == Some(file) && '}' !in BodyText(file)
  {
    PlainUnescaped(file);
    TypeText();
    QueryText();
    FirstFileReads(BodyText(file), TYPE, file, QUERY);
    NoBrace(TYPE, file, QUERY);
  }

  predicate PlainDecl(d: Decl) {
    Plain(d.name) && Plain(d.file)
  }

  lemma {:induction false} DeclsCons(file: BodyReader, m: Match, ms: seq<Match>, f: string)
    requires file(m.body) == Some(f)
    ensures Decls(file, [m] + ms) == [Decl(m.name, f)] + Decls(file, ms)
    decreases |ms|
  {
    if ms == [] {
      assert [m] + ms == [m] && [m][..0] == [];
    } else {
      var n := |ms| - 1;
      DeclsCons(file, m, ms[..n], f);
      assert ([m] + ms)[..|ms|] == [m] + ms[..n];
    }
  }

  lemma {:induction false} ScanHit(at: Matcher, s: string, i: nat, m: Match)
    requires i < m.end <= |s| && at(s, i) == Some(m)
    ensures Scan(at, s, i) == [m] + Scan(at, s, m.end)
  {
  }

  /** A printed zone is one match, and the scan goes on behind it. */
  lemma {:induction false} ZoneScanned(s: string, pre: string, x: string, body: string, post: string) returns (end: nat)
    requires x != "" && '"' !in x && '}' !in body
    requires s == pre + ZoneText(x, body, post)
    ensures |pre| < end <= |s| && s[end..] == post
    ensures Scan(ZoneAt, s, |pre|) == [Match(end, x, body)] + Scan(ZoneAt, s, end)
  {
    end := ZoneReads(s, pre, x, body, post);
    ScanHit(ZoneAt, s, |pre|, Match(end, x, body));
  }

  lemma {:induction false} TailParts(s: string, i: nat, a: string, b: string)
    requires i <= |s| && s[i..] == a + b
    ensures i + |a| + |b| == |s| && s == s[..i + |a|] + b && s[i..i + |a|] == a
  {
    assert s[i..|s|] == s[i..];
    Slice(s, i, |s|, a, b);
    SplitAt(s, i + |a|);
  }

  /** Nothing is found in the lines that close a declaration. */
  lemma {:induction false} ClosePassed(at: Matcher, c: char, s: string, end: nat, close: string, rest: string)
    returns (pre': string)
    requires StartsWith(at, s, c) && end <= |s| && s[end..] == close + rest && c !in close
    ensures s == pre' + rest && Scan(at, s, end) == Scan(at, s, |pre'|)
  {
    TailParts(s, end, close, rest);
    NoZone(at, c, s, end, |close|);
    pre' := s[..end + |close|];
  }

  lemma {:induction false} ZonePassed(s: string, pre: string, x: string, body: string, post: string, close: string,
                                      rest: string)
    returns (end: nat, pre': string)
    requires x != "" && '"' !in x && '}' !in body && 'z' !in close && post == close + rest
    requires s == pre + ZoneText(x, body, post)
    ensures s == pre' + rest
    ensures Scan(ZoneAt, s, |pre|) == [Match(end, x, body)] + Scan(ZoneAt, s, |pre'|)
  {
    end := ZoneScanned(s, pre, x, body, post);
    ZonesStart(s);
    pre' := ClosePassed(ZoneAt, 'z', s, end, close, rest);
  }

  lemma {:induction false} CloseText()
    ensures 'z' !in CLOSE
  {
  }

  /** One printed declaration: one match, then on after its closing lines. */
  lemma {:induction false} DeclMatches(s: string, pre: string, d: Decl, rest: string) returns (end: nat, pre': string)
    requires PlainDecl(d) && s == pre + DeclThen(d, rest)
    ensures s == pre' + rest
    ensures Scan(ZoneAt, s, |pre|) == [Match(end, d.name, BodyText(d.file))] + Scan(ZoneAt, s, |pre'|)
  {
    BodyFile(d.file);
    PlainUnescaped(d.name);
    CloseText();
    end, pre' := ZonePassed(s, pre, d.name, BodyText(d.file), CLOSE + rest, CLOSE, rest);
  }

  lemma {:induction false} EndOfText(s: string, pre: string)
    requires s == pre + ""
    ensures Scan(ZoneAt, s, |pre|) == []
  {
    assert |s| == |pre|;
    assert ZoneAt(s, |s|) == None;
  }

  lemma {:induction false} DeclsReadBack(s: string, pre: string, ds: seq<Decl>)
    requires (forall d :: d in ds ==> PlainDecl(d)) && s == pre + DeclsText(ds)
    ensures Decls(FileIn, Scan(ZoneAt, s, |pre|)) == ds
    decreases |ds|
  {
    if ds == [] {
      EndOfText(s, pre);
    } else {
      var d := ds[0];
      assert d in ds && ds == [d] + ds[1..];
      var end, pre' := DeclMatches(s, pre, d, DeclsText(ds[1..]));
      DeclsReadBack(s, pre', ds[1..]);
      BodyFile(d.file);
      DeclsCons(FileIn, Match(end, d.name, BodyText(d.file)), Scan(ZoneAt, s, |pre'|), d.file);
    }
  }

  lemma {:induction false} TitleText()
    ensures 'z' !in TITLE
  {
    assert 'z' !in "// managed by EpicPanel " && 'z' !in "- do not edit\n";
  }

  /**
   A printed include file is read back declaration by declaration, although
   the expression for a block already ends at the inner closing brace.
   */
  lemma {:induction false} IncludeReadsBack(ds: seq<Decl>)
    requires forall d :: d in ds ==> PlainDecl(d)
    ensures Parsed(IncludeText(ds)) == ds
  {
    var s := IncludeText(ds);
    TitleText();
    NoZoneBefore(s, TITLE, DeclsText(ds));
    DeclsReadBack(s, TITLE, ds);
  }
}
