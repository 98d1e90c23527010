/** Characters, words and one-line directives of the managed config files. */
module Text {
  import opened Common

  /** White space to an expression. */
  predicate IsBlank(c: char) {
    c == ' ' || c == '\t' || c == '\n' || c == '\r' || c == '\U{000C}'
  }

  /** White space between words. */
  predicate IsSpace(c: char) {
    IsBlank(c) || IsWide(c)
  }

  /** The white space that expressions do not know. */
  predicate IsWide(c: char) {
    || c == '\U{000B}' || c == '\U{0085}' || c == '\U{00A0}' || c == '\U{1680}'
    || '\U{2000}' <= c <= '\U{200A}' || c == '\U{2028}' || c == '\U{2029}' || c == '\U{202F}'
    || c == '\U{205F}' || c == '\U{3000}'
  }

  /** A nonempty run of non-space characters. */
  predicate Word(s: string) {
    s != "" && forall i :: 0 <= i < |s| ==> !IsSpace(s[i])
  }

  /** A nonempty run of characters that are not blank. */
  predicate Solid(s: string) {
    s != "" && forall i :: 0 <= i < |s| ==> !IsBlank(s[i])
  }

  /** First position at or after `i` that is not a space. */
  function SkipSpaces(s: string, i: nat): (k: nat)
    requires i <= |s|
    ensures i <= k <= |s|
    ensures k < |s| ==> !IsSpace(s[k])
    ensures forall j :: i <= j < k ==> IsSpace(s[j])
    decreases |s| - i
  {
    if i == |s| || !IsSpace(s[i]) then i else SkipSpaces(s, i + 1)
  }

  /** First position at or after `i` that is a space. */
  function SkipWord(s: string, i: nat): (k: nat)
    requires i <= |s|
    ensures i <= k <= |s|
    ensures k < |s| ==> IsSpace(s[k])
    ensures forall j :: i <= j < k ==> !IsSpace(s[j])
    decreases |s| - i
  {
    if i == |s| || IsSpace(s[i]) then i else SkipWord(s, i + 1)
  }

  /** First position at or after `i` that is not blank. */
  function SkipBlanks(s: string, i: nat): (k: nat)
    requires i <= |s|
    ensures i <= k <= |s|
    ensures k < |s| ==> !IsBlank(s[k])
    ensures forall j :: i <= j < k ==> IsBlank(s[j])
    decreases |s| - i
  {
    if i == |s| || !IsBlank(s[i]) then i else SkipBlanks(s, i + 1)
  }

  /** First position at or after `i` that is blank. */
  function SkipSolid(s: string, i: nat): (k: nat)
    requires i <= |s|
    ensures i <= k <= |s|
    ensures k < |s| ==> IsBlank(s[k])
    ensures forall j :: i <= j < k ==> !IsBlank(s[j])
    decreases |s| - i
  {
    if i == |s| || IsBlank(s[i]) then i else SkipSolid(s, i + 1)
  }

  /** First position at or after `i` that holds `c`. */
  function IndexFrom(s: string, c: char, i: nat): (k: nat)
    requires i <= |s|
    ensures i <= k <= |s|
    ensures k < |s| ==> s[k] == c
    ensures forall j :: i <= j < k ==> s[j] != c
    decreases |s| - i
  {
    if i == |s| || s[i] == c then i else IndexFrom(s, c, i + 1)
  }

  /** The words of `s` from position `i` on. */
  function FieldsFrom(s: string, i: nat): seq<string>
    requires i <= |s|
    decreases |s| - i
  {
    var a := SkipSpaces(s, i);
    if a == |s| then []
    else
      var b := SkipWord(s, a);
      [s[a..b]] + FieldsFrom(s, b)
  }

  function Fields(s: string): seq<string> {
    FieldsFrom(s, 0)
  }

  /** Words joined by single spaces. */
  function Spaced(ws: seq<string>): string {
    if ws == [] then ""
    else if |ws| == 1 then ws[0]
    else ws[0] + " " + Spaced(ws[1..])
  }

  lemma {:induction false} WordAt(s: string, a: nat, b: nat)
    requires a < b <= |s| && Word(s[a..b]) && (b < |s| ==> IsSpace(s[b]))
    ensures SkipSpaces(s, a) == a && SkipWord(s, a) == b
  {
    assert forall i :: a <= i < b ==> s[i] == s[a..b][i - a];
  }

  lemma {:induction false} FieldsCons(s: string, a: nat, b: nat)
    requires a < b <= |s| && Word(s[a..b]) && (b < |s| ==> IsSpace(s[b]))
    ensures FieldsFrom(s, a) == [s[a..b]] + (if b == |s| then [] else FieldsFrom(s, b + 1))
  {
    WordAt(s, a, b);
    if b < |s| {
      assert SkipSpaces(s, b) == SkipSpaces(s, b + 1);
      assert FieldsFrom(s, b) == FieldsFrom(s, b + 1);
    }
  }

  lemma {:induction false} JoinSlices(pre: string, w: string, rest: string)
    ensures var s := pre + (w + " " + rest);
            s == (pre + w + " ") + rest && s[|pre|..|pre| + |w|] == w && s[|pre| + |w|] == ' '
  {
  }

  lemma {:induction false} FieldHere(s: string, a: nat, w: string)
    requires Word(w) && a + |w| < |s| && s[a..a + |w|] == w && s[a + |w|] == ' '
    ensures FieldsFrom(s, a) == [w] + FieldsFrom(s, a + |w| + 1)
  {
    var b := a + |w|;
    assert Word(s[a..b]) && IsSpace(s[b]);
    FieldsCons(s, a, b);
  }

  lemma {:induction false} NextField(pre: string, w: string, tail: string, ws: seq<string>)
    requires Word(w) && FieldsFrom((pre + w + " ") + tail, |pre + w + " "|) == ws
    ensures FieldsFrom(pre + (w + " " + tail), |pre|) == [w] + ws
  {
    JoinSlices(pre, w, tail);
    FieldHere(pre + (w + " " + tail), |pre|, w);
    assert |pre + w + " "| == |pre| + |w| + 1;
  }

  lemma {:induction false} LastField(pre: string, w: string)
    requires Word(w)
    ensures FieldsFrom(pre + w, |pre|) == [w]
  {
    var s := pre + w;
    assert s[|pre|..|s|] == w;
    FieldsCons(s, |pre|, |s|);
  }

  /** Splitting what was joined gives the words back. */
  lemma {:induction false} FieldsOfSpaced(pre: string, ws: seq<string>)
    requires forall w :: w in ws ==> Word(w)
    ensures FieldsFrom(pre + Spaced(ws), |pre|) == ws
    decreases |ws|
  {
    if |ws| == 1 {
      assert ws[0] in ws;
      LastField(pre, ws[0]);
    } else if |ws| > 1 {
      var w, rest := ws[0], ws[1..];
      assert w in ws;
      FieldsOfSpaced(pre + w + " ", rest);
      NextField(pre, w, Spaced(rest), rest);
      assert [w] + rest == ws;
    }
  }

  /** Every word found is a word. */
  lemma {:induction false} FieldsAreWords(s: string, i: nat)
    requires i <= |s|
    ensures forall w :: w in FieldsFrom(s, i) ==> Word(w)
    decreases |s| - i
  {
    var a := SkipSpaces(s, i);
    if a < |s| {
      FieldsAreWords(s, SkipWord(s, a));
    }
  }

  // ---------------------------------------------------------------------
  // Directives
  // ---------------------------------------------------------------------

  predicate HasAt(s: string, i: nat, key: string) {
    i + |key| <= |s| && s[i..i + |key|] == key
  }

  /** Where the argument of directive `key` starts, when the line is one. */
  function Argument(line: string, key: string): Option<nat> {
    var a := SkipBlanks(line, 0);
    if !HasAt(line, a, key) then None
    else
      var b := a + |key|;
      var c := SkipBlanks(line, b);
      if c == b || c == |line| then None else Some(c)
  }

  /** A line whose first word differs from `key` at `j` is not that directive. */
  lemma {:induction false} OtherDirective(line: string, key: string, a: nat, j: nat)
    requires a <= |line| && (forall i :: 0 <= i < a ==> IsBlank(line[i]))
    requires a < |line| ==> !IsBlank(line[a])
    requires j < |key| && (a + j < |line| ==> line[a + j] != key[j])
    ensures Argument(line, key) == None
  {
    assert SkipBlanks(line, 0) == a;
    assert a + |key| <= |line| ==> line[a..a + |key|][j] == line[a + j];
  }

  lemma {:induction false} ThisDirective(indent: string, key: string, rest: string)
    requires (forall i :: 0 <= i < |indent| ==> IsBlank(indent[i])) && Solid(key)
    requires rest != "" && !IsBlank(rest[0])
    ensures Argument(indent + key + " " + rest, key) == Some(|indent| + |key| + 1)
  {
    var line := indent + key + " " + rest;
    var a, b := |indent|, |indent| + |key|;
    assert line[a] == key[0];
    assert SkipBlanks(line, 0) == a;
    assert line[a..b] == key;
    assert line[b] == ' ' && line[b + 1] == rest[0];
    assert SkipBlanks(line, b) == b + 1;
  }

  // ---------------------------------------------------------------------
  // Domain names
  // ---------------------------------------------------------------------

  /** Two characters beyond ASCII have a lower case within it: the kelvin sign and the dotted capital I. */
  function LowerChar(c: char): char {
    if 'A' <= c <= 'Z' then (c as int + 32) as char
    else if c == '\U{212A}' then 'k'
    else if c == '\U{0130}' then 'i'
    else c
  }

  function ToLower(s: string): (r: string)
    ensures |r| == |s|
  {
    seq(|s|, i requires 0 <= i < |s| => LowerChar(s[i]))
  }

  predicate ValidDomain(s: string) {
    3 <= |s| <= 253 &&
    forall i :: 0 <= i < |s| ==> 'a' <= s[i] <= 'z' || '0' <= s[i] <= '9' || s[i] == '-' || s[i] == '.'
  }

  /** A domain name is 3 to 253 small letters, digits, hyphens and dots. */
  lemma {:induction false} ValidDomainIs(s: string)
    ensures ValidDomain(s) <==>
            3 <= |s| <= 253
            && forall i :: 0 <= i < |s| ==> s[i] in "abcdefghijklm" + "nopqrstuvwxyz" + "0123456789-."
  {
    if ValidDomain(s) {
      forall i | 0 <= i < |s| ensures s[i] in "abcdefghijklm" + "nopqrstuvwxyz" + "0123456789-." { DomainChar(s[i]); }
    } else if |s| >= 3 && |s| <= 253 {
      var i :| 0 <= i < |s| && !('a' <= s[i] <= 'z' || '0' <= s[i] <= '9' || s[i] == '-' || s[i] == '.');
      DomainChar(s[i]);
    }
  }

  lemma {:induction false} DomainChar(c: char)
    ensures c in "abcdefghijklm" + "nopqrstuvwxyz" + "0123456789-." <==>
            'a' <= c <= 'z' || '0' <= c <= '9' || c == '-' || c == '.'
  {
    Letter(c);
    var others := "0123456789-.";
    if '0' <= c <= '9' { assert others[c as int - '0' as int] == c; }
    if c == '-' { assert others[10] == c; }
    if c == '.' { assert others[11] == c; }
  }

  lemma {:induction false} Letter(c: char)
    ensures c in "abcdefghijklm" <==> 'a' <= c <= 'm'
    ensures c in "nopqrstuvwxyz" <==> 'n' <= c <= 'z'
  {
    if 'a' <= c <= 'm' { assert "abcdefghijklm"[c as int - 'a' as int] == c; }
    if 'n' <= c <= 'z' { assert "nopqrstuvwxyz"[c as int - 'n' as int] == c; }
  }

  lemma {:induction false} ValidDomainIsLowerWord(d: string)
    requires ValidDomain(d)
    ensures ToLower(d) == d && Word(d) && ';' !in d
  {
  }

  predicate Distinct(s: seq<string>) {
    forall i, j :: 0 <= i < j < |s| ==> s[i] != s[j]
  }

  /** Valid lower-cased names in order of first occurrence. */
  function Domains(toks: seq<string>): seq<string> {
    if toks == [] then []
    else
      var ds := Domains(toks[..|toks| - 1]);
      var d := ToLower(toks[|toks| - 1]);
      if d in ds || !ValidDomain(d) then ds else ds + [d]
  }

  lemma {:induction false} DomainsAreValid(toks: seq<string>)
    ensures Distinct(Domains(toks)) && forall d :: d in Domains(toks) ==> ValidDomain(d)
    decreases |toks|
  {
    if toks != [] { DomainsAreValid(toks[..|toks| - 1]); }
  }

  lemma {:induction false} DomainsOfDomains(ds: seq<string>)
    requires Distinct(ds) && forall d :: d in ds ==> ValidDomain(d)
    ensures Domains(ds) == ds
    decreases |ds|
  {
    if ds != [] {
      var n := |ds| - 1;
      DomainsOfDomains(ds[..n]);
      assert ds[n] in ds;
      ValidDomainIsLowerWord(ds[n]);
      assert ds == ds[..n] + [ds[n]];
    }
  }

  /** The names found are the valid ones among the lower-cased tokens. */
  lemma {:induction false} DomainsMembers(toks: seq<string>, d: string)
    ensures d in Domains(toks) <==> ValidDomain(d) && exists t :: t in toks && ToLower(t) == d
    decreases |toks|
  {
    if toks != [] {
      var n := |toks| - 1;
      DomainsMembers(toks[..n], d);
      assert toks == toks[..n] + [toks[n]];
    }
  }

  // ---------------------------------------------------------------------
  // Keys joined with a bar
  // ---------------------------------------------------------------------

  lemma {:induction false} FirstBar(a: string, x: string)
    requires '|' !in a
    ensures IndexFrom(a + "|" + x, '|', 0) == |a|
    ensures (a + "|" + x)[..|a|] == a && (a + "|" + x)[|a| + 1..] == x
  {
    var s := a + "|" + x;
    assert s[|a|] == '|';
    assert forall j :: 0 <= j < |a| ==> s[j] == a[j];
  }

  lemma {:induction false} CutEqual(a: string, x: string, b: string, y: string)
    requires '|' !in a && '|' !in b && a + "|" + x == b + "|" + y
    ensures a == b && x == y
  {
    FirstBar(a, x);
    FirstBar(b, y);
  }
}
