/**
 The sshd drop-in shared by all sites: each sync rewrites the Match blocks of
 its own prefix and keeps everybody else's.
 */
module FtpSync {
  import opened Common
  import opened Text

  // ---------------------------------------------------------------------
  // Lines
  // ---------------------------------------------------------------------

  /** The pieces between newlines; one more than there are newlines. */
  function Split(s: string): (r: seq<string>)
    ensures |r| >= 1
    decreases |s|
  {
    var k := IndexFrom(s, '\n', 0);
    if k == |s| then [s] else [s[..k]] + Split(s[k + 1..])
  }

  /** Each line followed by a newline. */
  function Unlines(ls: seq<string>): string {
    if ls == [] then "" else ls[0] + "\n" + Unlines(ls[1..])
  }

  predicate NoNewlines(ls: seq<string>) {
    forall i :: 0 <= i < |ls| ==> '\n' !in ls[i]
  }

  lemma {:induction false} SplitLine(l: string, rest: string)
    requires '\n' !in l
    ensures Split(l + "\n" + rest) == [l] + Split(rest)
  {
    var s := l + "\n" + rest;
    assert forall j :: 0 <= j < |l| ==> s[j] == l[j];
    assert s[|l|] == '\n';
    assert IndexFrom(s, '\n', 0) == |l|;
    assert s[..|l|] == l && s[|l| + 1..] == rest;
  }

  function Joined(ls: seq<string>): string {
    if ls == [] then "" else if |ls| == 1 then ls[0] else ls[0] + ("\n" + Joined(ls[1..]))
  }

  lemma {:induction false} JoinedNext(x: string, ls: seq<string>)
    requires ls != []
    ensures Joined([x] + ls) == x + ("\n" + Joined(ls))
  {
    assert ([x] + ls)[1..] == ls;
  }

  lemma {:induction false} CutAt(s: string, k: nat)
    requires k < |s| && s[k] == '\n'
    ensures s == s[..k] + ("\n" + s[k + 1..])
  {
  }

  /** Splitting loses nothing: joined by newlines the pieces are the text. */
  lemma {:induction false} SplitKeepsText(s: string)
    ensures Joined(Split(s)) == s
    decreases |s|
  {
    var k := IndexFrom(s, '\n', 0);
    if k < |s| {
      var rest := s[k + 1..];
      SplitKeepsText(rest);
      JoinedNext(s[..k], Split(rest));
      CutAt(s, k);
    }
  }

  /** What was written line by line is read back line by line. */
  lemma {:induction false} SplitUnlines(ls: seq<string>)
    requires NoNewlines(ls)
    ensures Split(Unlines(ls)) == ls + [""]
    decreases |ls|
  {
    if ls != [] {
      var l, rest := ls[0], ls[1..];
      SplitUnlines(rest);
      SplitLine(l, Unlines(rest));
      Assoc([l], rest, [""]);
      SplitFirst(ls);
    }
  }

  lemma {:induction false} SplitHasNoNewlines(s: string)
    ensures NoNewlines(Split(s))
    decreases |s|
  {
    var k := IndexFrom(s, '\n', 0);
    if k < |s| { SplitHasNoNewlines(s[k + 1..]); }
  }

  lemma {:induction false} UnlinesConcat(a: seq<string>, b: seq<string>)
    ensures Unlines(a + b) == Unlines(a) + Unlines(b)
    decreases |a|
  {
    if a == [] {
      assert a + b == b;
    } else {
      assert (a + b)[1..] == a[1..] + b;
      UnlinesConcat(a[1..], b);
    }
  }

  predicate Blank(s: string) {
    forall i :: 0 <= i < |s| ==> IsSpace(s[i])
  }

  /** TrimSpace. */
  function Trim(s: string): string
    decreases |s|
  {
    if s != "" && IsSpace(s[0]) then Trim(s[1..])
    else if s != "" && IsSpace(s[|s| - 1]) then Trim(s[..|s| - 1])
    else s
  }

  lemma {:induction false} TrimBlank(s: string)
    ensures Trim(s) == "" <==> Blank(s)
    decreases |s|
  {
    if s != "" && IsSpace(s[0]) {
      TrimBlank(s[1..]);
      assert Blank(s) <==> Blank(s[1..]) by { assert forall i :: 1 <= i < |s| ==> s[i] == s[1..][i - 1]; }
    } else if s != "" && IsSpace(s[|s| - 1]) {
      TrimBlank(s[..|s| - 1]);
      assert !Blank(s[..|s| - 1]) by { assert s[..|s| - 1][0] == s[0]; }
    }
  }

  /** Trailing blank lines dropped. */
  function TrimTrail(ls: seq<string>): seq<string> {
    if ls != [] && Blank(ls[|ls| - 1]) then TrimTrail(ls[..|ls| - 1]) else ls
  }

  /** Only blank lines are dropped, and all of them at the end. */
  lemma {:induction false} TrimTrailIs(ls: seq<string>)
    ensures var kept := TrimTrail(ls);
            && kept <= ls && (kept != [] ==> !Blank(kept[|kept| - 1]))
            && forall i :: |kept| <= i < |ls| ==> Blank(ls[i])
    decreases |ls|
  {
    if ls != [] && Blank(ls[|ls| - 1]) { TrimTrailIs(ls[..|ls| - 1]); }
  }

  lemma {:induction false} SliceOfTail(s: string, a: nat, b: nat)
    requires s != "" && a <= b < |s|
    ensures s[1..][a..b] == s[a + 1..b + 1]
  {
  }

  /** Only white space is trimmed, and all of it at both ends. */
  lemma {:induction false} TrimIs(s: string) returns (a: nat, b: nat)
    ensures a <= b <= |s| && Trim(s) == s[a..b]
    ensures (forall i :: 0 <= i < a ==> IsSpace(s[i])) && forall i :: b <= i < |s| ==> IsSpace(s[i])
    ensures a < b ==> !IsSpace(s[a]) && !IsSpace(s[b - 1])
    decreases |s|
  {
    if s != "" && IsSpace(s[0]) {
      var x, y := TrimIs(s[1..]);
      a, b := x + 1, y + 1;
      SliceOfTail(s, x, y);
      assert forall i :: 1 <= i < |s| ==> s[i] == s[1..][i - 1];
    } else if s != "" && IsSpace(s[|s| - 1]) {
      a, b := TrimIs(s[..|s| - 1]);
      assert s[..|s| - 1][a..b] == s[a..b];
    } else {
      a, b := 0, |s|;
      assert s[..] == s;
    }
  }

  predicate Trimmed(ls: seq<string>) {
    ls != [] && !Blank(ls[|ls| - 1])
  }

  // ---------------------------------------------------------------------
  // Match blocks
  // ---------------------------------------------------------------------

  const MATCH := "Match User "

  predicate IsMatch(line: string) {
    HasAt(line, 0, MATCH)
  }

  function UserOf(line: string): string
    requires IsMatch(line)
  {
    Trim(line[|MATCH|..])
  }

  datatype Block = Block(user: string, lines: seq<string>)

  /** One more line: it opens a block or continues the last one. */
  function AddLine(bs: seq<Block>, line: string): seq<Block> {
    if IsMatch(line) then bs + [Block(UserOf(line), [line])]
    else if bs == [] then []
    else bs[|bs| - 1 := Block(bs[|bs| - 1].user, bs[|bs| - 1].lines + [line])]
  }

  function Blocks(lines: seq<string>): seq<Block> {
    if lines == [] then [] else AddLine(Blocks(lines[..|lines| - 1]), lines[|lines| - 1])
  }

  /** ftpSplitMatchBlocks. */
  method SplitMatchBlocks(content: string) returns (bs: seq<Block>)
    ensures bs == Blocks(Split(content))
  {
    bs := [];
    var lines := Split(content);
    for i := 0 to |lines|
      invariant bs == Blocks(lines[..i])
    {
      var line := lines[i];
      assert lines[..i + 1][..i] == lines[..i];
      bs := AddLine(bs, line);
    }
    assert lines[..|lines|] == lines;
  }

  /** A block as a config file holds it: its Match line first, and only there. */
  predicate Formed(b: Block) {
    && b.lines != [] && IsMatch(b.lines[0]) && b.user == UserOf(b.lines[0])
    && forall i :: 1 <= i < |b.lines| ==> !IsMatch(b.lines[i])
  }

  lemma {:induction false} BlocksFormed(lines: seq<string>)
    ensures forall b :: b in Blocks(lines) ==> Formed(b)
    decreases |lines|
  {
    if lines != [] {
      var n := |lines| - 1;
      BlocksFormed(lines[..n]);
      var bs := Blocks(lines[..n]);
      if !IsMatch(lines[n]) && bs != [] { assert bs[|bs| - 1] in bs; }
    }
  }

  lemma {:induction false} BlocksNoNewlines(lines: seq<string>)
    requires NoNewlines(lines)
    ensures forall b :: b in Blocks(lines) ==> NoNewlines(b.lines)
    decreases |lines|
  {
    if lines != [] {
      var n := |lines| - 1;
      BlocksNoNewlines(lines[..n]);
      var bs := Blocks(lines[..n]);
      if !IsMatch(lines[n]) && bs != [] { assert bs[|bs| - 1] in bs; }
    }
  }

  lemma {:induction false} ContinueNext(bs: seq<Block>, more: seq<string>, line: string)
    requires bs != [] && !IsMatch(line)
    ensures var n, b := |bs| - 1, bs[|bs| - 1];
            AddLine(bs[n := Block(b.user, b.lines + more)], line) == bs[n := Block(b.user, b.lines + (more + [line]))]
  {
    Assoc(bs[|bs| - 1].lines, more, [line]);
  }

  /** Continuation lines all go to the last block. */
  lemma {:induction false} BlocksContinue(pre: seq<string>, more: seq<string>)
    requires forall i :: 0 <= i < |more| ==> !IsMatch(more[i])
    ensures var bs := Blocks(pre);
            Blocks(pre + more) ==
            if bs == [] then [] else bs[|bs| - 1 := Block(bs[|bs| - 1].user, bs[|bs| - 1].lines + more)]
    decreases |more|
  {
    var bs := Blocks(pre);
    if more == [] {
      assert pre + more == pre;
      if bs != [] { assert bs[|bs| - 1].lines + more == bs[|bs| - 1].lines; }
    } else {
      var n := |more| - 1;
      BlocksContinue(pre, more[..n]);
      assert (pre + more)[..|pre| + n] == pre + more[..n];
      SplitLast(more);
      if bs != [] { ContinueNext(bs, more[..n], more[n]); }
    }
  }

  /** Blocks lose no line: they are all lines from the first Match line on. */
  lemma {:induction false} BlocksHoldLines(lines: seq<string>) returns (head: seq<string>)
    ensures lines == head + Flat(Blocks(lines)) && forall i :: 0 <= i < |head| ==> !IsMatch(head[i])
    decreases |lines|
  {
    if lines == [] {
      head := [];
    } else {
      var init, line := lines[..|lines| - 1], lines[|lines| - 1];
      var h := BlocksHoldLines(init);
      SplitLast(lines);
      FlatNext(Blocks(init), line);
      if IsMatch(line) || Blocks(init) != [] {
        head := h;
        Assoc(h, Flat(Blocks(init)), [line]);
      } else {
        head := h + [line];
        NothingAdded(h);
        NothingAdded(head);
      }
    }
  }

  lemma {:induction false} FlatNext(bs: seq<Block>, line: string)
    ensures IsMatch(line) || bs != [] ==> Flat(AddLine(bs, line)) == Flat(bs) + [line]
  {
    if IsMatch(line) {
      Appended(bs, Block(UserOf(line), [line]));
    } else if bs != [] {
      var n := |bs| - 1;
      var bs' := AddLine(bs, line);
      assert bs'[..n] == bs[..n] && bs'[n].lines == bs[n].lines + [line];
      Assoc(Flat(bs[..n]), bs[n].lines, [line]);
    }
  }

  /** A formed block written after anything is read back as one more block. */
  lemma {:induction false} BlocksAppend(pre: seq<string>, b: Block)
    requires Formed(b)
    ensures Blocks(pre + b.lines) == Blocks(pre) + [b]
  {
    var first, rest := b.lines[0], b.lines[1..];
    var one := pre + [first];
    assert one[..|pre|] == pre;
    BlocksContinue(one, rest);
    assert pre + b.lines == one + rest;
    assert [first] + rest == b.lines;
  }

  function Flat(bs: seq<Block>): seq<string> {
    if bs == [] then [] else Flat(bs[..|bs| - 1]) + bs[|bs| - 1].lines
  }

  lemma {:induction false} BlocksOfFlat(head: seq<string>, bs: seq<Block>)
    requires forall i :: 0 <= i < |head| ==> !IsMatch(head[i])
    requires forall b :: b in bs ==> Formed(b)
    ensures Blocks(head + Flat(bs)) == bs
    decreases |bs|
  {
    if bs == [] {
      NothingAdded(head);
      BlocksContinue([], head);
    } else {
      var n := |bs| - 1;
      assert bs[n] in bs;
      var init, b := bs[..n], bs[n];
      BlocksOfFlat(head, init);
      Assoc(head, Flat(init), b.lines);
      BlocksAppend(head + Flat(init), b);
      SplitLast(bs);
    }
  }

  // ---------------------------------------------------------------------
  // What the file means
  // ---------------------------------------------------------------------

  /** Blocks with a user, trailing blank lines aside. */
  function Named(bs: seq<Block>): seq<Block> {
    if bs == [] then []
    else
      var b := bs[|bs| - 1];
      Named(bs[..|bs| - 1]) + (if b.user == "" then [] else [Block(b.user, TrimTrail(b.lines))])
  }

  /** The view drops blocks without a user, and blank lines at the end of the others. */
  lemma {:induction false} NamedNext(bs: seq<Block>, b: Block)
    ensures Named(bs + [b]) == Named(bs) + if b.user == "" then [] else [Block(b.user, TrimTrail(b.lines))]
  {
    Appended(bs, b);
  }

  function View(content: string): seq<Block> {
    Named(Blocks(Split(content)))
  }

  predicate HasPrefix(s: string, p: string) {
    HasAt(s, 0, p)
  }

  /** The blocks whose user has the prefix, or those whose has not. */
  function Of(bs: seq<Block>, p: string, mine: bool): seq<Block> {
    if bs == [] then []
    else
      var b := bs[|bs| - 1];
      Of(bs[..|bs| - 1], p, mine) + (if HasPrefix(b.user, p) == mine then [b] else [])
  }

  datatype Account = Account(user: string, home: string)

  function MatchBlock(a: Account): Block {
    Block(a.user,
      [MATCH + a.user,
       "    ForceCommand " + ("internal-sftp -d " + (a.home + " -u 077")),
       "    AllowTcpForwarding no",
       "    X11Forwarding no",
       "    PermitTunnel no"])
  }

  function MatchBlocks(accounts: seq<Account>): seq<Block> {
    seq(|accounts|, i requires 0 <= i < |accounts| => MatchBlock(accounts[i]))
  }

  const HEAD0 := "# managed by EpicPanel — " + "do not edit"
  const HEAD1 := "# SFTP-only accounts. " + ("ChrootDirectory is " + ("deliberately not used: " + "the site tree"))
  const HEAD2 := "# is owned by the site " + ("unix user and sshd " + ("requires a root-owned " + "chroot path."))
  const HEAD3 := "# ForceCommand " + ("internal-sftp with a " + ("fixed start directory " + "is the equivalent."))
  const HEADER := [HEAD0, HEAD1, HEAD2, HEAD3]

  /** The drop-in for these blocks; no blocks, no file. */
  function Printed(bs: seq<Block>): string {
    if bs == [] then "" else Unlines(HEADER + Flat(bs))
  }

  /** ftpRenderSFTPConf: foreign blocks kept, own blocks replaced. */
  function Rendered(existing: string, desired: seq<Account>, p: string): string {
    Printed(Of(View(existing), p, false) + MatchBlocks(desired))
  }

  // ---------------------------------------------------------------------
  // Reading back what was rendered
  // ---------------------------------------------------------------------

  /** A block as rendering leaves it. */
  predicate Neat(b: Block) {
    Formed(b) && b.user != "" && Trimmed(b.lines) && NoNewlines(b.lines)
  }

  lemma {:induction false} TrimTrailKeeps(ls: seq<string>)
    ensures TrimTrail(ls) <= ls
    ensures (exists i :: 0 <= i < |ls| && !Blank(ls[i])) ==> Trimmed(TrimTrail(ls))
    decreases |ls|
  {
    if ls != [] && Blank(ls[|ls| - 1]) {
      var init := ls[..|ls| - 1];
      TrimTrailKeeps(init);
      if i :| 0 <= i < |ls| && !Blank(ls[i]) { assert init[i] == ls[i]; }
    }
  }

  lemma {:induction false} NeatBlock(b: Block)
    requires Formed(b) && b.user != "" && NoNewlines(b.lines)
    ensures Neat(Block(b.user, TrimTrail(b.lines)))
  {
    TrimTrailKeeps(b.lines);
    assert b.lines[0][0] == 'M' by { assert b.lines[0][0..|MATCH|][0] == MATCH[0]; }
    assert !Blank(b.lines[0]);
    assert TrimTrail(b.lines)[0] == b.lines[0];
  }

  lemma {:induction false} NamedNeat(bs: seq<Block>)
    requires forall b :: b in bs ==> Formed(b) && NoNewlines(b.lines)
    ensures forall b :: b in Named(bs) ==> Neat(b)
    decreases |bs|
  {
    if bs != [] {
      var n := |bs| - 1;
      assert bs[n] in bs;
      NamedNeat(bs[..n]);
      if bs[n].user != "" { NeatBlock(bs[n]); }
    }
  }

  /** Whatever the file held, its view is neat. */
  lemma {:induction false} ViewNeat(content: string)
    ensures forall b :: b in View(content) ==> Neat(b)
  {
    var lines := Split(content);
    SplitHasNoNewlines(content);
    BlocksFormed(lines);
    BlocksNoNewlines(lines);
    NamedNeat(Blocks(lines));
  }

  /** A block the view leaves as it is. */
  predicate Settled(b: Block) {
    b.user != "" && TrimTrail(b.lines) == b.lines
  }

  lemma {:induction false} NamedOfSettled(bs: seq<Block>)
    requires forall b :: b in bs ==> Settled(b)
    ensures Named(bs) == bs
    decreases |bs|
  {
    if bs != [] {
      var init, b := bs[..|bs| - 1], bs[|bs| - 1];
      assert Settled(b);
      NamedOfSettled(init);
      SplitLast(bs);
      assert b == Block(b.user, TrimTrail(b.lines));
    }
  }

  lemma {:induction false} NeatIsSettled(b: Block)
    requires Neat(b)
    ensures Settled(b)
  {
  }

  lemma {:induction false} NamedOfNeat(bs: seq<Block>)
    requires forall b :: b in bs ==> Neat(b)
    ensures Named(bs) == bs
  {
    forall b | b in bs ensures Settled(b) { NeatIsSettled(b); }
    NamedOfSettled(bs);
  }

  lemma {:induction false} FlatNoNewlines(bs: seq<Block>)
    requires forall b :: b in bs ==> NoNewlines(b.lines)
    ensures NoNewlines(Flat(bs))
    decreases |bs|
  {
    if bs != [] {
      assert bs[|bs| - 1] in bs;
      FlatNoNewlines(bs[..|bs| - 1]);
    }
  }

  /** A comment line made of newline-free pieces. */
  lemma {:induction false} CommentLine(head: string, rest: string)
    requires head != "" && head[0] == '#' && '\n' !in head && '\n' !in rest
    ensures !IsMatch(head + rest) && '\n' !in head + rest
  {
    var line := head + rest;
    assert |MATCH| <= |line| ==> line[0..|MATCH|][0] == '#';
  }

  predicate Quiet(line: string) {
    !IsMatch(line) && '\n' !in line
  }

  lemma {:induction false} Head0Quiet()
    ensures Quiet(HEAD0)
  {
    CommentLine("# managed by EpicPanel — ", "do not edit");
  }

  lemma {:induction false} Head1Quiet()
    ensures Quiet(HEAD1)
  {
    CommentLine("# SFTP-only accounts. ", "ChrootDirectory is " + ("deliberately not used: " + "the site tree"));
  }

  lemma {:induction false} Head2Quiet()
    ensures Quiet(HEAD2)
  {
    CommentLine("# is owned by the site ", "unix user and sshd " + ("requires a root-owned " + "chroot path."));
  }

  lemma {:induction false} Head3Quiet()
    ensures Quiet(HEAD3)
  {
    CommentLine("# ForceCommand ", "internal-sftp with a " + ("fixed start directory " + "is the equivalent."));
  }

  lemma {:induction false} FourQuiet(a: string, b: string, c: string, d: string)
    requires Quiet(a) && Quiet(b) && Quiet(c) && Quiet(d)
    ensures NoNewlines([a, b, c, d]) && forall i :: 0 <= i < 4 ==> !IsMatch([a, b, c, d][i])
  {
  }

  lemma {:induction false} HeaderQuiet()
    ensures NoNewlines(HEADER) && forall i :: 0 <= i < |HEADER| ==> !IsMatch(HEADER[i])
  {
    Head0Quiet();
    Head1Quiet();
    Head2Quiet();
    Head3Quiet();
    FourQuiet(HEAD0, HEAD1, HEAD2, HEAD3);
  }

  /** The empty piece after the last newline joins the last block and is trimmed off. */
  lemma {:induction false} LastLineBlank(lines: seq<string>, bs: seq<Block>)
    requires Blocks(lines) == bs && bs != [] && forall b :: b in bs ==> Neat(b)
    ensures Named(Blocks(lines + [""])) == bs
  {
    var n := |bs| - 1;
    var last := bs[n];
    assert last in bs;
    assert (lines + [""])[..|lines|] == lines;
    var bs' := bs[n := Block(last.user, last.lines + [""])];
    assert Blocks(lines + [""]) == bs';
    assert bs'[..n] == bs[..n];
    NamedOfNeat(bs[..n]);
    assert (last.lines + [""])[..|last.lines|] == last.lines;
    assert TrimTrail(last.lines + [""]) == TrimTrail(last.lines) == last.lines;
    assert bs == bs[..n] + [last];
  }

  /** Neat blocks survive printing and reading back, byte for byte. */
  lemma {:induction false} PrintedReadsBack(bs: seq<Block>)
    requires forall b :: b in bs ==> Neat(b)
    ensures View(Printed(bs)) == bs
  {
    if bs == [] {
      assert Split("") == [""];
      assert [""][..0] == [];
      assert Blocks([""]) == AddLine(Blocks([]), "");
    } else {
      HeaderQuiet();
      FlatNoNewlines(bs);
      var lines := HEADER + Flat(bs);
      SplitUnlines(lines);
      BlocksOfFlat(HEADER, bs);
      LastLineBlank(lines, bs);
    }
  }

  /** The account a block stands for: its user, and the directory its forced command starts in. */
  function AccountOf(b: Block): Account {
    var pre, post := "    ForceCommand internal-sftp -d ", " -u 077";
    if |b.lines| >= 2 && HasAt(b.lines[1], 0, pre) && |b.lines[1]| >= |pre| + |post|
    then Account(b.user, b.lines[1][|pre|..|b.lines[1]| - |post|])
    else Account(b.user, "")
  }

  lemma {:induction false} ForcedHome(pre: string, home: string, post: string, line: string)
    requires line == pre + home + post
    ensures HasAt(line, 0, pre) && |line| >= |pre| + |post| && line[|pre|..|line| - |post|] == home
  {
  }

  /** A block holds its account whole: user and home directory are read back. */
  lemma {:induction false} AccountReadsBack(a: Account)
    ensures AccountOf(MatchBlock(a)) == a
  {
    var line := MatchBlock(a).lines[1];
    assert "    ForceCommand " + "internal-sftp -d " == "    ForceCommand internal-sftp -d ";
    Assoc("    ForceCommand ", "internal-sftp -d ", a.home + " -u 077");
    Assoc("    ForceCommand internal-sftp -d ", a.home, " -u 077");
    ForcedHome("    ForceCommand internal-sftp -d ", a.home, " -u 077", line);
  }

  /** It opens on the user, forces the command, and forbids the rest. */
  lemma {:induction false} BlockConfines(a: Account)
    ensures var b := MatchBlock(a);
            && b.user == a.user && |b.lines| == 5 && b.lines[0] == "Match User " + a.user
            && b.lines[2..] == ["    AllowTcpForwarding no", "    X11Forwarding no", "    PermitTunnel no"]
  {
  }

  /** An account as validation admits it, with a home directory on one line. */
  predicate GoodAccount(a: Account) {
    Word(a.user) && '\n' !in a.home
  }

  lemma {:induction false} TrimWord(w: string)
    requires Word(w)
    ensures Trim(w) == w
  {
  }

  lemma {:induction false} IndentedIsNoMatch(line: string)
    requires line != "" && line[0] == ' '
    ensures !IsMatch(line)
  {
    assert |MATCH| <= |line| ==> line[0..|MATCH|][0] == line[0];
  }

  lemma {:induction false} MatchLine(u: string)
    requires Word(u)
    ensures IsMatch(MATCH + u) && UserOf(MATCH + u) == u && '\n' !in MATCH + u
  {
    assert (MATCH + u)[0..|MATCH|] == MATCH && (MATCH + u)[|MATCH|..] == u;
    TrimWord(u);
    assert '\n' !in MATCH;
  }

  lemma {:induction false} OptionLine(head: string, rest: string)
    requires head != "" && head[0] == ' ' && '\n' !in head && '\n' !in rest
    ensures !IsMatch(head + rest) && '\n' !in head + rest
  {
    IndentedIsNoMatch(head + rest);
  }

  lemma {:induction false} NoForwarding()
    ensures Quiet("    AllowTcpForwarding no") && Quiet("    X11Forwarding no")
  {
    IndentedIsNoMatch("    AllowTcpForwarding no");
    IndentedIsNoMatch("    X11Forwarding no");
  }

  lemma {:induction false} NoTunnel()
    ensures Quiet("    PermitTunnel no") && !Blank("    PermitTunnel no")
  {
    IndentedIsNoMatch("    PermitTunnel no");
    assert "    PermitTunnel no"[4] == 'P';
  }

  lemma {:induction false} FiveLinesNeat(user: string, a: string, b: string, c: string, d: string, e: string)
    requires user != "" && IsMatch(a) && UserOf(a) == user && '\n' !in a
    requires Quiet(b) && Quiet(c) && Quiet(d) && Quiet(e) && !Blank(e)
    ensures Neat(Block(user, [a, b, c, d, e]))
  {
  }

  lemma {:induction false} MatchBlockNeat(a: Account)
    requires GoodAccount(a)
    ensures Neat(MatchBlock(a))
  {
    var ls := MatchBlock(a).lines;
    MatchLine(a.user);
    OptionLine("    ForceCommand ", "internal-sftp -d " + (a.home + " -u 077"));
    NoForwarding();
    NoTunnel();
    FiveLinesNeat(a.user, ls[0], ls[1], ls[2], ls[3], ls[4]);
  }

  lemma {:induction false} OfMembers(bs: seq<Block>, p: string, mine: bool)
    ensures forall b :: b in Of(bs, p, mine) <==> b in bs && HasPrefix(b.user, p) == mine
    decreases |bs|
  {
    if bs != [] {
      var n := |bs| - 1;
      OfMembers(bs[..n], p, mine);
      assert bs == bs[..n] + [bs[n]];
    }
  }

  /** The view after a sync: foreign blocks as they were, then the desired ones. */
  lemma {:induction false} RenderedView(existing: string, desired: seq<Account>, p: string)
    requires forall a :: a in desired ==> GoodAccount(a)
    ensures View(Rendered(existing, desired, p)) == Of(View(existing), p, false) + MatchBlocks(desired)
  {
    var kept, own := Of(View(existing), p, false), MatchBlocks(desired);
    ViewNeat(existing);
    OfMembers(View(existing), p, false);
    forall b | b in own
      ensures Neat(b)
    {
      var i :| 0 <= i < |own| && own[i] == b;
      assert desired[i] in desired;
      MatchBlockNeat(desired[i]);
    }
    PrintedReadsBack(kept + own);
  }

  // ---------------------------------------------------------------------
  // Syncs
  // ---------------------------------------------------------------------

  lemma {:induction false} OfConcat(a: seq<Block>, b: seq<Block>, p: string, mine: bool)
    ensures Of(a + b, p, mine) == Of(a, p, mine) + Of(b, p, mine)
    decreases |b|
  {
    if b == [] {
      assert a + b == a;
    } else {
      OfConcat(a, b[..|b| - 1], p, mine);
      assert (a + b)[..|a + b| - 1] == a + b[..|b| - 1];
    }
  }

  /** All blocks pass the test, or none does. */
  lemma {:induction false} OfAll(bs: seq<Block>, p: string, has: bool)
    requires forall b :: b in bs ==> HasPrefix(b.user, p) == has
    ensures Of(bs, p, has) == bs && Of(bs, p, !has) == []
    decreases |bs|
  {
    if bs != [] {
      var n := |bs| - 1;
      assert bs[n] in bs;
      OfAll(bs[..n], p, has);
      assert bs == bs[..n] + [bs[n]];
    }
  }

  lemma {:induction false} PrefixesExclude(u: string, p: string, q: string)
    requires |p| == |q| && p != q && HasPrefix(u, p)
    ensures !HasPrefix(u, q)
  {
  }

  /** Filtering for q is blind to dropping the blocks of another prefix p. */
  lemma {:induction false} OfOther(bs: seq<Block>, p: string, q: string)
    requires |p| == |q| && p != q
    ensures Of(Of(bs, p, false), q, true) == Of(bs, q, true)
    decreases |bs|
  {
    if bs != [] {
      var n := |bs| - 1;
      OfOther(bs[..n], p, q);
      OfConcat(Of(bs[..n], p, false), if HasPrefix(bs[n].user, p) then [] else [bs[n]], q, true);
      assert [bs[n]][..0] == [];
    }
  }

  datatype Sync = Sync(prefix: string, desired: seq<Account>)

  /** Own names only, as the payload validation demands. */
  predicate GoodSync(y: Sync, len: nat) {
    |y.prefix| == len && forall a :: a in y.desired ==> GoodAccount(a) && HasPrefix(a.user, y.prefix)
  }

  lemma {:induction false} OwnBlocks(y: Sync, len: nat, q: string)
    requires GoodSync(y, len) && |q| == len
    ensures Of(MatchBlocks(y.desired), q, true) == if q == y.prefix then MatchBlocks(y.desired) else []
    ensures Of(MatchBlocks(y.desired), y.prefix, false) == []
  {
    var own := MatchBlocks(y.desired);
    forall b | b in own
      ensures HasPrefix(b.user, y.prefix) && (q != y.prefix ==> !HasPrefix(b.user, q))
    {
      var i :| 0 <= i < |own| && own[i] == b;
      assert y.desired[i] in y.desired;
      if q != y.prefix { PrefixesExclude(b.user, y.prefix, q); }
    }
    OfAll(own, y.prefix, true);
    if q != y.prefix { OfAll(own, q, false); }
  }

  /** After a sync its site shows the desired accounts, and every other site what it showed before. */
  lemma {:induction false} SyncEffect(existing: string, y: Sync, len: nat, q: string)
    requires GoodSync(y, len) && |q| == len
    ensures Of(View(Rendered(existing, y.desired, y.prefix)), q, true) ==
            if q == y.prefix then MatchBlocks(y.desired) else Of(View(existing), q, true)
  {
    var kept := Of(View(existing), y.prefix, false);
    RenderedView(existing, y.desired, y.prefix);
    OfConcat(kept, MatchBlocks(y.desired), q, true);
    OwnBlocks(y, len, q);
    if q == y.prefix {
      OfMembers(View(existing), y.prefix, false);
      OfAll(kept, q, false);
    } else {
      OfOther(View(existing), y.prefix, q);
    }
  }

  lemma {:induction false} KeptAgain(bs: seq<Block>, own: seq<Block>, p: string)
    requires Of(own, p, false) == []
    ensures Of(Of(bs, p, false) + own, p, false) == Of(bs, p, false)
  {
    var kept := Of(bs, p, false);
    OfConcat(kept, own, p, false);
    OfMembers(bs, p, false);
    OfAll(kept, p, false);
  }

  /** Repeating a sync renders identical text. */
  lemma {:induction false} SyncIdempotent(existing: string, y: Sync, len: nat)
    requires GoodSync(y, len)
    ensures var once := Rendered(existing, y.desired, y.prefix); Rendered(once, y.desired, y.prefix) == once
  {
    var once := Rendered(existing, y.desired, y.prefix);
    RenderedView(existing, y.desired, y.prefix);
    OwnBlocks(y, len, y.prefix);
    KeptAgain(View(existing), MatchBlocks(y.desired), y.prefix);
    assert Of(View(once), y.prefix, false) == Of(View(existing), y.prefix, false);
  }

  function Run(existing: string, ys: seq<Sync>): string {
    if ys == [] then existing
    else
      var y := ys[|ys| - 1];
      Rendered(Run(existing, ys[..|ys| - 1]), y.desired, y.prefix)
  }

  /** What site `q` should show: its last desired list, else what it began with. */
  function Expected(existing: string, ys: seq<Sync>, q: string): seq<Block> {
    if ys == [] then Of(View(existing), q, true)
    else
      var y := ys[|ys| - 1];
      if y.prefix == q then MatchBlocks(y.desired) else Expected(existing, ys[..|ys| - 1], q)
  }

  /** Over any sequence of syncs no site ever disturbs another. */
  lemma {:induction false} SyncsConverge(existing: string, ys: seq<Sync>, len: nat, q: string)
    requires |q| == len && forall i :: 0 <= i < |ys| ==> GoodSync(ys[i], len)
    ensures Of(View(Run(existing, ys)), q, true) == Expected(existing, ys, q)
    decreases |ys|
  {
    if ys != [] {
      var n := |ys| - 1;
      SyncsConverge(existing, ys[..n], len, q);
      SyncEffect(Run(existing, ys[..n]), ys[n], len, q);
    }
  }

  // ---------------------------------------------------------------------
  // The loops
  // ---------------------------------------------------------------------

  method DropTrailingBlanks(lines0: seq<string>) returns (lines: seq<string>)
    ensures lines == TrimTrail(lines0)
  {
    lines := lines0;
    while |lines| > 0 && Trim(lines[|lines| - 1]) == ""
      invariant TrimTrail(lines) == TrimTrail(lines0)
      decreases |lines|
    {
      TrimBlank(lines[|lines| - 1]);
      lines := lines[..|lines| - 1];
    }
    if |lines| > 0 { TrimBlank(lines[|lines| - 1]); }
  }

  lemma {:induction false} KeptNext(bs: seq<Block>, i: nat, p: string)
    requires i < |bs|
    ensures Of(Named(bs[..i + 1]), p, false) ==
            Of(Named(bs[..i]), p, false)
            + (if bs[i].user == "" || HasPrefix(bs[i].user, p) then [] else [Block(bs[i].user, TrimTrail(bs[i].lines))])
  {
    assert bs[..i + 1][..i] == bs[..i];
    var named := Named(bs[..i]);
    var x := Block(bs[i].user, TrimTrail(bs[i].lines));
    assert (named + [x])[..|named|] == named;
    assert named + [] == named;
  }

  /** The foreign blocks of the existing file. */
  method KeepForeign(bs: seq<Block>, p: string) returns (kept: seq<Block>)
    ensures kept == Of(Named(bs), p, false)
  {
    kept := [];
    for i := 0 to |bs|
      invariant kept == Of(Named(bs[..i]), p, false)
    {
      var b := bs[i];
      KeptNext(bs, i, p);
      if b.user == "" {
        continue;
      }
      var lines := DropTrailingBlanks(b.lines);
      if HasPrefix(b.user, p) {
        continue;
      }
      kept := kept + [Block(b.user, lines)];
    }
    assert bs[..|bs|] == bs;
  }

  lemma {:induction false} FlatMore(bs: seq<Block>, b: Block)
    ensures Unlines(HEADER + Flat(bs + [b])) == Unlines(HEADER + Flat(bs)) + Unlines(b.lines)
  {
    assert (bs + [b])[..|bs|] == bs;
    UnlinesConcat(HEADER + Flat(bs), b.lines);
    assert HEADER + Flat(bs + [b]) == HEADER + Flat(bs) + b.lines;
  }

  method WriteBlocks(out0: string, ghost before: seq<Block>, bs: seq<Block>) returns (out: string)
    requires out0 == Unlines(HEADER + Flat(before))
    ensures out == Unlines(HEADER + Flat(before + bs))
  {
    out := out0;
    assert before + bs[..0] == before;
    for i := 0 to |bs|
      invariant out == Unlines(HEADER + Flat(before + bs[..i]))
    {
      FlatMore(before + bs[..i], bs[i]);
      assert before + bs[..i + 1] == before + bs[..i] + [bs[i]];
      out := out + Unlines(bs[i].lines);
    }
    assert bs[..|bs|] == bs;
  }

  lemma {:induction false} NoBlocks(kept: seq<Block>, desired: seq<Account>)
    ensures kept + MatchBlocks(desired) == [] <==> kept == [] && desired == []
  {
    assert |kept + MatchBlocks(desired)| == |kept| + |desired|;
  }

  lemma {:induction false} HeaderFirst(kept: seq<Block>)
    ensures Unlines(HEADER + Flat([])) == Unlines(HEADER) && [] + kept == kept
  {
    assert HEADER + [] == HEADER;
  }

  method RenderSFTPConf(existing: string, desired: seq<Account>, p: string) returns (out: string)
    ensures out == Rendered(existing, desired, p)
  {
    var bs := SplitMatchBlocks(existing);
    var kept := KeepForeign(bs, p);
    NoBlocks(kept, desired);
    if |kept| == 0 && |desired| == 0 {
      return "";
    }
    out := Unlines(HEADER);
    HeaderFirst(kept);
    out := WriteBlocks(out, [], kept);
    out := WriteBlocks(out, kept, MatchBlocks(desired));
  }

  /** ftpRemovals: own users that are no longer wanted, each once. */
  method Removals(existing: seq<string>, desired: seq<Account>, p: string) returns (out: seq<string>)
    ensures Distinct(out)
    ensures forall u :: u in out <==> u in existing && HasPrefix(u, p) && forall a :: a in desired ==> a.user != u
  {
    var want := set a | a in desired :: a.user;
    out := [];
    var seen: set<string> := {};
    for i := 0 to |existing|
      invariant Distinct(out) && seen == set u | u in out
      invariant forall u :: u in out <==> u in existing[..i] && HasPrefix(u, p) && u !in want
    {
      var u := existing[i];
      assert existing[..i + 1] == existing[..i] + [u];
      if u !in want && HasPrefix(u, p) && u !in seen {
        seen := seen + {u};
        out := out + [u];
      }
    }
    assert existing[..|existing|] == existing;
  }
}
