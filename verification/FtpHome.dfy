/**
 Home directories of FTP accounts: validation looks at the cleaned path, the
 sshd drop-in holds the raw one.
 */
module FtpHome {
  import opened Common
  import opened Text
  import opened FtpSync

  /** The pieces of a path between slashes. */
  function Parts(path: string): seq<string>
    decreases |path|
  {
    var k := IndexFrom(path, '/', 0);
    if k == |path| then [path] else [path[..k]] + Parts(path[k + 1..])
  }

  /** One piece more: empty ones and dots are dropped, a double dot takes back the last. */
  function Walk(at: seq<string>, part: string): seq<string> {
    if part == "" || part == "." then at
    else if part == ".." then (if at == [] then [] else at[..|at| - 1])
    else at + [part]
  }

  function WalkAll(at: seq<string>, parts: seq<string>): seq<string>
    decreases |parts|
  {
    if parts == [] then at else WalkAll(Walk(at, parts[0]), parts[1..])
  }

  function Slashed(parts: seq<string>): string {
    if parts == [] then "" else "/" + parts[0] + Slashed(parts[1..])
  }

  /** filepath.Clean, for a path from the root. */
  function Clean(path: string): string {
    var at := WalkAll([], Parts(path));
    if at == [] then "/" else Slashed(at)
  }

  /** No blank, control character or quote. */
  predicate Printable(s: string) {
    forall i :: 0 <= i < |s| ==> s[i] >= '!' && s[i] != '\U{007F}' && s[i] != '"' && s[i] != '\''
  }

  /** ftpValidHomeDir; a path not from the root is cleaned to one that is not, and lies in no site tree. */
  predicate ValidHome(home: string, base: string) {
    && home != "" && home[0] == '/'
    && var c := Clean(home);
       && (c == base || HasPrefix(c, base + "/"))
       && Printable(c)
  }

  /** A piece of a clean path. */
  predicate Piece(p: string) {
    p !in {"", ".", ".."} && '/' !in p
  }

  predicate Pieces(ps: seq<string>) {
    forall i :: 0 <= i < |ps| ==> Piece(ps[i])
  }

  lemma {:induction false} PartsHaveNoSlash(path: string)
    ensures forall i :: 0 <= i < |Parts(path)| ==> '/' !in Parts(path)[i]
    decreases |path|
  {
    var k := IndexFrom(path, '/', 0);
    if k < |path| { PartsHaveNoSlash(path[k + 1..]); }
  }

  lemma {:induction false} WalkPieces(at: seq<string>, parts: seq<string>)
    requires Pieces(at) && forall i :: 0 <= i < |parts| ==> '/' !in parts[i]
    ensures Pieces(WalkAll(at, parts))
    decreases |parts|
  {
    if parts != [] { WalkPieces(Walk(at, parts[0]), parts[1..]); }
  }

  /** `c` is `base` or lies below it. */
  predicate Below(c: string, base: string) {
    c == base || HasPrefix(c, base + "/")
  }

  lemma {:induction false} BelowIs(c: string, base: string)
    ensures Below(c, base) <==> |base| <= |c| && c[..|base|] == base && (c[|base|..] == "" || c[|base|] == '/')
  {
    if HasPrefix(c, base + "/") {
      assert c[..|base|] == c[0..|base + "/"|][..|base|];
      assert c[|base|] == c[0..|base + "/"|][|base|];
    }
    if |base| < |c| && c[..|base|] == base && c[|base|] == '/' {
      assert c[0..|base + "/"|] == base + "/";
    }
  }

  lemma {:induction false} FirstPiece(p: string, rest: string)
    requires '/' !in p && (rest == "" || rest[0] == '/')
    ensures IndexFrom(p + rest, '/', 0) == |p| && (p + rest)[..|p|] == p && (p + rest)[|p|..] == rest
  {
    var s := p + rest;
    assert forall j :: 0 <= j < |p| ==> s[j] == p[j];
    assert rest != "" ==> s[|p|] == '/';
  }

  lemma {:induction false} BelowBegins(a: string, ra: string, b: string, rb: string)
    requires '/' !in a && '/' !in b && (ra == "" || ra[0] == '/') && (rb == "" || rb[0] == '/')
    requires Below("/" + a + ra, "/" + b + rb)
    ensures a == b && Below(ra, rb)
  {
    var c, base := "/" + a + ra, "/" + b + rb;
    BelowIs(c, base);
    var t := c[|base|..];
    assert c == base + t;
    assert a + ra == c[1..] == b + (rb + t);
    FirstPiece(a, ra);
    FirstPiece(b, rb + t);
    assert ra == rb + t;
    BelowIs(ra, rb);
  }

  /** A first piece in common, and then the rest: that is all of being below. */
  lemma {:induction false} BelowNext(a: string, ra: string, b: string, rb: string)
    requires '/' !in a && '/' !in b && (ra == "" || ra[0] == '/') && (rb == "" || rb[0] == '/')
    ensures Below("/" + a + ra, "/" + b + rb) <==> a == b && Below(ra, rb)
  {
    var c, base := "/" + a + ra, "/" + b + rb;
    if Below(c, base) { BelowBegins(a, ra, b, rb); }
    if a == b && Below(ra, rb) {
      BelowIs(ra, rb);
      BelowIs(c, base);
      var t := ra[|rb|..];
      assert ra == rb + t;
      assert c == base + t;
    }
  }

  lemma {:induction false} BelowSlashed(at: seq<string>, bs: seq<string>)
    requires Pieces(at) && Pieces(bs)
    ensures Below(Slashed(at), Slashed(bs)) <==> bs <= at
    decreases |at|
  {
    if bs == [] {
      BelowIs(Slashed(at), "");
    } else if at != [] {
      BelowSlashed(at[1..], bs[1..]);
      BelowNext(at[0], Slashed(at[1..]), bs[0], Slashed(bs[1..]));
      assert bs <= at <==> bs[0] == at[0] && bs[1..] <= at[1..];
    } else {
      BelowIs("", Slashed(bs));
    }
  }

  /**
   A home directory is accepted exactly when its pieces, with the double dots
   taken back, go on from those of the site's directory, and the path they make
   holds no blank, control character or quote.
   */
  lemma {:induction false} ValidHomeIff(home: string, bs: seq<string>)
    requires bs != [] && Pieces(bs)
    ensures var at := WalkAll([], Parts(home));
            && Pieces(at)
            && (ValidHome(home, Slashed(bs)) <==>
                  && home != "" && home[0] == '/' && bs <= at
                  && forall i :: 0 <= i < |Slashed(at)| ==>
                       Slashed(at)[i] > ' ' && Slashed(at)[i] !in ['"', '\'', '\U{007F}'])
  {
    var at := WalkAll([], Parts(home));
    PartsHaveNoSlash(home);
    WalkPieces([], Parts(home));
    BelowSlashed(at, bs);
    if at == [] { BelowIs("/", Slashed(bs)); }
  }

  /** A validated home directory that is written clean stays on its line. */
  lemma {:induction false} CleanHomeIsGood(home: string, base: string)
    requires ValidHome(home, base) && Clean(home) == home
    ensures '\n' !in home
  {
  }

  lemma {:induction false} PartsNext(part: string, rest: string)
    requires '/' !in part
    ensures Parts(part + ("/" + rest)) == [part] + Parts(rest)
  {
    var s := part + ("/" + rest);
    assert forall j :: 0 <= j < |part| ==> s[j] == part[j];
    assert s[|part|] == '/';
    assert IndexFrom(s, '/', 0) == |part|;
    assert s[..|part|] == part && s[|part| + 1..] == rest;
  }

  lemma {:induction false} WalkNext(at: seq<string>, part: string, rest: seq<string>)
    ensures WalkAll(at, [part] + rest) == WalkAll(Walk(at, part), rest)
  {
    assert ([part] + rest)[1..] == rest;
  }

  function Detour(base: string, part: string): string {
    "" + ("/" + (base + ("/" + (part + ("/" + "..")))))
  }

  lemma {:induction false} DetourParts(base: string, part: string)
    requires '/' !in base && '/' !in part
    ensures Parts(Detour(base, part)) == [""] + ([base] + ([part] + [".."]))
  {
    PartsNext("", base + ("/" + (part + ("/" + ".."))));
    PartsNext(base, part + ("/" + ".."));
    PartsNext(part, "..");
    assert Parts("..") == [".."];
  }

  lemma {:induction false} DetourWalk(base: string, part: string)
    requires base !in {"", ".", ".."} && part !in {"", ".", ".."}
    ensures WalkAll([], [""] + ([base] + ([part] + [".."]))) == [base]
  {
    WalkNext([], "", [base] + ([part] + [".."]));
    WalkNext([], base, [part] + [".."]);
    NothingAdded([base]);
    WalkNext([base], part, [".."]);
    WalkNext([base] + [part], "..", []);
    NothingAdded([".."]);
    Appended([base], part);
  }

  lemma {:induction false} OneSlash(part: string)
    ensures Slashed([part]) == "/" + part
  {
    assert [part][1..] == [] && Slashed([]) == "";
    assert Slashed([part]) == "/" + part + Slashed([part][1..]);
  }

  /** A path that goes into a piece and takes it back is cleaned to where it was. */
  lemma {:induction false} TakenBack(base: string, part: string)
    requires base !in {"", ".", ".."} && '/' !in base && part !in {"", ".", ".."} && '/' !in part
    ensures Clean(Detour(base, part)) == "/" + base
  {
    DetourParts(base, part);
    DetourWalk(base, part);
    OneSlash(base);
  }

  lemma {:induction false} ValidWhenClean(home: string, clean: string, base: string)
    requires home != "" && home[0] == '/' && Clean(home) == clean == "/" + base && Printable(base)
    ensures ValidHome(home, clean)
  {
  }

  lemma {:induction false} NewlineInside(base: string, part: string)
    requires '\n' in part
    ensures Detour(base, part) != "" && Detour(base, part)[0] == '/' && '\n' in Detour(base, part)
  {
    var s := Detour(base, part);
    assert forall i :: 0 <= i < |part| ==> s[|base| + 2 + i] == part[i];
  }

  /** Validation alone does not keep newlines out: cleaning takes the piece with the newline back. */
  lemma {:induction false} ValidHomeWithNewline(base: string, part: string) returns (home: string)
    requires base !in {"", ".", ".."} && '/' !in base && part !in {"", ".", ".."} && '/' !in part
    requires Printable(base) && '\n' in part
    ensures ValidHome(home, "/" + base) && '\n' in home
  {
    home := Detour(base, part);
    TakenBack(base, part);
    NewlineInside(base, part);
    ValidWhenClean(home, "/" + base, base);
  }

  lemma {:induction false} PieceOfLine(a: string, b: string, home: string, c: string, line: string)
    requires line == a + (b + (home + c)) && '\n' !in line
    ensures '\n' !in home
  {
    assert forall i :: 0 <= i < |home| ==> line[|a| + |b| + i] == home[i];
  }

  lemma {:induction false} HomeOnLine(a: Account)
    requires NoNewlines(MatchBlock(a).lines)
    ensures '\n' !in a.home
  {
    PieceOfLine("    ForceCommand ", "internal-sftp -d ", a.home, " -u 077", MatchBlock(a).lines[1]);
  }

  /**
   The drop-in reads back as the foreign blocks and the desired ones exactly
   when no desired home directory holds a newline.
   */
  lemma {:induction false} RenderedViewIff(existing: string, desired: seq<Account>, p: string)
    requires forall a :: a in desired ==> Word(a.user)
    ensures View(Rendered(existing, desired, p)) == Of(View(existing), p, false) + MatchBlocks(desired)
            <==> forall a :: a in desired ==> '\n' !in a.home
  {
    var kept, own := Of(View(existing), p, false), MatchBlocks(desired);
    if forall a :: a in desired ==> '\n' !in a.home {
      RenderedView(existing, desired, p);
    }
    if View(Rendered(existing, desired, p)) == kept + own {
      ViewNeat(Rendered(existing, desired, p));
      forall a | a in desired
        ensures '\n' !in a.home
      {
        var i :| 0 <= i < |desired| && desired[i] == a;
        assert own[i] in kept + own;
        HomeOnLine(a);
      }
    }
  }

  /** A sync shows its site's desired accounts exactly when none of their home directories holds a newline. */
  lemma {:induction false} SyncShowsIff(existing: string, y: Sync)
    requires forall a :: a in y.desired ==> Word(a.user) && HasPrefix(a.user, y.prefix)
    ensures Of(View(Rendered(existing, y.desired, y.prefix)), y.prefix, true) == MatchBlocks(y.desired)
            <==> forall a :: a in y.desired ==> '\n' !in a.home
  {
    var text, own := Rendered(existing, y.desired, y.prefix), MatchBlocks(y.desired);
    if forall a :: a in y.desired ==> '\n' !in a.home {
      assert GoodSync(y, |y.prefix|);
      SyncEffect(existing, y, |y.prefix|, y.prefix);
    }
    if Of(View(text), y.prefix, true) == own {
      ViewNeat(text);
      OfMembers(View(text), y.prefix, true);
      forall a | a in y.desired
        ensures '\n' !in a.home
      {
        var i :| 0 <= i < |y.desired| && y.desired[i] == a;
        assert own[i] in own;
        HomeOnLine(a);
      }
    }
  }
}
