/**
 Suspend, terminate and resume: a reversible state machine over the live
 config, its suspend backup and the enabled link of every web server that
 serves a site.
 */
module Lifecycle {
  import opened Common
  import opened Text
  import opened Stubs
  import opened StubLaws

  datatype Provider = Web(sv: Server) | Ols

  const OLS_BODY: Config := [
    "docRoot                   $VH_ROOT",
    "vhDomain                  $VH_NAME",
    "adminEmails               " + "admin@epicpanel.local",
    "enableGzip                1",
    "enableIpGeo               0",
    "errorlog " + "$VH_ROOT/logs/ols-error.log {",
    "  useServer               1",
    "  logLevel                ERROR",
    "}",
    "accesslog " + "$VH_ROOT/logs/ols-access.log {",
    "  useServer               1",
    "  rollingSize             10M",
    "}",
    ""]

  function OlsNote(k: Stub): string {
    if k.Terminated? then "# terminated: " + ("410 Gone for every " + "request (no PHP, no proxy)")
    else "# suspended: " + ("503 \"Account suspended\" " + ("for every " + "request (no PHP, no proxy)"))
  }

  /** OpenLiteSpeed stubs do not depend on the config they replace, nor on a reason page. */
  function OlsStub(id: string, k: Stub): Config {
    ["# managed by EpicPanel — website " + id + " (" + Kind(k) + ") — DO NOT EDIT"]
    + OLS_BODY
    + ["errorpage " + Status(k) + " {",
       "  url                     " + PAGES + "/" + Kind(k) + ".html",
       "}",
       "",
       OlsNote(k),
       "context / {",
       "  location                $VH_ROOT",
       "  allowBrowse             0",
       "  rewrite  {",
       "    enable                1",
       "    rewriteRule  ^/.*$  -  [R=" + Status(k) + ",L]",
       "  }",
       "}"]
    + (if k.Terminated? then [] else ["}"])
  }

  function StubFor(pv: Provider, id: string, conf: Config, k: Stub): Option<Config> {
    match pv
    case Web(sv) => StubOf(sv, id, conf, k)
    case Ols => Some(OlsStub(id, k))
  }

  /** The stub renderer of one site, as the state machine sees it. */
  type Renderer = (Provider, Config, Stub) -> Option<Config>

  function RendererOf(id: string): Renderer {
    (pv: Provider, conf: Config, k: Stub) => StubFor(pv, id, conf, k)
  }

  /** A stub renders to the same stubs as the config it replaces. */
  ghost predicate Stable(r: Renderer) {
    forall pv: Provider, c: Config, k1: Stub, k2: Stub ::
      r(pv, c, k1).Some? ==> r(pv, r(pv, c, k1).value, k2) == r(pv, c, k2)
  }

  lemma {:induction false} OlsStubOfStub(id: string, c: Config, k1: Stub, k2: Stub)
    ensures StubFor(Ols, id, StubFor(Ols, id, c, k1).value, k2) == StubFor(Ols, id, c, k2)
  {
  }

  /** For every config text and any two reasons, the stub of a stub is the stub. */
  lemma {:induction false} RendererIsStable(id: string)
    requires Solid(id)
    ensures Stable(RendererOf(id))
  {
    forall pv: Provider, c: Config, k1: Stub, k2: Stub | StubFor(pv, id, c, k1).Some?
      ensures StubFor(pv, id, StubFor(pv, id, c, k1).value, k2) == StubFor(pv, id, c, k2)
    {
      match pv
      case Web(sv) => StubOfStub(sv, id, c, k1, k2);
      case Ols => OlsStubOfStub(id, c, k1, k2);
    }
  }

  // ---------------------------------------------------------------------
  // One target
  // ---------------------------------------------------------------------

  /** The live config and its suspend backup, each None when there is no such file. */
  datatype Files = Files(conf: Option<Config>, bak: Option<Config>, enabled: bool)

  /**
   How creating the backup goes. A write or a close that fails leaves any
   content behind; a failed write that is cleaned up counts as not created.
   */
  datatype BackupWrite = Written | NotCreated | WriteFailed(left: Config) | CloseFailed(left: Config)

  /**
   What the surroundings do during one operation. `readSoFar` is what a read of
   the live config returns with its error; `rereads` is the second read
   of the live file, before a swap; `leftover` is the content a failed rollback
   write leaves behind, None when it works; `removes` and `unlinks` are the
   removals of the live file and of the backup.
   */
  datatype Env = Env(
    stats: bool, confReads: bool, readSoFar: Config, rereads: bool, bakStats: bool, bakReads: bool,
    bakWrite: BackupWrite,
    toolPresent: bool, domainsMapped: bool, writes: bool, links: bool,
    accepts: bool, leftover: Option<Config>, removes: bool, reloads: bool, unlinks: bool)

  datatype Result = Failed | Unchanged | Changed | Skipped

  /** Only a target whose live config is found is handled at all. */
  predicate Listed(f: Files, e: Env) {
    f.conf.Some? && e.stats
  }

  /** What a read of the live config returns, if it succeeds. */
  function Seen(f: Files, readable: bool): Option<Config> {
    if readable then f.conf else None
  }

  /** restoreFile: the content seen is written back, or the file removed if none was. */
  function RolledBack(seen: Option<Config>, content: Config, e: Env): Option<Config> {
    match seen
    case Some(prev) => Some(if e.leftover.None? then prev else e.leftover.value)
    case None => if e.removes then None else Some(content)
  }

  /** Write, judge, and on rejection put back what was seen before. */
  function Swapped(f: Files, seen: Option<Config>, content: Config, e: Env): (Files, bool) {
    if !e.writes then (f, false)
    else if e.accepts then (f.(conf := Some(content)), true)
    else (f.(conf := RolledBack(seen, content, e)), false)
  }

  /** lifeEnsureSuspendBak: the first pre-suspension config is the one kept. */
  function BackedUp(f: Files, current: Config, e: Env): (Files, bool, bool) {
    if f.bak.Some? then (f, false, e.bakStats)
    else
      match e.bakWrite
      case Written => (f.(bak := Some(current)), true, true)
      case NotCreated => (f, false, false)
      case WriteFailed(left) => (f.(bak := Some(left)), false, false)
      case CloseFailed(left) => (f.(bak := Some(left)), true, false)
  }

  function DropBackup(f: Files, e: Env): Files {
    if e.unlinks then f.(bak := None) else f
  }

  function SuspendWeb(f: Files, current: Config, stub: Option<Config>, e: Env): (Files, Result) {
    if !e.confReads || stub.None? then (f, Failed)
    else if current == stub.value then (f, Unchanged)
    else
      var (f1, made, ok) := BackedUp(f, current, e);
      if !ok then (f1, Failed)
      else if !e.toolPresent then
        if e.writes then (f1.(conf := stub), Changed) else (f1, Failed)
      else if !e.links then (f1.(enabled := false), Failed)
      else
        var (f2, swapped) := Swapped(f1.(enabled := true), Seen(f1, e.rereads), stub.value, e);
        if !swapped then
          var f3 := f2.(enabled := f1.enabled);
          (if made then DropBackup(f3, e) else f3, Failed)
        else (f2, if e.reloads then Changed else Failed)
  }

  /** The text a resume compares: of a config that fails to read, what was read before the error, or nothing. */
  function Compared(f: Files, e: Env, failed: Config): Config {
    match Seen(f, e.confReads)
    case Some(c) => c
    case None => failed
  }

  function ResumeWeb(f: Files, e: Env): (Files, Result) {
    if f.bak.None? then (f, Unchanged)
    else if !e.bakReads then (f, Failed)
    else if Compared(f, e, e.readSoFar) == f.bak.value then (DropBackup(f, e), Unchanged)
    else if !e.toolPresent then
      if e.writes then (DropBackup(f.(conf := f.bak), e), Changed) else (f, Failed)
    else
      var (f1, swapped) := Swapped(f, Seen(f, e.rereads), f.bak.value, e);
      if !swapped then (f1, Failed)
      else (DropBackup(f1, e), if e.reloads then Changed else Failed)
  }

  /** OpenLiteSpeed has no validator: a restart stands for it. */
  function SuspendOls(f: Files, current: Config, stub: Option<Config>, e: Env): (Files, Result) {
    if !e.confReads || stub.None? then (f, Failed)
    else if current == stub.value then (f, Unchanged)
    else
      var (f1, made, ok) := BackedUp(f, current, e);
      if !ok then (f1, Failed)
      else if !e.toolPresent then
        if e.writes then (f1.(conf := stub), Changed) else (f1, Failed)
      else if !e.domainsMapped then (f1, Failed)
      else
        var (f2, swapped) := Swapped(f1, Some(current), stub.value, e);
        if swapped then (f2, Changed)
        else (if made && e.writes then DropBackup(f2, e) else f2, Failed)
  }

  function ResumeOls(f: Files, e: Env): (Files, Result) {
    if f.bak.None? then (f, Unchanged)
    else if !e.bakReads then (f, Failed)
    else if Compared(f, e, []) == f.bak.value then (DropBackup(f, e), Unchanged)
    else if !e.toolPresent then
      if e.writes then (DropBackup(f.(conf := f.bak), e), Changed) else (f, Failed)
    else
      var (f1, swapped) := Swapped(f, Seen(f, e.confReads), f.bak.value, e);
      if swapped then (DropBackup(f1, e), Changed) else (f1, Failed)
  }

  /** A suspension for some reason, a termination, or a resume. */
  datatype Op = Suspend(k: Stub) | Resume

  function Step(r: Renderer, pv: Provider, f: Files, op: Op, e: Env): (Files, Result) {
    if !Listed(f, e) then (f, Skipped)
    else
      match op
      case Suspend(k) =>
        var current := f.conf.value;
        var stub := r(pv, current, k);
        if pv.Web? then SuspendWeb(f, current, stub, e) else SuspendOls(f, current, stub, e)
      case Resume => if pv.Web? then ResumeWeb(f, e) else ResumeOls(f, e)
  }

  // ---------------------------------------------------------------------
  // The original is never lost
  // ---------------------------------------------------------------------

  /** The original is the backup, or there is none and it is the live config. */
  predicate Kept(orig: Config, f: Files) {
    f.bak == Some(orig) || (f.bak == None && f.conf == Some(orig))
  }

  /** The suspension comes to the point of making the first backup. */
  predicate MakesBackup(f: Files, stub: Option<Config>, e: Env) {
    e.confReads && stub.Some? && f.conf != stub && f.bak.None?
  }

  /** A backup that failed half-way stays, and does not hold the config. */
  predicate Spoils(f: Files, stub: Option<Config>, e: Env) {
    && MakesBackup(f, stub, e)
    && (e.bakWrite.WriteFailed? || e.bakWrite.CloseFailed?) && Some(e.bakWrite.left) != f.conf
  }

  /** Rolling back leaves something else than the config it should restore. */
  predicate Misses(pv: Provider, f: Files, e: Env) {
    if pv.Web? && !e.rereads then true else e.leftover.Some? && e.leftover != f.conf
  }

  /** A new stub is rejected, its rollback misses, and the backup just made is removed. */
  predicate Discards(pv: Provider, f: Files, stub: Option<Config>, e: Env) {
    && MakesBackup(f, stub, e) && e.bakWrite == Written
    && e.toolPresent && (if pv.Web? then e.links else e.domainsMapped)
    && e.writes && !e.accepts && Misses(pv, f, e) && e.unlinks
  }

  /**
   What a failed read of the live config returned is taken for it, and is the
   original. OpenLiteSpeed drops it, so only an empty original can be mistaken.
   */
  predicate Mistakes(pv: Provider, f: Files, e: Env) {
    && f.bak == Some(if pv.Web? then e.readSoFar else []) && e.bakReads
    && !e.confReads && f.conf != f.bak
  }

  /** The three ways to lose an original. */
  predicate Loses(r: Renderer, pv: Provider, f: Files, op: Op, e: Env) {
    && Listed(f, e)
    && match op
       case Suspend(k) => var stub := r(pv, f.conf.value, k); Spoils(f, stub, e) || Discards(pv, f, stub, e)
       case Resume => Mistakes(pv, f, e) && e.unlinks
  }

  lemma {:induction false} SuspendKeptIff(pv: Provider, orig: Config, f: Files, current: Config, stub: Option<Config>,
                                          e: Env)
    requires Kept(orig, f) && f.conf == Some(current)
    ensures Kept(orig, (if pv.Web? then SuspendWeb(f, current, stub, e) else SuspendOls(f, current, stub, e)).0)
            <==> !(Spoils(f, stub, e) || Discards(pv, f, stub, e))
  {
  }

  lemma {:induction false} ResumeKeptIff(pv: Provider, orig: Config, f: Files, e: Env)
    requires Kept(orig, f) && f.conf.Some?
    ensures Kept(orig, (if pv.Web? then ResumeWeb(f, e) else ResumeOls(f, e)).0) <==> !(Mistakes(pv, f, e) && e.unlinks)
  {
  }

  /** Whatever reads, writes, removals, links, validators and reloads do, these are the only ways. */
  lemma {:induction false} OriginalKeptIff(r: Renderer, pv: Provider, orig: Config, f: Files, op: Op, e: Env)
    requires Kept(orig, f)
    ensures Kept(orig, Step(r, pv, f, op, e).0) <==> !Loses(r, pv, f, op, e)
  {
    if Listed(f, e) {
      match op
      case Suspend(k) => SuspendKeptIff(pv, orig, f, f.conf.value, r(pv, f.conf.value, k), e);
      case Resume => ResumeKeptIff(pv, orig, f, e);
    }
  }

  /** A resume of a listed target that does not fail shows the original, unless it mistook it. */
  lemma {:induction false} ResumeShowsIff(r: Renderer, pv: Provider, orig: Config, f: Files, e: Env)
    requires Kept(orig, f) && Listed(f, e) && Step(r, pv, f, Resume, e).1 != Failed
    ensures Step(r, pv, f, Resume, e).0.conf == Some(orig) <==> !Mistakes(pv, f, e)
  {
  }

  function TargetRun(r: Renderer, pv: Provider, f: Files, ops: seq<(Op, Env)>): Files {
    if ops == [] then f
    else
      var (op, e) := ops[|ops| - 1];
      Step(r, pv, TargetRun(r, pv, f, ops[..|ops| - 1]), op, e).0
  }

  predicate NeverLoses(r: Renderer, pv: Provider, f: Files, ops: seq<(Op, Env)>) {
    ops == [] ||
    var (op, e) := ops[|ops| - 1];
    NeverLoses(r, pv, f, ops[..|ops| - 1]) && !Loses(r, pv, TargetRun(r, pv, f, ops[..|ops| - 1]), op, e)
  }

  /** The original is kept at this point of a run. */
  function KeptAfter(r: Renderer, pv: Provider, orig: Config, f: Files): seq<(Op, Env)> -> bool {
    ops => Kept(orig, TargetRun(r, pv, f, ops))
  }

  /** The original is kept all along a run exactly when no operation loses it. */
  lemma {:induction false} OriginalSurvivesIff(r: Renderer, pv: Provider, orig: Config, f: Files, ops: seq<(Op, Env)>)
    requires Kept(orig, f)
    ensures Throughout(KeptAfter(r, pv, orig, f), ops) <==> NeverLoses(r, pv, f, ops)
    decreases |ops|
  {
    if ops == [] {
      assert ops[..0] == ops;
    } else {
      var init := ops[..|ops| - 1];
      var (op, e) := ops[|ops| - 1];
      OriginalSurvivesIff(r, pv, orig, f, init);
      ThroughoutNext(KeptAfter(r, pv, orig, f), ops);
      assert init[..|init|] == init;
      if Kept(orig, TargetRun(r, pv, f, init)) {
        OriginalKeptIff(r, pv, orig, TargetRun(r, pv, f, init), op, e);
      }
    }
  }

  /** All goes well. */
  const FINE := Env(true, true, [], true, true, true, Written, true, true, true, true, true, None, true, true, true)

  /** A rejected stub, a failed rollback, and the new backup is removed: the original is gone. */
  lemma {:induction false} FailedRollbackLosesOriginal(r: Renderer, pv: Provider, orig: Config, left: Config, k: Stub)
    requires r(pv, orig, k).Some? && r(pv, orig, k) != Some(orig) && left != orig
    ensures var e := FINE.(accepts := false, leftover := Some(left));
            Step(r, pv, Files(Some(orig), None, true), Suspend(k), e) == (Files(Some(left), None, true), Failed)
  {
  }

  /**
   A backup that is cut off and cannot be removed: the next suspension takes it
   for the original, and a resume that succeeds puts it live.
   */
  lemma {:induction false} PartialBackupLosesOriginal(r: Renderer, pv: Provider, orig: Config, left: Config, k: Stub)
    requires r(pv, orig, k).Some? && r(pv, orig, k) != Some(orig) && left != orig && r(pv, orig, k) != Some(left)
    ensures var f0 := Files(Some(orig), None, true);
            var (f1, res1) := Step(r, pv, f0, Suspend(k), FINE.(bakWrite := WriteFailed(left)));
            var (f2, res2) := Step(r, pv, f1, Suspend(k), FINE);
            var (f3, res3) := Step(r, pv, f2, Resume, FINE);
            && res1 == Failed && res2 == Changed && f2.conf == r(pv, orig, k)
            && res3 == Changed && f3 == Files(Some(left), None, true)
  {
  }

  /**
   A live config that a swap cannot read again is removed when the new one is
   rejected; a resume then finds no target and reports success with the
   original still in the backup.
   */
  lemma {:induction false} RemovedConfigIsNotResumed(r: Renderer, sv: Server, orig: Config, shown: Config, k: Stub)
    requires r(Web(sv), shown, k).Some? && r(Web(sv), shown, k) != Some(shown)
    ensures var (f1, res1) := Step(r, Web(sv), Files(Some(shown), Some(orig), true), Suspend(k),
        FINE.(rereads := false, accepts := false));
            res1 == Failed && f1 == Files(None, Some(orig), true) && Step(r, Web(sv), f1, Resume, FINE) == (f1, Skipped)
  {
  }

  /**
   A read of the live stub fails where the original, a start of it, ends: the
   resume takes the stub for the original and removes the backup.
   */
  lemma {:induction false} CutReadLosesOriginal(r: Renderer, sv: Server, orig: Config, shown: Config)
    requires orig <= shown && orig != shown
    ensures var e := FINE.(confReads := false, readSoFar := orig);
            Step(r, Web(sv), Files(Some(shown), Some(orig), true), Resume, e)
            == (Files(Some(shown), None, true), Unchanged)
  {
  }

  // ---------------------------------------------------------------------
  // What an operation shows
  // ---------------------------------------------------------------------

  lemma {:induction false} SuspendedFiles(pv: Provider, f: Files, current: Config, stub: Option<Config>, e: Env)
    requires f.conf == Some(current)
    ensures var (t, res) := if pv.Web? then SuspendWeb(f, current, stub, e) else SuspendOls(f, current, stub, e);
            && (res in {Unchanged, Changed} ==> stub.Some? && t.conf == stub)
            && (res == Unchanged <==> e.confReads && stub == f.conf) && (res == Unchanged ==> t == f)
            && (res == Changed ==> t.bak == if f.bak.Some? then f.bak else f.conf)
            && res != Skipped
  {
  }

  /**
   A suspension that does not fail shows its stub, with the config of before in
   the backup unless there is an older one; it finds nothing to do exactly when
   the stub is live already.
   */
  lemma {:induction false} SuspendShows(r: Renderer, pv: Provider, f: Files, k: Stub, e: Env)
    requires Listed(f, e)
    ensures var (t, res) := Step(r, pv, f, Suspend(k), e);
            && (res in {Unchanged, Changed} ==> t.conf.Some? && t.conf == r(pv, f.conf.value, k))
            && (res == Unchanged <==> e.confReads && r(pv, f.conf.value, k) == f.conf) && (res == Unchanged ==> t == f)
            && (res == Changed ==> t.bak == if f.bak.Some? then f.bak else f.conf)
            && res != Skipped
  {
    SuspendedFiles(pv, f, f.conf.value, r(pv, f.conf.value, k), e);
  }

  /** The backup a suspension needs is there, or it could be written. */
  predicate HasBackup(f: Files, e: Env) {
    if f.bak.Some? then e.bakStats else e.bakWrite == Written
  }

  /**
   A suspension succeeds exactly when the config can be read and rendered, and
   is the stub already or is backed up and replaced: written without a server
   installed, else linked or mapped, accepted and, under nginx and Apache,
   reloaded.
   */
  lemma {:induction false} SuspendSucceedsIff(r: Renderer, pv: Provider, f: Files, k: Stub, e: Env)
    requires Listed(f, e)
    ensures Step(r, pv, f, Suspend(k), e).1 in {Unchanged, Changed} <==>
            var stub := r(pv, f.conf.value, k);
            && e.confReads && stub.Some?
            && (stub == f.conf
                || (HasBackup(f, e) && e.writes
                    && (e.toolPresent ==> e.accepts && if pv.Web? then e.links && e.reloads else e.domainsMapped)))
  {
  }

  /** A resume succeeds exactly when there is no backup, or it can be read and is live or can be put live. */
  lemma {:induction false} ResumeSucceedsIff(r: Renderer, pv: Provider, f: Files, e: Env)
    requires Listed(f, e)
    ensures Step(r, pv, f, Resume, e).1 in {Unchanged, Changed} <==>
            || f.bak.None?
            || (e.bakReads
                && (f.bak == (if e.confReads then f.conf else Some(if pv.Web? then e.readSoFar else []))
                    || (e.writes && (e.toolPresent ==> e.accepts && (pv.Web? ==> e.reloads)))))
  {
  }

  /** A first backup was made for a config that was then rejected. */
  predicate RejectedAtFirst(f: Files, e: Env) {
    && f.bak.None? && e.bakWrite == Written && e.confReads
    && e.toolPresent && e.links && e.domainsMapped && e.writes && !e.accepts
  }

  /**
   A suspension that fails leaves the live config alone, unless its rollback
   misses or only the reload failed; a backup it made goes with a rejection.
   */
  lemma {:induction false} FailedSuspendLeaves(r: Renderer, pv: Provider, f: Files, k: Stub, e: Env)
    requires Listed(f, e) && Step(r, pv, f, Suspend(k), e).1 == Failed
    ensures var t := Step(r, pv, f, Suspend(k), e).0;
            && (t.conf == f.conf || (e.writes && !e.accepts && Misses(pv, f, e)) || (e.accepts && !e.reloads))
            && (RejectedAtFirst(f, e) && e.unlinks ==> t.bak == None)
  {
  }

  /** A stub that was tried and not taken: under OpenLiteSpeed only one that was written. */
  predicate NotTaken(pv: Provider, e: Env) {
    e.toolPresent && if pv.Web? then e.links && !(e.writes && e.accepts) else e.domainsMapped && e.writes && !e.accepts
  }

  /**
   The backup after a suspension that failed: an older one stays; a new one
   stays as it was written, whole or not, unless the stub was tried and not taken.
   */
  lemma {:induction false} BackupAfterFailure(r: Renderer, pv: Provider, f: Files, k: Stub, e: Env)
    requires Listed(f, e) && Step(r, pv, f, Suspend(k), e).1 == Failed
    ensures Step(r, pv, f, Suspend(k), e).0.bak ==
            if f.bak.Some? then f.bak
            else if !e.confReads || r(pv, f.conf.value, k).None? then None
            else match e.bakWrite
                 case NotCreated => None
                 case WriteFailed(left) => Some(left)
                 case CloseFailed(left) => Some(left)
                 case Written => if NotTaken(pv, e) && e.unlinks then None else f.conf
  {
  }

  /** The enabled link: set for a new stub, put back when it is rejected, gone when linking fails. */
  lemma {:induction false} LinkAfterSuspend(r: Renderer, sv: Server, f: Files, k: Stub, e: Env)
    requires Listed(f, e) && e.confReads && e.toolPresent
    requires var stub := r(Web(sv), f.conf.value, k); stub.Some? && stub != f.conf
    requires f.bak.Some? && e.bakStats
    ensures Step(r, Web(sv), f, Suspend(k), e).0.enabled <==> e.links && (f.enabled || (e.writes && e.accepts))
  {
  }

  /** A resume that put the original back, or found it live, removes the backup, and touches no link. */
  lemma {:induction false} ResumeCleansUp(r: Renderer, pv: Provider, f: Files, e: Env)
    requires Listed(f, e)
    ensures var (t, res) := Step(r, pv, f, Resume, e);
            && t.enabled == f.enabled && res != Skipped
            && (res in {Unchanged, Changed} && e.unlinks ==> t.bak == None)
            && (res == Changed ==> f.bak.Some? && t.conf == f.bak)
            && (res == Unchanged ==> t.conf == f.conf)
            && (res == Failed ==> f.bak.Some? && (t.conf == f.conf || (e.writes && (!e.accepts || !e.reloads))))
  {
  }

  // ---------------------------------------------------------------------
  // Only the original and its stubs
  // ---------------------------------------------------------------------

  /** Not suspended and untouched, or backed up and showing the original or its stub. */
  ghost predicate Law(r: Renderer, pv: Provider, orig: Config, f: Files) {
    || (f.bak == None && f.conf == Some(orig))
    || (f.bak == Some(orig) && (f.conf == Some(orig) || exists k :: r(pv, orig, k).Some? && r(pv, orig, k) == f.conf))
  }

  /** A rejected config is put back, a failed backup is whole, and no unreadable file passes for an empty one. */
  predicate Benign(pv: Provider, f: Files, e: Env) {
    && (e.accepts || (e.leftover.None? && e.rereads && e.confReads))
    && (e.bakWrite.WriteFailed? || e.bakWrite.CloseFailed? ==> Some(e.bakWrite.left) == f.conf)
    && !Mistakes(pv, f, e)
  }

  lemma {:induction false} SameStub(r: Renderer, pv: Provider, orig: Config, f: Files, k: Stub)
    requires Stable(r) && Law(r, pv, orig, f)
    ensures f.conf.Some? && r(pv, f.conf.value, k) == r(pv, orig, k)
  {
    if f.conf != Some(orig) {
      var k0 :| r(pv, orig, k0).Some? && r(pv, orig, k0) == f.conf;
      assert r(pv, r(pv, orig, k0).value, k) == r(pv, orig, k);
    }
  }

  lemma {:induction false} SuspendKeepsLaw(r: Renderer, pv: Provider, orig: Config, f: Files, k: Stub, e: Env)
    requires Stable(r) && Law(r, pv, orig, f) && Benign(pv, f, e)
    ensures Law(r, pv, orig, Step(r, pv, f, Suspend(k), e).0)
  {
    SameStub(r, pv, orig, f, k);
  }

  lemma {:induction false} ResumeKeepsLaw(r: Renderer, pv: Provider, orig: Config, f: Files, e: Env)
    requires Law(r, pv, orig, f) && Benign(pv, f, e)
    ensures Law(r, pv, orig, Step(r, pv, f, Resume, e).0)
    ensures Step(r, pv, f, Resume, e).1 in {Unchanged, Changed} ==> Step(r, pv, f, Resume, e).0.conf == Some(orig)
  {
  }

  /** A repeated suspension with the same reason and page finds nothing to do. */
  lemma {:induction false} RepeatedSuspendIsNoOp(r: Renderer, pv: Provider, orig: Config, f: Files, k: Stub, e: Env,
                                                 e': Env)
    requires Stable(r) && Law(r, pv, orig, f) && Benign(pv, f, e) && e'.confReads && e'.stats
    requires Step(r, pv, f, Suspend(k), e).1 in {Unchanged, Changed}
    ensures var f1 := Step(r, pv, f, Suspend(k), e).0;
            && f1.conf.Some? && r(pv, orig, k) == f1.conf
            && Step(r, pv, f1, Suspend(k), e') == (f1, Unchanged)
  {
    var f1 := Step(r, pv, f, Suspend(k), e).0;
    SameStub(r, pv, orig, f, k);
    SuspendKeepsLaw(r, pv, orig, f, k, e);
    SameStub(r, pv, orig, f1, k);
  }

  // ---------------------------------------------------------------------
  // All targets of a site, over whole runs
  // ---------------------------------------------------------------------

  datatype Target = Target(pv: Provider, files: Files)

  /** Targets are handled in order and the first failure ends the operation. */
  function SiteStep(r: Renderer, ts: seq<Target>, op: Op, es: seq<Env>): (res: (seq<Target>, bool))
    requires |es| == |ts|
    ensures |res.0| == |ts|
  {
    if ts == [] then ([], true)
    else
      var (f, out) := Step(r, ts[0].pv, ts[0].files, op, es[0]);
      if out == Failed then ([ts[0].(files := f)] + ts[1..], false)
      else
        var (rest, ok) := SiteStep(r, ts[1..], op, es[1..]);
        ([ts[0].(files := f)] + rest, ok)
  }

  /** The targets up to `n` are stepped, the rest as before. */
  predicate Stepped(r: Renderer, ts: seq<Target>, op: Op, es: seq<Env>, out: seq<Target>, n: nat) {
    |es| == |ts| == |out| &&
    forall i :: 0 <= i < |ts| ==>
      out[i] == if i <= n then ts[i].(files := Step(r, ts[i].pv, ts[i].files, op, es[i]).0) else ts[i]
  }

  /** The first target that fails, if any, is the one at `n`. */
  predicate FirstFailure(r: Renderer, ts: seq<Target>, op: Op, es: seq<Env>, n: nat) {
    && |es| == |ts| && n <= |ts|
    && (forall i :: 0 <= i < n ==> Step(r, ts[i].pv, ts[i].files, op, es[i]).1 != Failed)
    && (n < |ts| ==> Step(r, ts[n].pv, ts[n].files, op, es[n]).1 == Failed)
  }

  lemma {:induction false} SteppedCons(r: Renderer, t: Target, ts: seq<Target>, op: Op, e: Env, es: seq<Env>,
                                       rest: seq<Target>, m: nat)
    requires Stepped(r, ts, op, es, rest, m)
    ensures Stepped(r, [t] + ts, op, [e] + es, [t.(files := Step(r, t.pv, t.files, op, e).0)] + rest, m + 1)
  {
  }

  lemma {:induction false} FailureCons(r: Renderer, t: Target, ts: seq<Target>, op: Op, e: Env, es: seq<Env>, m: nat)
    requires FirstFailure(r, ts, op, es, m) && Step(r, t.pv, t.files, op, e).1 != Failed
    ensures FirstFailure(r, [t] + ts, op, [e] + es, m + 1)
  {
  }

  lemma {:induction false} StopsHere(r: Renderer, t: Target, ts: seq<Target>, op: Op, e: Env, es: seq<Env>)
    requires |es| == |ts| && Step(r, t.pv, t.files, op, e).1 == Failed
    ensures Stepped(r, [t] + ts, op, [e] + es, SiteStep(r, [t] + ts, op, [e] + es).0, 0)
    ensures FirstFailure(r, [t] + ts, op, [e] + es, 0) && !SiteStep(r, [t] + ts, op, [e] + es).1
  {
  }

  lemma {:induction false} GoesOn(r: Renderer, t: Target, ts: seq<Target>, op: Op, e: Env, es: seq<Env>)
    requires |es| == |ts| && Step(r, t.pv, t.files, op, e).1 != Failed
    ensures var (rest, ok) := SiteStep(r, ts, op, es);
            SiteStep(r, [t] + ts, op, [e] + es) == ([t.(files := Step(r, t.pv, t.files, op, e).0)] + rest, ok)
  {
    assert ([t] + ts)[1..] == ts && ([e] + es)[1..] == es;
  }

  /** An operation succeeds exactly when no target fails; the first that fails is the last that is stepped. */
  predicate StopsAt(r: Renderer, ts: seq<Target>, op: Op, es: seq<Env>, n: nat) {
    && FirstFailure(r, ts, op, es, n)
    && Stepped(r, ts, op, es, SiteStep(r, ts, op, es).0, n)
    && (SiteStep(r, ts, op, es).1 <==> n == |ts|)
  }

  lemma {:induction false} StopsCons(r: Renderer, t: Target, ts: seq<Target>, op: Op, e: Env, es: seq<Env>, m: nat)
    returns (n: nat)
    requires StopsAt(r, ts, op, es, m)
    ensures StopsAt(r, [t] + ts, op, [e] + es, n)
  {
    if Step(r, t.pv, t.files, op, e).1 == Failed {
      StopsHere(r, t, ts, op, e, es);
      n := 0;
    } else {
      GoesOn(r, t, ts, op, e, es);
      SteppedCons(r, t, ts, op, e, es, SiteStep(r, ts, op, es).0, m);
      FailureCons(r, t, ts, op, e, es, m);
      n := m + 1;
    }
  }

  /**
   The operation succeeds exactly when no target fails; when one does, the ones
   before it are done and the ones after it untouched.
   */
  lemma {:induction false} SiteStopsAtFailure(r: Renderer, ts: seq<Target>, op: Op, es: seq<Env>)
    returns (n: nat)
    requires |es| == |ts|
    ensures StopsAt(r, ts, op, es, n)
    decreases |ts|
  {
    n := 0;
    if ts != [] {
      var m := SiteStopsAtFailure(r, ts[1..], op, es[1..]);
      SplitFirst(ts);
      SplitFirst(es);
      n := StopsCons(r, ts[0], ts[1..], op, es[0], es[1..], m);
    }
  }

  /** One of the targets the operation comes to loses its original. */
  predicate SiteLoses(r: Renderer, ts: seq<Target>, op: Op, es: seq<Env>)
    requires |es| == |ts|
  {
    ts != [] &&
    (Loses(r, ts[0].pv, ts[0].files, op, es[0])
     || (Step(r, ts[0].pv, ts[0].files, op, es[0]).1 != Failed && SiteLoses(r, ts[1..], op, es[1..])))
  }

  predicate SiteKept(origs: seq<Config>, ts: seq<Target>) {
    |origs| == |ts| && forall i :: 0 <= i < |ts| ==> Kept(origs[i], ts[i].files)
  }

  lemma {:induction false} KeptCons(t: Target, ts: seq<Target>, orig: Config, origs: seq<Config>)
    ensures SiteKept([orig] + origs, [t] + ts) <==> Kept(orig, t.files) && SiteKept(origs, ts)
  {
    var os, us := [orig] + origs, [t] + ts;
    assert os[0] == orig && us[0] == t;
    if SiteKept(os, us) {
      forall i | 0 <= i < |ts| ensures Kept(origs[i], ts[i].files) {
        assert os[i + 1] == origs[i] && us[i + 1] == ts[i];
      }
    }
  }

  /** An operation on a site keeps every original exactly when no target it comes to loses its own. */
  lemma {:induction false} SiteKeptIff(r: Renderer, origs: seq<Config>, ts: seq<Target>, op: Op, es: seq<Env>)
    requires SiteKept(origs, ts) && |es| == |ts|
    ensures SiteKept(origs, SiteStep(r, ts, op, es).0) <==> !SiteLoses(r, ts, op, es)
    decreases |ts|
  {
    if ts != [] {
      var t := ts[0];
      var (f, out) := Step(r, t.pv, t.files, op, es[0]);
      var t' := t.(files := f);
      assert origs == [origs[0]] + origs[1..];
      OriginalKeptIff(r, t.pv, origs[0], t.files, op, es[0]);
      if out == Failed {
        KeptCons(t', ts[1..], origs[0], origs[1..]);
      } else {
        SiteKeptIff(r, origs[1..], ts[1..], op, es[1..]);
        KeptCons(t', SiteStep(r, ts[1..], op, es[1..]).0, origs[0], origs[1..]);
      }
    }
  }

  /** A resume of the site that succeeds shows the original of every target it found. */
  lemma {:induction false} SiteResumeShows(r: Renderer, origs: seq<Config>, ts: seq<Target>, es: seq<Env>, i: nat)
    requires SiteKept(origs, ts) && |es| == |ts| && SiteStep(r, ts, Resume, es).1
    requires i < |ts| && Listed(ts[i].files, es[i])
    ensures SiteStep(r, ts, Resume, es).0[i].files.conf == Some(origs[i]) <==> !Mistakes(ts[i].pv, ts[i].files, es[i])
    decreases |ts|
  {
    if i == 0 {
      ResumeShowsIff(r, ts[0].pv, origs[0], ts[0].files, es[0]);
    } else {
      SiteResumeShows(r, origs[1..], ts[1..], es[1..], i - 1);
    }
  }

  datatype Call = Call(op: Op, envs: seq<Env>)

  function Run(r: Renderer, ts: seq<Target>, calls: seq<Call>): (s: seq<Target>)
    ensures |s| == |ts|
  {
    if calls == [] then ts
    else
      var s := Run(r, ts, calls[..|calls| - 1]);
      var c := calls[|calls| - 1];
      if |c.envs| == |s| then SiteStep(r, s, c.op, c.envs).0 else s
  }

  predicate RunNeverLoses(r: Renderer, ts: seq<Target>, calls: seq<Call>) {
    calls == [] ||
    var s, c := Run(r, ts, calls[..|calls| - 1]), calls[|calls| - 1];
    RunNeverLoses(r, ts, calls[..|calls| - 1]) && (|c.envs| == |s| ==> !SiteLoses(r, s, c.op, c.envs))
  }

  lemma {:induction false} RunKeeps(r: Renderer, origs: seq<Config>, ts: seq<Target>, calls: seq<Call>)
    requires SiteKept(origs, ts) && RunNeverLoses(r, ts, calls)
    ensures SiteKept(origs, Run(r, ts, calls))
    decreases |calls|
  {
    if calls != [] {
      var s, c := Run(r, ts, calls[..|calls| - 1]), calls[|calls| - 1];
      RunKeeps(r, origs, ts, calls[..|calls| - 1]);
      if |c.envs| == |s| { SiteKeptIff(r, origs, s, c.op, c.envs); }
    }
  }

  /** Live configs without backups: where a site starts. */
  predicate Unsuspended(origs: seq<Config>, ts: seq<Target>) {
    |origs| == |ts| && forall i :: 0 <= i < |ts| ==> ts[i].files.bak == None && ts[i].files.conf == Some(origs[i])
  }

  /**
   From configs with no backup, after every sequence of suspensions,
   terminations and resumes in which no original was lost in one of the three
   ways, a resume that succeeds shows the original of every target it found,
   unless it took an unreadable file for an empty original.
   */
  lemma {:induction false} LifecycleIsReversible(id: string, origs: seq<Config>, ts: seq<Target>, calls: seq<Call>,
                                                 es: seq<Env>)
    requires Unsuspended(origs, ts) && RunNeverLoses(RendererOf(id), ts, calls) && |es| == |ts|
    ensures var s := Run(RendererOf(id), ts, calls);
            && SiteKept(origs, s)
            && (SiteStep(RendererOf(id), s, Resume, es).1 ==>
                  forall i :: 0 <= i < |s| && Listed(s[i].files, es[i]) && !Mistakes(s[i].pv, s[i].files, es[i]) ==>
                    SiteStep(RendererOf(id), s, Resume, es).0[i].files.conf == Some(origs[i]))
  {
    var r := RendererOf(id);
    RunKeeps(r, origs, ts, calls);
    var s := Run(r, ts, calls);
    if SiteStep(r, s, Resume, es).1 {
      forall i | 0 <= i < |s| && Listed(s[i].files, es[i]) && !Mistakes(s[i].pv, s[i].files, es[i])
        ensures SiteStep(r, s, Resume, es).0[i].files.conf == Some(origs[i])
      {
        SiteResumeShows(r, origs, s, es, i);
      }
    }
  }

  ghost predicate SiteLaw(r: Renderer, origs: seq<Config>, ts: seq<Target>) {
    |origs| == |ts| && forall i :: 0 <= i < |ts| ==> Law(r, ts[i].pv, origs[i], ts[i].files)
  }

  predicate AllBenign(ts: seq<Target>, es: seq<Env>) {
    |es| == |ts| && forall i :: 0 <= i < |ts| ==> Benign(ts[i].pv, ts[i].files, es[i])
  }

  lemma {:induction false} StepKeepsLaw(r: Renderer, pv: Provider, orig: Config, f: Files, op: Op, e: Env)
    requires Stable(r) && Law(r, pv, orig, f) && Benign(pv, f, e)
    ensures Law(r, pv, orig, Step(r, pv, f, op, e).0)
  {
    match op
    case Suspend(k) => SuspendKeepsLaw(r, pv, orig, f, k, e);
    case Resume => ResumeKeepsLaw(r, pv, orig, f, e);
  }

  lemma {:induction false} LawCons(r: Renderer, t: Target, ts: seq<Target>, orig: Config, origs: seq<Config>)
    requires SiteLaw(r, origs, ts) && Law(r, t.pv, orig, t.files)
    ensures SiteLaw(r, [orig] + origs, [t] + ts)
  {
  }

  lemma {:induction false} SiteStepKeepsLaw(r: Renderer, origs: seq<Config>, ts: seq<Target>, op: Op, es: seq<Env>)
    requires Stable(r) && SiteLaw(r, origs, ts) && AllBenign(ts, es)
    ensures SiteLaw(r, origs, SiteStep(r, ts, op, es).0)
    decreases |ts|
  {
    if ts != [] {
      var t := ts[0];
      StepKeepsLaw(r, t.pv, origs[0], t.files, op, es[0]);
      var (f, out) := Step(r, t.pv, t.files, op, es[0]);
      var t' := t.(files := f);
      assert origs == [origs[0]] + origs[1..];
      if out == Failed {
        LawCons(r, t', ts[1..], origs[0], origs[1..]);
      } else {
        SiteStepKeepsLaw(r, origs[1..], ts[1..], op, es[1..]);
        LawCons(r, t', SiteStep(r, ts[1..], op, es[1..]).0, origs[0], origs[1..]);
      }
    }
  }

  predicate RunBenign(r: Renderer, ts: seq<Target>, calls: seq<Call>) {
    calls == [] ||
    (RunBenign(r, ts, calls[..|calls| - 1]) && AllBenign(Run(r, ts, calls[..|calls| - 1]), calls[|calls| - 1].envs))
  }

  /** In a benign run every target shows its original or one of its stubs, backed up by the original. */
  lemma {:induction false} RunKeepsLaw(id: string, origs: seq<Config>, ts: seq<Target>, calls: seq<Call>)
    requires Solid(id) && Unsuspended(origs, ts) && RunBenign(RendererOf(id), ts, calls)
    ensures SiteLaw(RendererOf(id), origs, Run(RendererOf(id), ts, calls))
    decreases |calls|
  {
    if calls != [] {
      var r := RendererOf(id);
      var n := |calls| - 1;
      RendererIsStable(id);
      RunKeepsLaw(id, origs, ts, calls[..n]);
      SiteStepKeepsLaw(r, origs, Run(r, ts, calls[..n]), calls[n].op, calls[n].envs);
    }
  }
}
