/** The lifecycle operations as they change one target's files, step by step. */
module LifecycleFiles {
  import opened Common
  import opened Stubs
  import opened Lifecycle

  class TargetFiles {
    var conf: Option<Config>
    var bak: Option<Config>
    var enabled: bool

    function Now(): Files
      reads this
    {
      Files(conf, bak, enabled)
    }

    constructor (conf: Option<Config>, enabled: bool)
      ensures Now() == Files(conf, None, enabled)
    {
      this.conf, this.bak, this.enabled := conf, None, enabled;
    }

    /** AtomicWriteFile: stage and rename, or leave the file as it was. */
    method AtomicWrite(content: Config, e: Env) returns (ok: bool)
      modifies this`conf
      ensures ok == e.writes && conf == if ok then Some(content) else old(conf)
    {
      if e.writes {
        conf := Some(content);
      }
      return e.writes;
    }

    /** The file as it was seen, or no file if none was; both may fail unnoticed. */
    method RestoreFile(seen: Option<Config>, e: Env)
      requires conf.Some?
      modifies this`conf
      ensures conf == RolledBack(seen, old(conf).value, e)
    {
      if seen.Some? {
        conf := if e.leftover.None? then seen else e.leftover;
      } else if e.removes {
        conf := None;
      }
    }

    method SwapValidated(content: Config, e: Env) returns (ok: bool)
      modifies this`conf
      ensures (Now(), ok) == Swapped(old(Now()), Seen(old(Now()), e.rereads), content, e)
    {
      var backup := if e.rereads then conf else None;
      var written := AtomicWrite(content, e);
      if !written {
        return false;
      }
      if e.accepts {
        return true;
      }
      RestoreFile(backup, e);
      return false;
    }

    method EnsureSuspendBak(current: Config, e: Env) returns (made: bool, ok: bool)
      modifies this`bak
      ensures (Now(), made, ok) == BackedUp(old(Now()), current, e)
    {
      if bak.Some? {
        return false, e.bakStats;
      }
      match e.bakWrite
      case NotCreated =>
        return false, false;
      case WriteFailed(left) =>
        bak := Some(left);
        return false, false;
      case CloseFailed(left) =>
        bak := Some(left);
        return true, false;
      case Written =>
        bak := Some(current);
        return true, true;
    }

    method RemoveBackup(e: Env)
      modifies this`bak
      ensures Now() == DropBackup(old(Now()), e)
    {
      if e.unlinks {
        bak := None;
      }
    }

    /** lifeSuspendNginx and lifeSuspendApache; `render` makes the stub of the config read. */
    method SuspendSite(render: Config -> Option<Config>, e: Env) returns (res: Result)
      requires conf.Some?
      modifies this
      ensures (Now(), res) == SuspendWeb(old(Now()), old(conf).value, render(old(conf).value), e)
    {
      if !e.confReads {
        return Failed;
      }
      var current := conf.value;
      var stub := render(current);
      if stub.None? {
        return Failed;
      }
      if current == stub.value {
        return Unchanged;
      }
      var made, ok := EnsureSuspendBak(current, e);
      if !ok {
        return Failed;
      }
      if !e.toolPresent {
        ok := AtomicWrite(stub.value, e);
        return if ok then Changed else Failed;
      }
      var wasEnabled := enabled;
      enabled := e.links;
      if !e.links {
        return Failed;
      }
      ok := SwapValidated(stub.value, e);
      if !ok {
        if !wasEnabled {
          enabled := false;
        }
        if made {
          RemoveBackup(e);
        }
        return Failed;
      }
      return if e.reloads then Changed else Failed;
    }

    /** lifeResumeNginx and lifeResumeApache. */
    method ResumeSite(e: Env) returns (res: Result)
      modifies this
      ensures (Now(), res) == ResumeWeb(old(Now()), e)
    {
      if bak.None? {
        return Unchanged;
      }
      if !e.bakReads {
        return Failed;
      }
      var current: Config := if e.confReads && conf.Some? then conf.value else e.readSoFar;
      if current == bak.value {
        RemoveBackup(e);
        return Unchanged;
      }
      var ok;
      if !e.toolPresent {
        ok := AtomicWrite(bak.value, e);
        if !ok {
          return Failed;
        }
        RemoveBackup(e);
        return Changed;
      }
      ok := SwapValidated(bak.value, e);
      if !ok {
        return Failed;
      }
      RemoveBackup(e);
      return if e.reloads then Changed else Failed;
    }

    /** lifeSuspendOLS: the restart plays the validator's part. */
    method SuspendOlsSite(render: Config -> Option<Config>, e: Env) returns (res: Result)
      requires conf.Some?
      modifies this
      ensures (Now(), res) == SuspendOls(old(Now()), old(conf).value, render(old(conf).value), e)
    {
      if !e.confReads {
        return Failed;
      }
      var current := conf.value;
      var stub := render(current);
      if stub.None? {
        return Failed;
      }
      if current == stub.value {
        return Unchanged;
      }
      var made, ok := EnsureSuspendBak(current, e);
      if !ok {
        return Failed;
      }
      if !e.toolPresent {
        ok := AtomicWrite(stub.value, e);
        return if ok then Changed else Failed;
      }
      if !e.domainsMapped {
        return Failed;
      }
      ok := AtomicWrite(stub.value, e);
      if !ok {
        return Failed;
      }
      if !e.accepts {
        RestoreFile(Some(current), e);
        if made {
          RemoveBackup(e);
        }
        return Failed;
      }
      return Changed;
    }

    /** lifeResumeOLS. */
    method ResumeOlsSite(e: Env) returns (res: Result)
      modifies this
      ensures (Now(), res) == ResumeOls(old(Now()), e)
    {
      if bak.None? {
        return Unchanged;
      }
      if !e.bakReads {
        return Failed;
      }
      var prev := if e.confReads then conf else None;
      if (if prev.Some? then prev.value else []) == bak.value {
        RemoveBackup(e);
        return Unchanged;
      }
      var ok := AtomicWrite(bak.value, e);
      if !ok {
        return Failed;
      }
      if !e.toolPresent {
        RemoveBackup(e);
        return Changed;
      }
      if !e.accepts {
        RestoreFile(prev, e);
        return Failed;
      }
      RemoveBackup(e);
      return Changed;
    }
  }
}
