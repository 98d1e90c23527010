/**
 The durable bandwidth state: `bw_state.json`, its `.bak` generation and the
 `.tmp` staging file, with a save that can stop between any two file
 operations.
 */
module BwState {
  import opened Common
  import opened BwLog

  /** Read position in the log: file generation and first unprocessed byte. */
  datatype Checkpoint = Checkpoint(inode: nat, offset: int)

  /** The on-disk shape. A missing month is the empty string of the source. */
  datatype State = State(month: Option<Month>, chains: map<string, Month>, sites: Totals, log: Option<Checkpoint>)

  const EMPTY := State(None, map[], map[], None)

  /** File content: either a whole encoded state or bytes that do not parse. */
  datatype Blob = Torn | Whole(state: State)

  datatype FS = FS(cur: Option<Blob>, bak: Option<Blob>, tmp: Option<Blob>)

  function Decode(f: Option<Blob>): Option<State> {
    match f
    case Some(Whole(st)) => Some(st)
    case _ => None
  }

  /** loadBwState: the file, else its backup generation, else the empty state. */
  function Load(fs: FS): State {
    match Decode(fs.cur)
    case Some(st) => st
    case None =>
      match Decode(fs.bak)
      case Some(st) => st
      case None => EMPTY
  }

  /**
   How one save went. Each interrupted outcome stands both for an error return
   at that point and for a crash there; `left` is whatever a failed or torn
   write leaves in the staging file.
   */
  datatype SaveRun =
    | StopBeforeWrite
    | StopInWrite(left: Option<Blob>)
    | StopAfterWrite
    | StopAfterBackup(moved: bool)
    | Complete(moved: bool)

  /** First rename: the current file becomes the backup, if it can be moved. */
  function MoveToBackup(fs: FS, moved: bool): FS {
    if moved && fs.cur.Some? then fs.(cur := None, bak := fs.cur) else fs
  }

  function Save(fs: FS, st: State, run: SaveRun): FS {
    match run
    case StopBeforeWrite => fs
    case StopInWrite(left) => fs.(tmp := left)
    case StopAfterWrite => fs.(tmp := Some(Whole(st)))
    case StopAfterBackup(moved) => MoveToBackup(fs.(tmp := Some(Whole(st))), moved)
    case Complete(moved) => MoveToBackup(fs, moved).(cur := Some(Whole(st)), tmp := None)
  }

  /** The current file is absent or whole; no save ever makes it torn. */
  predicate Uncorrupted(fs: FS) {
    fs.cur != Some(Torn)
  }

  /** A sequence of saves: what was to be saved and how far each one got. */
  function SaveAll(fs: FS, saves: seq<(State, SaveRun)>): FS {
    if saves == [] then fs
    else
      var last := saves[|saves| - 1];
      Save(SaveAll(fs, saves[..|saves| - 1]), last.0, last.1)
  }

  /** The state of the last save that ran to its end, else the initial one. */
  function Committed(init: State, saves: seq<(State, SaveRun)>): State {
    if saves == [] then init
    else
      var last := saves[|saves| - 1];
      if last.1.Complete? then last.0 else Committed(init, saves[..|saves| - 1])
  }

  /** However saves are cut short, a load sees the last committed state, whole. */
  lemma {:induction false} LoadIsLastCommitted(fs: FS, saves: seq<(State, SaveRun)>)
    requires Uncorrupted(fs)
    ensures Uncorrupted(SaveAll(fs, saves))
    ensures Load(SaveAll(fs, saves)) == Committed(Load(fs), saves)
    decreases |saves|
  {
    if saves != [] {
      LoadIsLastCommitted(fs, saves[..|saves| - 1]);
    }
  }

  /**
   A corrupted current file is not survivable in general: an interrupted save
   can move it over the good backup. The loaded state outlives every
   interruption exactly when the current file parses or is absent, or when
   there was nothing to lose.
   */
  lemma {:induction false} InterruptedSaveKeepsStateIff(fs: FS, st: State)
    ensures (forall run: SaveRun :: !run.Complete? ==> Load(Save(fs, st, run)) == Load(fs))
            <==> (Uncorrupted(fs) || Load(fs) == EMPTY)
  {
    var run := StopAfterBackup(true);
    if !Uncorrupted(fs) {
      assert Load(Save(fs, st, run)) == EMPTY;
      assert !run.Complete?;
    }
  }

  /** A damaged file whose backup is good loses both to one interrupted save. */
  lemma {:induction false} CorruptionWitness() returns (fs: FS, st: State)
    ensures fs.cur == Some(Torn) && Load(fs) == st != EMPTY
    ensures Load(Save(fs, st, StopAfterBackup(true))) == EMPTY
  {
    st := State(Some(1), map[], map["a" := 7], None);
    fs := FS(Some(Torn), Some(Whole(st)), None);
  }

  // ---------------------------------------------------------------------
  // The backup generation
  // ---------------------------------------------------------------------

  /** The same files with the current one lost or unreadable. */
  function Damaged(fs: FS, torn: bool): FS {
    fs.(cur := if torn then Some(Torn) else None)
  }

  /** A completed save that moved the current file away keeps the generation before it, whole. */
  lemma {:induction false} BackupIsPrevious(fs: FS, st: State, torn: bool)
    requires Uncorrupted(fs) && fs.cur.Some?
    ensures var t := Save(fs, st, Complete(true));
            Load(t) == st && t.bak == fs.cur && t.tmp == None && Load(Damaged(t, torn)) == Load(fs)
  {
  }

  /**
   Damage to the current file after a completed save costs exactly that save if
   and only if the old file was moved to the backup, there was none to move, or
   the backup already held the same.
   */
  lemma {:induction false} DamageCostsOneSaveIff(fs: FS, st: State, moved: bool, torn: bool)
    requires Uncorrupted(fs)
    ensures Load(Damaged(Save(fs, st, Complete(moved)), torn)) == Load(fs)
            <==> moved || fs.cur.None? || Load(Damaged(fs, torn)) == Load(fs)
  {
  }

  predicate AllMoved(saves: seq<(State, SaveRun)>) {
    forall i :: 0 <= i < |saves| && saves[i].1.Complete? ==> saves[i].1.moved
  }

  predicate SomeComplete(saves: seq<(State, SaveRun)>) {
    exists i :: 0 <= i < |saves| && saves[i].1.Complete?
  }

  /** The state before the last save that ran to its end. */
  function Previous(init: State, saves: seq<(State, SaveRun)>): State {
    if saves == [] then init
    else
      var rest := saves[..|saves| - 1];
      if saves[|saves| - 1].1.Complete? then Committed(init, rest) else Previous(init, rest)
  }

  /** The same after any saves, whole or cut short. */
  lemma {:induction false} DamageInRunIff(fs: FS, saves: seq<(State, SaveRun)>, st: State, moved: bool, torn: bool)
    requires Uncorrupted(fs)
    ensures var before, t := SaveAll(fs, saves), SaveAll(fs, saves + [(st, Complete(moved))]);
            Load(Damaged(t, torn)) == Committed(Load(fs), saves) <==>
            moved || before.cur.None? || Load(Damaged(before, torn)) == Committed(Load(fs), saves)
  {
    LoadIsLastCommitted(fs, saves);
    Appended(saves, (st, Complete(moved)));
    DamageCostsOneSaveIff(SaveAll(fs, saves), st, moved, torn);
  }

  /**
   Whatever saves were made and cut short, as long as the old file could be moved
   each time, damage to the current file costs at most one generation.
   */
  lemma {:induction false} DamageCostsOneGeneration(fs: FS, saves: seq<(State, SaveRun)>, torn: bool)
    requires Uncorrupted(fs) && AllMoved(saves) && SomeComplete(saves)
    ensures var t := SaveAll(fs, saves);
            Load(Damaged(t, torn)) == if t.cur.None? then Committed(Load(fs), saves) else Previous(Load(fs), saves)
    decreases |saves|
  {
    var rest, last := saves[..|saves| - 1], saves[|saves| - 1];
    var before := SaveAll(fs, rest);
    LoadIsLastCommitted(fs, rest);
    LoadIsLastCommitted(fs, saves);
    if last.1.Complete? {
      assert saves[|saves| - 1].1.moved;
      DamageCostsOneSaveIff(before, last.0, true, torn);
    } else {
      var i :| 0 <= i < |saves| && saves[i].1.Complete?;
      assert rest[i].1.Complete?;
      DamageCostsOneGeneration(fs, rest, torn);
    }
  }

  /** The three files, changed in place by a save. */
  class Store {
    var cur: Option<Blob>
    var bak: Option<Blob>
    var tmp: Option<Blob>

    function Files(): FS
      reads this
    {
      FS(cur, bak, tmp)
    }

    constructor ()
      ensures Files() == FS(None, None, None)
    {
      cur, bak, tmp := None, None, None;
    }

    /** save: stamp the month, stage, keep the old generation, swap in the new. */
    method SaveState(s: State, now: Month, run: SaveRun) returns (ok: bool)
      modifies this
      ensures Files() == Save(old(Files()), s.(month := Some(now)), run)
      ensures ok == run.Complete?
    {
      var st := s.(month := Some(now));
      if run.StopBeforeWrite? {
        return false;
      }
      if run.StopInWrite? {
        tmp := run.left;
        return false;
      }
      tmp := Some(Whole(st));
      if run.StopAfterWrite? {
        return false;
      }
      if run.moved && cur.Some? {
        bak := cur;
        cur := None;
      }
      if run.StopAfterBackup? {
        return false;
      }
      cur := tmp;
      tmp := None;
      return true;
    }
  }
}
