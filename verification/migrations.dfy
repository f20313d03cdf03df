/** The boot-time migration state machine (internal/db/db.go).

    A database remembers one version and one dirty flag. A start of the server
    applies the files above that version one at a time: mark the version dirty,
    run the file, clear the flag. The process can die after any of these writes
    and a file can fail. Migrate rewinds what it finds or leaves unfinished, so
    that the file runs again.

    The database itself never stores which files ran. The model keeps that as a
    journal, so that "nothing skipped, nothing run twice" can be said.
 */
module Migrations {

  /** An empty schema_migrations. */
  const NO_VERSION := -1

  /** What a file left in the schema: all of itself, or a part of itself. */
  datatype Effect = Whole(version: int) | Part(version: int)

  /** What survives the process. */
  datatype Database = Database(version: int, dirty: bool, journal: seq<Effect>)

  /** One start of the server.
      - head: the highest migration this build carries; files are numbered 1..head
      - life: how many writes reach the database before the process dies
      - failing: the files Postgres rejects during this start
      - leaky: the files that leave a part behind when they do not finish;
        only a file that breaks out of its transaction can
   */
  datatype Boot = Boot(head: nat, life: nat, failing: set<int>, leaky: set<int>)

  datatype Outcome = Finished | FoundDirty(at: int) | Failed | Killed

  /** A database after some steps, with the writes the process has left. */
  datatype Run = Run(db: Database, life: nat, outcome: Outcome)

  datatype Rewinding = Rewound | Refusal | Dying

  datatype Exit =
    | Ok
    | Error(failed: int)   // the file that failed, or UNKNOWN_VERSION
    | Refused(at: int)     // left dirty: the file cannot be retried automatically
    | Ahead                // a newer build migrated this database
    | Died

  const UNKNOWN_VERSION := -1

  datatype Start = Start(db: Database, exit: Exit)

  /** The highest file a recorded version claims. */
  function Top(version: int): int {
    if version == NO_VERSION then 0 else version
  }

  /** Files 1 to n, each run once, in order. */
  function Wholes(n: nat): (w: seq<Effect>)
    ensures |w| == n
  {
    if n == 0 then [] else Wholes(n - 1) + [Whole(n)]
  }

  /** The version before v, as it is stored. */
  function Before(v: int): int {
    if v - 1 < 1 then NO_VERSION else v - 1
  }

  // ---- the steps, as functions of the database -------------------------------

  /** What a file that did not finish leaves. Postgres rolls it back, unless it
      is one of the files that break out of the transaction. */
  function Remains(d: Database, v: int, b: Boot, blocked: set<int>): Database {
    if v in blocked && v in b.leaky then d.(journal := d.journal + [Part(v)]) else d
  }

  /** One file: mark dirty, run, clear the flag. */
  function Attempt(d: Database, v: int, life: nat, b: Boot, blocked: set<int>): Run {
    var started := d.(version := v, dirty := true);
    if life == 0 then Run(d, 0, Killed)
    else if life == 1 then Run(Remains(started, v, b, blocked), 0, Killed)
    else if v in b.failing then Run(Remains(started, v, b, blocked), life - 1, Failed)
    else
      var committed := started.(journal := d.journal + [Whole(v)]);
      if life == 2 then Run(committed, 0, Killed)
      else Run(committed.(dirty := false), life - 3, Finished)
  }

  /** Every file above the recorded version, in order, until one does not finish. */
  function ApplyFrom(d: Database, life: nat, b: Boot, blocked: set<int>): Run
    requires Top(d.version) >= 0
    decreases b.head - Top(d.version)
  {
    var v := Top(d.version) + 1;
    if v > b.head then Run(d, life, Finished)
    else
      var a := Attempt(d, v, life, b, blocked);
      if a.outcome == Finished then ApplyFrom(a.db, a.life, b, blocked) else a
  }

  /** The migrator library's Up. */
  function Up(d: Database, life: nat, b: Boot, blocked: set<int>): Run {
    if d.dirty then Run(d, life, FoundDirty(d.version))
    else if d.version != NO_VERSION && !(1 <= d.version <= b.head) then Run(d, life, Failed)
    else ApplyFrom(d, life, b, blocked)
  }

  /** rewind: put the version back to before v, unless the file is not in this
      build or may have left something behind. */
  function Rewind(d: Database, v: int, life: nat, b: Boot, blocked: set<int>): (Database, nat, Rewinding) {
    if !(1 <= v <= b.head) || v in blocked then (d, life, Refusal)
    else if life == 0 then (d, 0, Dying)
    else (d.(version := Before(v), dirty := false), life - 1, Rewound)
  }

  /** What runUp does with the result of its last Up. */
  function Settle(u: Run, b: Boot, blocked: set<int>): Start {
    match u.outcome
    case Finished => Start(u.db, Ok)
    case Killed => Start(u.db, Died)
    case _ =>
      if !u.db.dirty then Start(u.db, Error(UNKNOWN_VERSION))
      else
        var (db, _, r) := Rewind(u.db, u.db.version, u.life, b, blocked);
        Start(db, match r
                  case Rewound => Error(u.db.version)
                  case Refusal => Refused(u.db.version)
                  case Dying => Died)
  }

  function RunUp(d: Database, b: Boot, blocked: set<int>): Start {
    var u := Up(d, b.life, b, blocked);
    if !u.outcome.FoundDirty? then Settle(u, b, blocked)
    else
      var (db, life, r) := Rewind(u.db, u.outcome.at, u.life, b, blocked);
      match r
      case Refusal => Start(db, Refused(u.outcome.at))
      case Dying => Start(db, Died)
      case Rewound => Settle(Up(db, life, b, blocked), b, blocked)
  }

  function Migrate(d: Database, b: Boot, blocked: set<int>): Start {
    if b.head == 0 then Start(d, Error(UNKNOWN_VERSION))
    else if d.version != NO_VERSION && d.version > b.head then Start(d, Ahead)
    else RunUp(d, b, blocked)
  }

  // ---- the code's own form ---------------------------------------------------

  /** A migrator open on one database: the steps above, as the writes they are. */
  class Migrator {
    const boot: Boot
    const blocked: set<int>
    var version: int
    var dirty: bool
    var journal: seq<Effect>
    var life: nat

    ghost function Db(): Database
      reads this
    {
      Database(version, dirty, journal)
    }

    constructor (d: Database, boot: Boot, blocked: set<int>)
      ensures Db() == d && life == boot.life
      ensures this.boot == boot && this.blocked == blocked
    {
      this.boot, this.blocked := boot, blocked;
      version, dirty, journal, life := d.version, d.dirty, d.journal, boot.life;
    }

    /** Runs one file. */
    method RunFile(v: int) returns (outcome: Outcome)
      modifies this
      ensures Run(Db(), life, outcome) == Attempt(old(Db()), v, old(life), boot, blocked)
    {
      if life == 0 { return Killed; }
      version, dirty, life := v, true, life - 1;
      if life == 0 || v in boot.failing {
        if v in blocked && v in boot.leaky {
          journal := journal + [Part(v)];
        }
        return if life == 0 then Killed else Failed;
      }
      journal, life := journal + [Whole(v)], life - 1;
      if life == 0 { return Killed; }
      dirty, life := false, life - 1;
      return Finished;
    }

    method DoUp() returns (outcome: Outcome)
      modifies this
      ensures Run(Db(), life, outcome) == Up(old(Db()), old(life), boot, blocked)
    {
      if dirty { return FoundDirty(version); }
      if version != NO_VERSION && !(1 <= version <= boot.head) { return Failed; }
      while Top(version) < boot.head
        invariant Top(version) >= 0
        invariant ApplyFrom(Db(), life, boot, blocked) == ApplyFrom(old(Db()), old(life), boot, blocked)
        decreases boot.head - Top(version)
      {
        outcome := RunFile(Top(version) + 1);
        if outcome != Finished { return; }
      }
      return Finished;
    }

    method DoRewind(v: int) returns (r: Rewinding)
      modifies this
      ensures (Db(), life, r) == Rewind(old(Db()), v, old(life), boot, blocked)
    {
      if !(1 <= v <= boot.head) || v in blocked { return Refusal; }
      if life == 0 { return Dying; }
      version, dirty, life := Before(v), false, life - 1;
      return Rewound;
    }

    method DoRunUp() returns (exit: Exit)
      requires life == boot.life
      modifies this
      ensures Start(Db(), exit) == RunUp(old(Db()), boot, blocked)
    {
      var outcome := DoUp();
      if outcome.FoundDirty? {
        var v := outcome.at;
        var r := DoRewind(v);
        if r == Refusal { return Refused(v); }
        if r == Dying { return Died; }
        outcome := DoUp();
      }
      if outcome == Finished { return Ok; }
      if outcome == Killed { return Died; }
      if !dirty { return Error(UNKNOWN_VERSION); }
      var failed := version;
      var r := DoRewind(failed);
      return match r
        case Rewound => Error(failed)
        case Refusal => Refused(failed)
        case Dying => Died;
    }

    method DoMigrate() returns (exit: Exit)
      requires life == boot.life
      modifies this
      ensures Start(Db(), exit) == Migrate(old(Db()), boot, blocked)
    {
      if boot.head == 0 { return Error(UNKNOWN_VERSION); }
      if version != NO_VERSION && version > boot.head { return Ahead; }
      exit := DoRunUp();
    }
  }
}
