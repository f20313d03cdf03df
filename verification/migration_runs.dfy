/** What starts of the server keep, over any sequence of them (internal/db/db.go).
 */
module MigrationRuns {
  import opened Migrations

  /** The journal is files 1..n once each, and the recorded version says so: n
      itself when clean, the file after n when dirty. Only a file that breaks out
      of its transaction may have left a part of itself. */
  ghost predicate Faithful(d: Database, blocked: set<int>) {
    if d.dirty then
      d.version >= 1 &&
      (d.journal == Wholes(d.version - 1) ||
       (d.version in blocked && d.journal == Wholes(d.version - 1) + [Part(d.version)]))
    else
      (d.version == NO_VERSION || d.version >= 1) && d.journal == Wholes(Top(d.version))
  }

  /** The one way a start can spoil a faithful database: it dies after a file has
      committed and before the dirty flag is cleared. Read off the inputs: each
      file costs three writes and a rewind one, so the death falls there exactly
      when the remaining writes are 2 modulo 3 and every file up to that point
      runs. */
  ghost predicate DiesInCommitWindow(d: Database, b: Boot, blocked: set<int>) {
    var base := if d.dirty then d.version - 1 else Top(d.version);
    var life := if d.dirty then b.life - 1 else b.life;
    && d.version <= b.head
    && !(d.dirty && d.version in blocked)
    && CommitsThenDies(base, life, b)
  }

  ghost predicate CommitsThenDies(base: int, life: int, b: Boot) {
    && life >= 0 && life % 3 == 2
    && base + life / 3 + 1 <= b.head
    && forall v :: base < v <= base + life / 3 + 1 ==> v !in b.failing
  }

  /** Files 1 to v ran and the flag that says so is not cleared. */
  lemma CommittedIsNotFaithful(d: Database, v: int, blocked: set<int>)
    requires v >= 1 && d.dirty && d.version == v && d.journal == Wholes(v)
    ensures !Faithful(d, blocked)
  {
    assert d.journal[v - 1] == Whole(v);
    assert |d.journal| == v;
  }

  /** One file, from a clean and faithful database. */
  lemma AttemptFaithful(d: Database, v: int, life: nat, b: Boot, blocked: set<int>)
    requires Faithful(d, blocked) && !d.dirty && v == Top(d.version) + 1
    ensures var a := Attempt(d, v, life, b, blocked);
            && (a.outcome == Finished <==> life >= 3 && v !in b.failing)
            && (a.outcome == Finished ==>
                  Faithful(a.db, blocked) && !a.db.dirty && a.db.version == v && a.life == life - 3)
            && (a.outcome != Finished ==> (Faithful(a.db, blocked) <==> !(life == 2 && v !in b.failing)))
            && (a.outcome == Failed ==> a.db.dirty && a.db.version == v && v in b.failing)
            && !a.outcome.FoundDirty?
  {
    if life == 2 && v !in b.failing {
      CommittedIsNotFaithful(Attempt(d, v, life, b, blocked).db, v, blocked);
    }
  }

  lemma WindowMoves(v: int, life: nat, b: Boot)
    requires v <= b.head
    ensures life >= 3 && v !in b.failing ==> (CommitsThenDies(v - 1, life, b) <==> CommitsThenDies(v, life - 3, b))
    ensures life < 3 || v in b.failing ==> (CommitsThenDies(v - 1, life, b) <==> life == 2 && v !in b.failing)
  {
    if life >= 3 {
      assert (life - 3) % 3 == life % 3 && (life - 3) / 3 == life / 3 - 1;
    }
  }

  /** ApplyFrom from a clean, faithful database. */
  lemma {:induction false} ApplyFromFaithful(d: Database, life: nat, b: Boot, blocked: set<int>)
    requires Faithful(d, blocked) && !d.dirty
    ensures var r := ApplyFrom(d, life, b, blocked);
            && (Faithful(r.db, blocked) <==> !CommitsThenDies(Top(d.version), life, b))
            && (r.outcome == Finished ==> !r.db.dirty && Top(r.db.version) >= b.head)
            && (r.outcome == Finished && Top(d.version) <= b.head ==> Top(r.db.version) == b.head)
            && (r.outcome == Failed ==> r.db.dirty && Top(d.version) < r.db.version <= b.head
                                        && r.db.version in b.failing)
            && !r.outcome.FoundDirty?
    decreases b.head - Top(d.version)
  {
    var v := Top(d.version) + 1;
    if v <= b.head {
      var a := Attempt(d, v, life, b, blocked);
      AttemptFaithful(d, v, life, b, blocked);
      WindowMoves(v, life, b);
      if a.outcome == Finished {
        ApplyFromFaithful(a.db, a.life, b, blocked);
      }
    }
  }

  /** Up on a clean database of this build or an earlier one, and what runUp then
      makes of it. */
  lemma SettleFaithful(d: Database, life: nat, b: Boot, blocked: set<int>)
    requires Faithful(d, blocked) && !d.dirty && d.version <= b.head
    ensures var s := Settle(Up(d, life, b, blocked), b, blocked);
            && (Faithful(s.db, blocked) <==> !CommitsThenDies(Top(d.version), life, b))
            && (s.exit == Ok ==> !s.db.dirty && Top(s.db.version) == b.head)
            && (s.exit.Error? ==>
                  && !s.db.dirty && Top(d.version) < s.exit.failed <= b.head
                  && s.exit.failed in b.failing && s.db.version == Before(s.exit.failed))
            && (s.exit.Refused? ==>
                  && s.db.dirty && s.db.version == s.exit.at
                  && s.exit.at in blocked && s.exit.at <= b.head)
            && s.exit != Ahead
            && !Up(d, life, b, blocked).outcome.FoundDirty?
  {
    ApplyFromFaithful(d, life, b, blocked);
  }

  /** A faithful database stays faithful through a start, whatever fails and
      wherever the process dies, except in the commit window; and there it never
      does. */
  lemma MigrateFaithful(d: Database, b: Boot, blocked: set<int>)
    requires Faithful(d, blocked) && b.head >= 1
    ensures Faithful(Migrate(d, b, blocked).db, blocked) <==> !DiesInCommitWindow(d, b, blocked)
  {
    if d.version <= b.head {
      if !d.dirty {
        SettleFaithful(d, b.life, b, blocked);
      } else if d.version !in blocked && b.life > 0 {
        SettleFaithful(Rewind(d, d.version, b.life, b, blocked).0, b.life - 1, b, blocked);
      }
    }
  }

  // ---- whole runs ------------------------------------------------------------

  /** The database after a sequence of starts, each by any build. */
  function After(d: Database, boots: seq<Boot>, blocked: set<int>): Database
    decreases |boots|
  {
    if boots == [] then d else After(Migrate(d, boots[0], blocked).db, boots[1..], blocked)
  }

  /** Faithful before and after every start of the sequence. */
  ghost predicate StaysFaithful(d: Database, boots: seq<Boot>, blocked: set<int>)
    decreases |boots|
  {
    && Faithful(d, blocked)
    && (boots != [] ==> StaysFaithful(Migrate(d, boots[0], blocked).db, boots[1..], blocked))
  }

  ghost predicate NeverDiesInCommitWindow(d: Database, boots: seq<Boot>, blocked: set<int>)
    decreases |boots|
  {
    boots != [] ==>
      && !DiesInCommitWindow(d, boots[0], blocked)
      && NeverDiesInCommitWindow(Migrate(d, boots[0], blocked).db, boots[1..], blocked)
  }

  /** Over every sequence of starts by any mix of builds, the database is faithful
      throughout if and only if no start dies in a commit window. */
  lemma {:induction false} RunsStayFaithful(d: Database, boots: seq<Boot>, blocked: set<int>)
    requires Faithful(d, blocked)
    requires forall b :: b in boots ==> b.head >= 1
    ensures StaysFaithful(d, boots, blocked) <==> NeverDiesInCommitWindow(d, boots, blocked)
    ensures StaysFaithful(d, boots, blocked) ==> Faithful(After(d, boots, blocked), blocked)
    decreases |boots|
  {
    if boots != [] {
      MigrateFaithful(d, boots[0], blocked);
      if !DiesInCommitWindow(d, boots[0], blocked) {
        RunsStayFaithful(Migrate(d, boots[0], blocked).db, boots[1..], blocked);
      }
    }
  }

  /** Why the commit window matters: an empty database, one file. The process dies
      between the commit and the flag; the next start rewinds and runs it again. */
  lemma CommitWindowRunsAFileTwice()
    ensures var dies := Boot(1, 2, {}, {});
            var next := Boot(1, 9, {}, {});
            var fresh_ := Database(NO_VERSION, false, []);
            && Faithful(fresh_, {}) && DiesInCommitWindow(fresh_, dies, {})
            && After(fresh_, [dies, next], {}) == Database(1, false, [Whole(1), Whole(1)])
  {
    var dies, next := Boot(1, 2, {}, {}), Boot(1, 9, {}, {});
    var d0 := Database(NO_VERSION, false, []);
    var d1 := Database(1, true, [Whole(1)]);
    assert Migrate(d0, dies, {}).db == d1;
    var d2 := Database(NO_VERSION, false, [Whole(1)]);
    assert ApplyFrom(d2, 8, next, {}).db == Database(1, false, [Whole(1), Whole(1)]);
    assert Migrate(d1, next, {}).db == Database(1, false, [Whole(1), Whole(1)]);
    var d3 := Database(1, false, [Whole(1), Whole(1)]);
    assert After(d3, [], {}) == d3;
    assert [next][1..] == [];
    assert After(d1, [next], {}) == d3;
    assert [dies, next][1..] == [next];
  }

  // ---- what a start that returns leaves behind -------------------------------

  /** runUp returns with the flag cleared, unless rewind refused. Then it is still
      set at a file that is not retryable, and every later start by this build
      changes nothing at all. From a faithful database and outside the commit
      window, Ok means every file ran once in order, and an error means the
      version sits just below the file that failed, everything before it intact. */
  lemma ReturnsCleanUnlessRefused(d: Database, b: Boot, blocked: set<int>)
    requires Faithful(d, blocked) && !DiesInCommitWindow(d, b, blocked) && b.head >= 1
    ensures var s := Migrate(d, b, blocked);
            && (s.exit == Ok ==> s.db == Database(b.head, false, Wholes(b.head)))
            && (s.exit.Error? ==>
                  && 1 <= s.exit.failed <= b.head && s.exit.failed in b.failing
                  && s.db == Database(Before(s.exit.failed), false, Wholes(s.exit.failed - 1)))
            && (s.exit.Refused? ==>
                  && s.db.dirty && s.db.version == s.exit.at && s.exit.at in blocked
                  && forall later: Boot :: later.head == b.head ==> Migrate(s.db, later, blocked) == s)
            && (s.exit == Ahead <==> d.version > b.head)
            && (s.exit == Ahead ==> s.db == d)
            && (d.dirty && d.version in blocked && d.version <= b.head ==> s == Start(d, Refused(d.version)))
  {
    MigrateFaithful(d, b, blocked);
    if d.version <= b.head {
      if !d.dirty {
        SettleFaithful(d, b.life, b, blocked);
      } else if d.version !in blocked && b.life > 0 {
        SettleFaithful(Rewind(d, d.version, b.life, b, blocked).0, b.life - 1, b, blocked);
      }
    }
  }

  /** One undisturbed start finishes the job: from any faithful database that is
      not stuck on an unretryable file or ahead of the build. */
  lemma QuietStartFinishes(d: Database, b: Boot, blocked: set<int>)
    requires Faithful(d, blocked) && 1 <= b.head && d.version <= b.head
    requires !(d.dirty && d.version in blocked)
    requires b.failing == {} && b.life > 3 * b.head
    ensures Migrate(d, b, blocked) == Start(Database(b.head, false, Wholes(b.head)), Ok)
  {
    if d.dirty {
      QuietApply(Rewind(d, d.version, b.life, b, blocked).0, b.life - 1, b, blocked);
    } else {
      QuietApply(d, b.life, b, blocked);
    }
  }

  /** Files base+1 to head, appended to whatever ran before. */
  function Tail(base: int, head: int): (w: seq<Effect>)
    decreases head - base
  {
    if base >= head then [] else [Whole(base + 1)] + Tail(base + 1, head)
  }

  lemma {:induction false} WholesSplit(base: nat, head: nat)
    requires base <= head
    ensures Wholes(base) + Tail(base, head) == Wholes(head)
    decreases head - base
  {
    if base < head {
      WholesSplit(base + 1, head);
      assert Wholes(base) + Tail(base, head) == Wholes(base + 1) + Tail(base + 1, head);
    }
  }

  /** Undisturbed, ApplyFrom runs exactly the files above the recorded version,
      once each, whatever the journal already holds. */
  lemma {:induction false} ApplyFromRunsTheRest(d: Database, life: nat, b: Boot, blocked: set<int>)
    requires 0 <= Top(d.version) <= b.head && !d.dirty
    requires b.failing == {} && life >= 3 * (b.head - Top(d.version))
    ensures var r := ApplyFrom(d, life, b, blocked);
            && r.outcome == Finished && !r.db.dirty && Top(r.db.version) == b.head
            && r.db.journal == d.journal + Tail(Top(d.version), b.head)
    decreases b.head - Top(d.version)
  {
    var v := Top(d.version) + 1;
    if v <= b.head {
      var a := Attempt(d, v, life, b, blocked);
      ApplyFromRunsTheRest(a.db, a.life, b, blocked);
    }
  }

  lemma QuietApply(d: Database, life: nat, b: Boot, blocked: set<int>)
    requires Faithful(d, blocked) && !d.dirty && 1 <= b.head && d.version <= b.head
    requires b.failing == {} && life >= 3 * b.head
    ensures Settle(Up(d, life, b, blocked), b, blocked) == Start(Database(b.head, false, Wholes(b.head)), Ok)
    ensures !Up(d, life, b, blocked).outcome.FoundDirty?
  {
    ApplyFromRunsTheRest(d, life, b, blocked);
    WholesSplit(Top(d.version), b.head);
  }
}
