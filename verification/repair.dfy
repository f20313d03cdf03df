/** Correcting the recorded version of a database (internal/db/repair.go).
 */
module Repair {
  // AnalyseRepair walks down from the recorded version, asking of each migration
  // whether the objects it creates are there. One missing object proves the file
  // never ran, because files are atomic; the walk stops at the first version it
  // cannot rule out, and that is the version to write.

  import opened MigrationRuns
  import opened Migrations

  type Object = string

  /** One embedded file: the objects the scanner finds it creating, in order; the
      ones still there when the file ends; and the ones it takes away. */
  datatype Migration = Migration(probes: seq<Object>, leaves: set<Object>, drops: set<Object>)

  type Catalogue = map<int, Migration>

  datatype Verdict = Unknown | Applied | NotApplied

  datatype VersionReport = VersionReport(version: int, verdict: Verdict, checked: nat, missing: seq<Object>)

  datatype RepairPlan = RepairPlan(
    recorded: int, dirty: bool, head: int, reports: seq<VersionReport>, target: int, confident: bool)
  {
    predicate NeedsRepair() { target != recorded }
  }

  // ---- the schema a history leaves -------------------------------------------

  /** The objects present after a history of whole files, from those present
      before any of them. A later file may drop what an earlier one created, and
      an object may be there before the file that mentions it. */
  function Schema(base: set<Object>, history: seq<Effect>, cat: Catalogue): set<Object> {
    if history == [] then base
    else
      var before := Schema(base, history[..|history| - 1], cat);
      var v := history[|history| - 1].version;
      if v in cat then before - cat[v].drops + cat[v].leaves else before
  }

  /** Some of the files up to `top`, each once, in order. */
  ghost predicate Increasing(history: seq<Effect>, top: int) {
    && (forall i :: 0 <= i < |history| ==> history[i].Whole? && 1 <= history[i].version <= top)
    && (forall i, j :: 0 <= i < j < |history| ==> history[i].version < history[j].version)
  }

  // ---- the walk --------------------------------------------------------------

  function Missing(probes: seq<Object>, present: set<Object>): (m: seq<Object>)
    ensures m == [] <==> forall o :: o in probes ==> o in present
    ensures forall o :: o in m <==> o in probes && o !in present
  {
    if probes == [] then []
    else
      var rest := Missing(probes[..|probes| - 1], present);
      var o := probes[|probes| - 1];
      assert probes == probes[..|probes| - 1] + [o];
      if o in present then rest else rest + [o]
  }

  function Judge(cat: Catalogue, present: set<Object>, v: int): VersionReport {
    if v !in cat || cat[v].probes == [] then VersionReport(v, Unknown, 0, [])
    else
      var m := Missing(cat[v].probes, present);
      VersionReport(v, if m == [] then Applied else NotApplied, |cat[v].probes|, m)
  }

  /** The report the walk files for a version: a dirty recorded version is taken
      to have rolled back, whatever its objects say. */
  function ReportOn(cat: Catalogue, present: set<Object>, recorded: int, dirty: bool, v: int): VersionReport {
    var r := Judge(cat, present, v);
    if v == recorded && dirty then r.(verdict := NotApplied) else r
  }

  predicate RuledOut(cat: Catalogue, present: set<Object>, recorded: int, dirty: bool, v: int) {
    ReportOn(cat, present, recorded, dirty, v).verdict == NotApplied
  }

  /** The highest version up to v that cannot be ruled out, or 0. */
  function Floor(cat: Catalogue, present: set<Object>, recorded: int, dirty: bool, v: int): (f: int)
    ensures 0 <= f && (f == 0 || f <= v)
  {
    if v < 1 then 0
    else if RuledOut(cat, present, recorded, dirty, v) then Floor(cat, present, recorded, dirty, v - 1)
    else v
  }

  /** It really is the highest one. */
  lemma {:induction false} FloorIsHighest(cat: Catalogue, present: set<Object>, recorded: int, dirty: bool, v: int)
    ensures var f := Floor(cat, present, recorded, dirty, v);
            && (f > 0 ==> !RuledOut(cat, present, recorded, dirty, f))
            && (forall w :: f < w <= v ==> RuledOut(cat, present, recorded, dirty, w))
  {
    if v >= 1 && RuledOut(cat, present, recorded, dirty, v) {
      FloorIsHighest(cat, present, recorded, dirty, v - 1);
    }
  }

  /** The reports filed from version `from` down to `to`, highest first. */
  function Reports(cat: Catalogue, present: set<Object>, recorded: int, dirty: bool, from: int, to: int)
    : (r: seq<VersionReport>)
    ensures |r| == if from < to then 0 else from - to + 1
    ensures forall i :: 0 <= i < |r| ==> r[i] == ReportOn(cat, present, recorded, dirty, from - i)
  {
    seq(if from < to then 0 else from - to + 1, i => ReportOn(cat, present, recorded, dirty, from - i))
  }

  function Plan(cat: Catalogue, head: int, present: set<Object>, recorded: int, dirty: bool): RepairPlan {
    if recorded == NO_VERSION then RepairPlan(recorded, dirty, head, [], recorded, true)
    else if recorded > head then RepairPlan(recorded, dirty, head, [], recorded, false)
    else
      var f := Floor(cat, present, recorded, dirty, recorded);
      var target := if f == 0 then NO_VERSION else f;
      var reports := Reports(cat, present, recorded, dirty, recorded, if f == 0 then 1 else f);
      var solid := f == 0 || ReportOn(cat, present, recorded, dirty, f).verdict == Applied;
      RepairPlan(recorded, dirty, head, reports, target, solid || target == recorded)
  }

  lemma MissingStep(probes: seq<Object>, present: set<Object>, i: nat)
    requires i < |probes|
    ensures Missing(probes[..i + 1], present)
         == Missing(probes[..i], present) + if probes[i] in present then [] else [probes[i]]
  {
    assert probes[..i + 1][..i] == probes[..i];
  }

  /** Asks the schema whether one migration's objects are there. */
  method EvaluateVersion(cat: Catalogue, present: set<Object>, v: int) returns (report: VersionReport)
    ensures report == Judge(cat, present, v)
  {
    if v !in cat { return VersionReport(v, Unknown, 0, []); }
    var ps := cat[v].probes;
    if |ps| == 0 { return VersionReport(v, Unknown, 0, []); }
    var missing := [];
    for i := 0 to |ps|
      invariant missing == Missing(ps[..i], present)
    {
      MissingStep(ps, present, i);
      if ps[i] !in present { missing := missing + [ps[i]]; }
    }
    assert ps[..|ps|] == ps;
    return VersionReport(v, if |missing| > 0 then NotApplied else Applied, |ps|, missing);
  }

  method FileReport(cat: Catalogue, present: set<Object>, recorded: int, dirty: bool, v: int)
      returns (report: VersionReport)
    ensures report == ReportOn(cat, present, recorded, dirty, v)
  {
    report := EvaluateVersion(cat, present, v);
    if v == recorded && dirty { report := report.(verdict := NotApplied); }
  }

  lemma ReportsStep(cat: Catalogue, present: set<Object>, recorded: int, dirty: bool, v: int)
    requires v <= recorded
    ensures Reports(cat, present, recorded, dirty, recorded, v)
         == Reports(cat, present, recorded, dirty, recorded, v + 1) + [ReportOn(cat, present, recorded, dirty, v)]
  {
  }

  /** AnalyseRepair's loop: down from the recorded version while migrations can be
      ruled out. Ends at the version it stopped on, or at 0 or below. */
  method Walk(cat: Catalogue, present: set<Object>, recorded: int, dirty: bool)
    returns (target: int, stopped: bool, confident: bool, reports: seq<VersionReport>)
    ensures stopped <==> Floor(cat, present, recorded, dirty, recorded) > 0
    ensures stopped ==> target == Floor(cat, present, recorded, dirty, recorded)
    ensures confident <==> stopped && ReportOn(cat, present, recorded, dirty, target).verdict == Applied
    ensures reports == Reports(cat, present, recorded, dirty, recorded, if stopped then target else 1)
  {
    target, stopped, confident, reports := recorded, false, false, [];
    var v := recorded;
    while v >= 1
      invariant v <= recorded && (v >= 0 || v == recorded)
      invariant target == v && !stopped && !confident
      invariant Floor(cat, present, recorded, dirty, recorded) == Floor(cat, present, recorded, dirty, v)
      invariant reports == Reports(cat, present, recorded, dirty, recorded, v + 1)
    {
      var report := FileReport(cat, present, recorded, dirty, v);
      ReportsStep(cat, present, recorded, dirty, v);
      reports := reports + [report];
      if report.verdict != NotApplied {
        stopped, confident := true, report.verdict == Applied;
        return;
      }
      target := v - 1;
      v := v - 1;
    }
  }

  // ---- the evidence of a plan --------------------------------------------------

  /** What a report says of its version: every object looked for, the ones that are not
      there, and the verdict they add up to. A dirty version is held not to have run,
      whatever is there. */
  ghost predicate SaysWhatIsThere(cat: Catalogue, present: set<Object>, believed: bool, r: VersionReport) {
    var probes := if r.version in cat then cat[r.version].probes else [];
    && r.checked == |probes|
    && (forall o :: o in r.missing <==> o in probes && o !in present)
    && (r.verdict == Applied <==> believed && probes != [] && forall o :: o in probes ==> o in present)
    && (r.verdict == Unknown <==> believed && probes == [])
  }

  ghost predicate ReportAccounts(cat: Catalogue, present: set<Object>, plan: RepairPlan, i: nat)
    requires i < |plan.reports|
  {
    var r := plan.reports[i];
    && r.version == plan.recorded - i
    && SaysWhatIsThere(cat, present, !(plan.dirty && i == 0), r)
    && (r.verdict == NotApplied <==> r.version > plan.target)
  }

  /** The plan as its reader takes it: one report for every version from the recorded one
      down to the target, or to 1 when nothing is left; those above the target, and no
      others, never ran; and it is sure of itself when there is nothing to change,
      nothing left, or an applied version under the target. */
  ghost predicate Accounts(cat: Catalogue, present: set<Object>, plan: RepairPlan) {
    if plan.recorded == NO_VERSION || plan.recorded > plan.head then
      && plan.target == plan.recorded && plan.reports == []
      && (plan.confident <==> plan.recorded == NO_VERSION)
    else if plan.recorded < 1 then
      plan.target == NO_VERSION && plan.reports == [] && plan.confident
    else
      var lowest := if plan.target == NO_VERSION then 1 else plan.target;
      && 1 <= lowest <= plan.recorded
      && |plan.reports| == plan.recorded - lowest + 1
      && (forall i :: 0 <= i < |plan.reports| ==> ReportAccounts(cat, present, plan, i))
      && (plan.confident <==>
            plan.target == plan.recorded || plan.target == NO_VERSION
            || plan.reports[|plan.reports| - 1].verdict == Applied)
  }

  lemma JudgeSays(
    cat: Catalogue, present: set<Object>, recorded: int, dirty: bool, v: int, believed: bool, r: VersionReport)
    requires r == ReportOn(cat, present, recorded, dirty, v) && believed == !(dirty && v == recorded)
    ensures r.version == v && SaysWhatIsThere(cat, present, believed, r)
  {
  }

  /** The walk's verdicts: it passes what is ruled out and stops at what is not. */
  lemma PassesTheRuledOut(
    cat: Catalogue, present: set<Object>, recorded: int, dirty: bool, v: int, r: VersionReport, f: int)
    requires f == Floor(cat, present, recorded, dirty, recorded) && 1 <= v <= recorded && v >= f
    requires r == ReportOn(cat, present, recorded, dirty, v)
    ensures r.verdict == NotApplied <==> v > f
  {
    FloorIsHighest(cat, present, recorded, dirty, recorded);
    assert RuledOut(cat, present, recorded, dirty, v) <==> v > f;
  }

  /** Where a plan ends. */
  lemma PlanEnds(cat: Catalogue, head: int, present: set<Object>, recorded: int, dirty: bool)
    requires 1 <= recorded <= head
    ensures var plan, f := Plan(cat, head, present, recorded, dirty), Floor(cat, present, recorded, dirty, recorded);
            && plan.target == (if f == 0 then NO_VERSION else f)
            && |plan.reports| == recorded - (if f == 0 then 1 else f) + 1
  {
  }

  lemma Filed(
    cat: Catalogue, head: int, present: set<Object>, recorded: int, dirty: bool, i: nat, v: int, r: VersionReport)
    requires 1 <= recorded <= head && v == recorded - i
    requires i < |Plan(cat, head, present, recorded, dirty).reports|
    requires r == Plan(cat, head, present, recorded, dirty).reports[i]
    ensures r == ReportOn(cat, present, recorded, dirty, v)
  {
  }

  lemma EachReportAccounts(cat: Catalogue, head: int, present: set<Object>, recorded: int, dirty: bool, i: nat)
    requires 1 <= recorded <= head && i < |Plan(cat, head, present, recorded, dirty).reports|
    ensures ReportAccounts(cat, present, Plan(cat, head, present, recorded, dirty), i)
  {
    var v, r := recorded - i, Plan(cat, head, present, recorded, dirty).reports[i];
    PlanEnds(cat, head, present, recorded, dirty);
    Filed(cat, head, present, recorded, dirty, i, v, r);
    JudgeSays(cat, present, recorded, dirty, v, !(dirty && i == 0), r);
    PassesTheRuledOut(cat, present, recorded, dirty, v, r, Floor(cat, present, recorded, dirty, recorded));
  }

  lemma PlanIsSure(cat: Catalogue, head: int, present: set<Object>, recorded: int, dirty: bool)
    requires 1 <= recorded <= head
    ensures var plan := Plan(cat, head, present, recorded, dirty);
            && |plan.reports| > 0
            && (plan.confident <==>
                  plan.target == recorded || plan.target == NO_VERSION
                  || plan.reports[|plan.reports| - 1].verdict == Applied)
  {
    var plan, f := Plan(cat, head, present, recorded, dirty), Floor(cat, present, recorded, dirty, recorded);
    PlanEnds(cat, head, present, recorded, dirty);
    if f > 0 {
      Filed(cat, head, present, recorded, dirty, |plan.reports| - 1, f, plan.reports[|plan.reports| - 1]);
    }
  }

  lemma PlanAccounts(cat: Catalogue, head: int, present: set<Object>, recorded: int, dirty: bool)
    ensures Accounts(cat, present, Plan(cat, head, present, recorded, dirty))
  {
    if 1 <= recorded <= head {
      PlanEnds(cat, head, present, recorded, dirty);
      PlanIsSure(cat, head, present, recorded, dirty);
      forall i | 0 <= i < |Plan(cat, head, present, recorded, dirty).reports|
        ensures ReportAccounts(cat, present, Plan(cat, head, present, recorded, dirty), i)
      {
        EachReportAccounts(cat, head, present, recorded, dirty, i);
      }
    }
  }

  method AnalyseRepair(cat: Catalogue, head: int, present: set<Object>, recorded: int, dirty: bool)
    returns (plan: RepairPlan)
    ensures plan == Plan(cat, head, present, recorded, dirty)
    ensures plan.recorded == recorded && plan.dirty == dirty && plan.head == head
    ensures Accounts(cat, present, plan)
  {
    PlanAccounts(cat, head, present, recorded, dirty);
    plan := RepairPlan(recorded, dirty, head, [], recorded, false);
    if recorded == NO_VERSION { return plan.(confident := true); }
    if recorded > head { return plan; }
    var target, stopped, confident, reports := Walk(cat, present, recorded, dirty);
    if !stopped { target, confident := NO_VERSION, true; }
    if target < 1 { target := NO_VERSION; }
    plan := plan.(target := target, reports := reports);
    plan := plan.(confident := confident || !plan.NeedsRepair());
  }

  /** What writing the plan makes of the database. An unconfident plan is not
      written. */
  function Write(plan: RepairPlan, d: Database): Database {
    if !plan.NeedsRepair() || !plan.confident then d else d.(version := plan.target, dirty := false)
  }

  method ApplyRepair(m: Migrator, plan: RepairPlan) returns (ok: bool)
    modifies m
    ensures m.Db() == Write(plan, old(m.Db())) && m.life == old(m.life)
    ensures ok <==> plan.NeedsRepair() ==> plan.confident
  {
    if !plan.NeedsRepair() { return true; }
    if !plan.confident { return false; }
    m.version, m.dirty := plan.target, false;
    return true;
  }

  // ---- a repair never re-runs a migration ------------------------------------

  /** Some of the files up to the recorded version really ran, each once. Nothing ties
      the recorded version to the last of them: it may have been set by hand. */
  ghost predicate Possible(history: seq<Effect>, recorded: int, dirty: bool, head: int) {
    && NO_VERSION <= recorded <= head
    && Increasing(history, recorded)
    && (dirty ==> recorded != NO_VERSION)
  }

  /** What the code takes a dirty flag to mean: the file at it rolled back. */
  ghost predicate RolledBack(history: seq<Effect>, recorded: int, dirty: bool) {
    dirty ==> forall e :: e in history ==> e.version != recorded
  }

  /** The last file that ran, or 0. */
  function Last(history: seq<Effect>): int {
    if history == [] then 0 else history[|history| - 1].version
  }

  /** The plan's target is at or above everything that ran. */
  ghost predicate Keeps(cat: Catalogue, head: int, base: set<Object>, history: seq<Effect>, recorded: int,
      dirty: bool) {
    var plan := Plan(cat, head, Schema(base, history, cat), recorded, dirty);
    forall e :: e in history ==> e.version <= plan.target
  }

  /** Some claimed version from `from` up cannot be ruled out. */
  ghost predicate SomethingStands(cat: Catalogue, present: set<Object>, recorded: int, dirty: bool, from: int) {
    exists w :: from <= w <= recorded && !RuledOut(cat, present, recorded, dirty, w)
  }

  /** A single plan keeps what ran exactly when the walk cannot rule out some claimed
      version at or above the last file that did. */
  lemma KeepsIff(cat: Catalogue, head: int, base: set<Object>, history: seq<Effect>, recorded: int, dirty: bool)
    requires Possible(history, recorded, dirty, head)
    ensures Keeps(cat, head, base, history, recorded, dirty)
       <==> history == [] || SomethingStands(cat, Schema(base, history, cat), recorded, dirty, Last(history))
  {
    if history != [] {
      var present := Schema(base, history, cat);
      var f := Floor(cat, present, recorded, dirty, recorded);
      FloorIsHighest(cat, present, recorded, dirty, recorded);
      assert history[|history| - 1] in history;
      assert 1 <= Last(history) <= recorded;
      assert Keeps(cat, head, base, history, recorded, dirty) <==> Last(history) <= f;
      if Last(history) <= f {
        assert Last(history) <= f <= recorded && !RuledOut(cat, present, recorded, dirty, f);
      } else {
        forall w | Last(history) <= w <= recorded ensures RuledOut(cat, present, recorded, dirty, w) {
        }
      }
    }
  }

  /** The file leaves behind each object it is probed for. */
  ghost predicate Honest(cat: Catalogue, v: int) {
    v in cat ==> forall o :: o in cat[v].probes ==> o in cat[v].leaves
  }

  /** Only the last file that ran matters: if it is honest, its own objects are there,
      whatever the files below it dropped or lied about. */
  lemma HonestKeeps(
    cat: Catalogue, head: int, base: set<Object>, history: seq<Effect>, recorded: int, dirty: bool)
    requires Possible(history, recorded, dirty, head) && RolledBack(history, recorded, dirty)
    requires history != [] ==> Honest(cat, Last(history))
    ensures Keeps(cat, head, base, history, recorded, dirty)
  {
    KeepsIff(cat, head, base, history, recorded, dirty);
    if history != [] {
      assert history[|history| - 1] in history;
      assert !RuledOut(cat, Schema(base, history, cat), recorded, dirty, Last(history));
    }
  }

  /** Repair keeps every history that ends in file v, whatever was there before and
      whatever version is recorded. */
  ghost predicate AlwaysKeeps(cat: Catalogue, head: int, v: int) {
    forall base, history, recorded, dirty ::
      Possible(history, recorded, dirty, head) && RolledBack(history, recorded, dirty) && history != []
        && Last(history) == v
      ==> Keeps(cat, head, base, history, recorded, dirty)
  }

  /** File by file: repair never re-runs a file when v was the last to run, if and only
      if v does not create an object and remove it again before it ends. */
  lemma NeverRerunsIffHonest(cat: Catalogue, head: int, v: int)
    requires 1 <= v <= head
    ensures AlwaysKeeps(cat, head, v) <==> Honest(cat, v)
  {
    if Honest(cat, v) {
      forall base, history, recorded, dirty
        | Possible(history, recorded, dirty, head) && RolledBack(history, recorded, dirty) && history != []
          && Last(history) == v
        ensures Keeps(cat, head, base, history, recorded, dirty)
      {
        HonestKeeps(cat, head, base, history, recorded, dirty);
      }
    } else {
      var o :| o in cat[v].probes && o !in cat[v].leaves;
      var history := [Whole(v)];
      assert history[..0] == [];
      assert Schema({}, history[..0], cat) == {};
      assert o !in Schema({}, history, cat);
      assert Possible(history, v, false, head) && Last(history) == v;
      KeepsIff(cat, head, {}, history, v, false);
      assert RuledOut(cat, Schema({}, history, cat), v, false, v);
      assert !Keeps(cat, head, {}, history, v, false);
    }
  }

  /** A dirty version whose file had committed, as a death in the commit window leaves it,
      is always repaired away: the target falls below a file that ran. */
  lemma CommittedDirtyFileIsLost(cat: Catalogue, head: int, base: set<Object>, history: seq<Effect>, recorded: int)
    requires Possible(history, recorded, true, head) && !RolledBack(history, recorded, true)
    ensures !Keeps(cat, head, base, history, recorded, true)
    ensures Last(history) == recorded > Plan(cat, head, Schema(base, history, cat), recorded, true).target
  {
    var i :| 0 <= i < |history| && history[i].version == recorded;
    assert i == |history| - 1 by {
      assert history[|history| - 1].version <= recorded;
    }
    FloorIsHighest(cat, Schema(base, history, cat), recorded, true, recorded);
    assert history[i] in history;
  }

  // ---- repair and then a start -------------------------------------------------

  /** Writing a confident plan and starting the server runs exactly the files above the
      target, and the database ends clean at the head. No file has run twice if and only
      if the plan kept everything that had run. */
  lemma RepairThenStart(d: Database, base: set<Object>, cat: Catalogue, b: Boot, blocked: set<int>)
    requires b.head >= 1 && b.failing == {} && b.life > 3 * b.head
    requires Possible(d.journal, d.version, d.dirty, b.head)
    ensures var plan := Plan(cat, b.head, Schema(base, d.journal, cat), d.version, d.dirty);
            plan.confident ==>
              var s := Migrate(Write(plan, d), b, blocked);
              && s.exit == Ok && s.db.version == b.head && !s.db.dirty
              && s.db.journal == d.journal + Tail(Top(plan.target), b.head)
              && (Increasing(s.db.journal, b.head) <==> Keeps(cat, b.head, base, d.journal, d.version, d.dirty))
  {
    var plan := Plan(cat, b.head, Schema(base, d.journal, cat), d.version, d.dirty);
    if plan.confident {
      var w := Write(plan, d);
      ApplyFromRunsTheRest(w, b.life, b, blocked);
      if Keeps(cat, b.head, base, d.journal, d.version, d.dirty) {
        assert Increasing(d.journal, Top(plan.target));
        TailIncreases(d.journal, Top(plan.target), b.head);
      } else {
        var e :| e in d.journal && e.version > plan.target;
        TailRepeats(d.journal, Top(plan.target), b.head, e);
      }
    }
  }

  lemma TailIncreases(history: seq<Effect>, base: nat, head: int)
    requires base <= head && Increasing(history, base)
    ensures Increasing(history + Tail(base, head), head)
  {
    TailAt(base, head);
  }

  lemma TailRepeats(history: seq<Effect>, base: nat, head: int, e: Effect)
    requires e in history && base < e.version <= head
    ensures !Increasing(history + Tail(base, head), head)
  {
    TailAt(base, head);
    var all := history + Tail(base, head);
    var i :| 0 <= i < |history| && history[i] == e;
    var j := |history| + e.version - base - 1;
    assert all[i] == e && all[j] == Whole(e.version);
  }

  lemma {:induction false} TailAt(base: nat, head: int)
    requires base <= head
    ensures |Tail(base, head)| == head - base
    ensures forall i :: 0 <= i < head - base ==> Tail(base, head)[i] == Whole(base + 1 + i)
    decreases head - base
  {
    if base < head {
      TailAt(base + 1, head);
    }
  }

  lemma {:induction false} WholesAt(n: nat)
    ensures forall i :: 0 <= i < n ==> Wholes(n)[i] == Whole(i + 1)
  {
    if n > 0 {
      WholesAt(n - 1);
    }
  }

  /** Where the walk ends when files 1..h ran. */
  lemma PlanForPrefix(h: nat, base: set<Object>, cat: Catalogue, head: int, recorded: int, dirty: bool)
    requires Possible(Wholes(h), recorded, dirty, head)
    ensures var present := Schema(base, Wholes(h), cat);
            var plan := Plan(cat, head, present, recorded, dirty);
            && (Top(plan.target) == h <==>
                  && (h == 0 || !RuledOut(cat, present, recorded, dirty, h))
                  && forall v :: h < v <= recorded ==> RuledOut(cat, present, recorded, dirty, v))
            && (Top(plan.target) == h ==>
                  (plan.confident <==> h == recorded || h == 0 || (h in cat && cat[h].probes != [])))
    ensures h > 0 && Honest(cat, h) && !(dirty && h == recorded) ==>
              !RuledOut(cat, Schema(base, Wholes(h), cat), recorded, dirty, h)
  {
    WholesAt(h);
    var present := Schema(base, Wholes(h), cat);
    FloorIsHighest(cat, present, recorded, dirty, recorded);
    if h > 0 {
      assert Wholes(h)[h - 1] == Whole(h);
    }
  }

  /** When repair puts a database fully right, whatever the build: files 1..h ran, and
      whatever version is recorded. Repair and a start leave every file run exactly once
      if and only if h itself cannot be ruled out, each claimed file above it can, and
      either nothing is claimed above h or the walk can end on solid ground at h. */
  lemma RepairHealsIff(d: Database, h: nat, base: set<Object>, cat: Catalogue, b: Boot, blocked: set<int>)
    requires b.head >= 1 && b.failing == {} && b.life > 3 * b.head
    requires d.journal == Wholes(h) && Possible(d.journal, d.version, d.dirty, b.head)
    ensures var present := Schema(base, d.journal, cat);
            var plan := Plan(cat, b.head, present, d.version, d.dirty);
            (plan.confident && Migrate(Write(plan, d), b, blocked).db == Database(b.head, false, Wholes(b.head)))
            <==>
            && (h == 0 || !RuledOut(cat, present, d.version, d.dirty, h))
            && (forall v :: h < v <= d.version ==> RuledOut(cat, present, d.version, d.dirty, v))
            && (h == d.version || h == 0 || (h in cat && cat[h].probes != []))
  {
    var plan := Plan(cat, b.head, Schema(base, d.journal, cat), d.version, d.dirty);
    PlanForPrefix(h, base, cat, b.head, d.version, d.dirty);
    RepairThenStart(d, base, cat, b, blocked);
    var target := Top(plan.target);
    TailAt(target, b.head);
    if target == h {
      assert h <= b.head by {
        WholesAt(h);
        assert h > 0 ==> Wholes(h)[h - 1].version == h;
      }
      WholesSplit(h, b.head);
    } else {
      assert |Wholes(h) + Tail(target, b.head)| != |Wholes(b.head)|;
    }
  }

  // ---- the file of this repository that is not honest --------------------------

  /** Files 1..v ran and version v is recorded, as it should be. If one of v's probes is
      not there and the file below it is solid ground, repair confidently writes v - 1
      and the next start runs v again. */
  lemma DishonestFileRunsTwice(v: int, o: Object, base: set<Object>, cat: Catalogue, b: Boot, blocked: set<int>)
    requires 2 <= v <= b.head && b.failing == {} && b.life > 3 * b.head
    requires v in cat && o in cat[v].probes && o !in Schema(base, Wholes(v), cat)
    requires v - 1 in cat && cat[v - 1].probes != []
    requires forall p :: p in cat[v - 1].probes ==> p in Schema(base, Wholes(v), cat)
    ensures var d := Database(v, false, Wholes(v));
            var plan := Plan(cat, b.head, Schema(base, d.journal, cat), v, false);
            && plan.target == v - 1 && plan.confident
            && Migrate(Write(plan, d), b, blocked)
                 == Start(Database(b.head, false, Wholes(v) + Tail(v - 1, b.head)), Ok)
            && (Wholes(v) + Tail(v - 1, b.head))[v - 1] == (Wholes(v) + Tail(v - 1, b.head))[v] == Whole(v)
  {
    WholesAt(v);
    TailAt(v - 1, b.head);
    var present := Schema(base, Wholes(v), cat);
    assert RuledOut(cat, present, v, false, v);
    assert !RuledOut(cat, present, v, false, v - 1);
    assert Floor(cat, present, v, false, v) == v - 1;
    assert Possible(Wholes(v), v, false, b.head);
    RepairThenStart(Database(v, false, Wholes(v)), base, cat, b, blocked);
  }

  /** A file that fails stops the start below it: everything between has run, and the
      flag is at the file. */
  lemma {:induction false} ApplyFromStopsAt(d: Database, life: nat, b: Boot, blocked: set<int>, f: int)
    requires 0 <= Top(d.version) < f <= b.head && !d.dirty && f in b.failing && f !in blocked
    requires forall v :: Top(d.version) < v < f ==> v !in b.failing
    requires life > 3 * (f - Top(d.version))
    ensures var r := ApplyFrom(d, life, b, blocked);
            && r.outcome == Failed && r.life > 0
            && r.db == Database(f, true, d.journal + Tail(Top(d.version), f - 1))
    decreases f - Top(d.version)
  {
    var v := Top(d.version) + 1;
    if v < f {
      var a := Attempt(d, v, life, b, blocked);
      ApplyFromStopsAt(a.db, a.life, b, blocked, f);
      assert d.journal + [Whole(v)] + Tail(v, f - 1) == d.journal + Tail(v - 1, f - 1);
    } else {
      assert d.journal + [] == d.journal;
    }
  }

  /** A first start in which one file fails: the database is clean just below it. */
  lemma FirstStartStopsBelow(b: Boot, blocked: set<int>, f: int)
    requires 1 <= f <= b.head && b.failing == {f} && f !in blocked && b.life > 3 * f
    ensures Migrate(Database(NO_VERSION, false, []), b, blocked)
            == Start(Database(Before(f), false, Wholes(f - 1)), Error(f))
  {
    var fresh_ := Database(NO_VERSION, false, []);
    ApplyFromStopsAt(fresh_, b.life, b, blocked, f);
    WholesSplit(0, f - 1);
    assert [] + Tail(0, f - 1) == Tail(0, f - 1) == Wholes(0) + Tail(0, f - 1);
  }

  /** What the scanner finds in files 6 and 7. File 7 makes two functions, uses them and
      drops them. */
  const SIX := Migration(
    ["library_books", "idx_library_books_library_id", "idx_library_books_book_id", "library_book_editions",
     "idx_lbe_book_edition_id"],
    {"library_books", "idx_library_books_library_id", "idx_library_books_book_id", "library_book_editions",
     "idx_lbe_book_edition_id"},
    {})
  const SEVEN := Migration(["_m2m_merge_book", "_m2m_merge_edition"], {}, {})

  /** The whole accident: in a first start file 8 fails, which leaves a sound database at
      7; repair talks itself down to 6; the next start runs file 7 a second time. */
  lemma FileSevenRunsTwice(base: set<Object>, cat: Catalogue, failing: Boot, quiet: Boot, blocked: set<int>)
    requires 6 in cat && cat[6] == SIX && 7 in cat && cat[7] == SEVEN
    requires "_m2m_merge_book" !in base && forall v :: v in cat && v < 6 ==> "_m2m_merge_book" !in cat[v].leaves
    requires failing.head >= 8 && failing.failing == {8} && 8 !in blocked && failing.life > 24
    requires quiet.head == failing.head && quiet.failing == {} && quiet.life > 3 * quiet.head
    ensures var d := Migrate(Database(NO_VERSION, false, []), failing, blocked).db;
            var plan := Plan(cat, quiet.head, Schema(base, d.journal, cat), d.version, d.dirty);
            && d == Database(7, false, Wholes(7))
            && plan.target == 6 && plan.confident
            && Migrate(Write(plan, d), quiet, blocked).db.journal == Wholes(7) + Tail(6, quiet.head)
            && Whole(7) == (Wholes(7) + Tail(6, quiet.head))[6] == (Wholes(7) + Tail(6, quiet.head))[7]
  {
    FirstStartStopsBelow(failing, blocked, 8);
    var lost := "_m2m_merge_book";
    NeverLeft(base, cat, 5, lost);
    SchemaStep(base, cat, 6);
    SchemaStep(base, cat, 7);
    assert |lost| == 15;
    assert forall o :: o in SIX.leaves ==> |o| != 15;
    DishonestFileRunsTwice(7, lost, base, cat, quiet, blocked);
  }

  lemma SchemaStep(base: set<Object>, cat: Catalogue, v: nat)
    requires v >= 1
    ensures Schema(base, Wholes(v), cat)
         == if v in cat then Schema(base, Wholes(v - 1), cat) - cat[v].drops + cat[v].leaves
           else Schema(base, Wholes(v - 1), cat)
  {
    assert Wholes(v)[..v - 1] == Wholes(v - 1);
  }

  lemma {:induction false} NeverLeft(base: set<Object>, cat: Catalogue, n: nat, o: Object)
    requires o !in base && forall v :: v in cat && v <= n ==> o !in cat[v].leaves
    ensures o !in Schema(base, Wholes(n), cat)
  {
    if n > 0 {
      NeverLeft(base, cat, n - 1, o);
      SchemaStep(base, cat, n);
    }
  }
}
