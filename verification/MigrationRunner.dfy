/**
  The migration runner: one pass over the migration files, pulling a file's missing
  dependencies forward, inside one transaction.
 */
module MigrationRunner {
  import opened Prelude

  /** A migration file; later files may repeat a revision. */
  datatype Migration = Migration(revision: string, dependencies: seq<string>)

  /** One upgrade that ran: for its own sake, or pulled forward for a file that depends on it. */
  datatype Upgrade = Upgrade(migration: Migration, pulled: bool)

  datatype Progress = Progress(applied: set<string>, ran: seq<Upgrade>)

  datatype Outcome = Applied(ran: seq<Upgrade>) | NoMigrations | MissingDependency | UpgradeFailed

  function Revisions(files: seq<Migration>): set<string> {
    set m | m in files :: m.revision
  }

  /** The file that stands for a revision: the last one with it. */
  function ByRevision(files: seq<Migration>, revision: string): (m: Migration)
    requires revision in Revisions(files)
    ensures m in files && m.revision == revision
  {
    var n := |files| - 1;
    if files[n].revision == revision then files[n]
    else
      assert revision in Revisions(files[..n]);
      ByRevision(files[..n], revision)
  }

  function RevisionsOf(ran: seq<Upgrade>): set<string> {
    set u | u in ran :: u.migration.revision
  }

  // ---------- one pass, if every upgrade succeeds ----------

  function Ran(p: Progress, m: Migration, pulled: bool): Progress {
    Progress(p.applied + {m.revision}, p.ran + [Upgrade(m, pulled)])
  }

  predicate Available(d: string, applied: set<string>, files: seq<Migration>) {
    d in applied || d in Revisions(files)
  }

  /** Dependencies not yet applied run in their order. */
  function Pull(deps: seq<string>, p: Progress, files: seq<Migration>): (r: Progress)
    requires forall d :: d in deps ==> Available(d, p.applied, files)
    ensures p.applied <= r.applied
  {
    if deps == [] then p
    else
      var n := |deps| - 1;
      var q := Pull(deps[..n], p, files);
      assert Available(deps[n], p.applied, files);
      if deps[n] in q.applied then q else Ran(q, ByRevision(files, deps[n]), true)
  }

  /** One file: skipped when applied, refused when a dependency is nowhere to be found. */
  function Step(m: Migration, p: Progress, files: seq<Migration>): Option<Progress> {
    if m.revision in p.applied then Some(p)
    else if exists d :: d in m.dependencies && !Available(d, p.applied, files) then None
    else Some(Ran(Pull(m.dependencies, p, files), m, false))
  }

  /** The first files of the pass. */
  function Pass(first: seq<Migration>, applied: set<string>, files: seq<Migration>): Option<Progress> {
    if first == [] then Some(Progress(applied, []))
    else
      var n := |first| - 1;
      match Pass(first[..n], applied, files)
      case None => None
      case Some(p) => Step(first[n], p, files)
  }

  /** What a pass that is not refused has applied after the first files: a file whose revision
      is missing brings its dependencies and itself, any other file brings nothing. */
  function AppliedAfter(first: seq<Migration>, applied: set<string>): set<string> {
    if first == [] then applied
    else
      var n := |first| - 1;
      var before, m := AppliedAfter(first[..n], applied), first[n];
      if m.revision in before then before else before + (set d | d in m.dependencies) + {m.revision}
  }

  /** The file's own revision is missing when the pass comes to it. */
  predicate Due(files: seq<Migration>, applied: set<string>, i: nat)
    requires i < |files|
  {
    files[i].revision !in AppliedAfter(files[..i], applied)
  }

  // ---------- which file runs, and when ----------

  /** Of several files with one revision, the last one stands for it. */
  lemma {:induction false} LastFileCounts(files: seq<Migration>, i: nat)
    requires i < |files| && forall j :: i < j < |files| ==> files[j].revision != files[i].revision
    ensures files[i] in files && ByRevision(files, files[i].revision) == files[i]
  {
    var n := |files| - 1;
    if i < n {
      assert files[..n][i] == files[i];
      LastFileCounts(files[..n], i);
    }
  }

  /** Dependencies run in the order they are listed: each missing one after all before it. */
  lemma {:induction false} PullInOrder(deps: seq<string>, p: Progress, files: seq<Migration>, k: nat)
    requires k < |deps| && forall d :: d in deps ==> Available(d, p.applied, files)
    ensures Pull(deps[..k], p, files).ran <= Pull(deps, p, files).ran
    ensures deps[k] !in p.applied && deps[k] !in deps[..k] ==>
      && Available(deps[k], p.applied, files)
      && Pull(deps[..k], p, files).ran + [Upgrade(ByRevision(files, deps[k]), true)] <= Pull(deps, p, files).ran
    decreases |deps|
  {
    var n := |deps| - 1;
    assert Available(deps[k], p.applied, files);
    if k < n {
      assert deps[..n][..k] == deps[..k];
      PullInOrder(deps[..n], p, files, k);
    } else {
      PullApplies(deps[..n], p, files, deps[n]);
    }
  }

  /** The file itself runs last. */
  lemma DependenciesFirst(m: Migration, p: Progress, files: seq<Migration>)
    requires m.revision !in p.applied && Step(m, p, files).Some?
    ensures Step(m, p, files).value.ran == Pull(m.dependencies, p, files).ran + [Upgrade(m, false)]
  {
  }

  lemma {:induction false} PullExtends(deps: seq<string>, p: Progress, files: seq<Migration>)
    requires forall d :: d in deps ==> Available(d, p.applied, files)
    ensures p.ran <= Pull(deps, p, files).ran
  {
    if deps != [] { PullExtends(deps[..|deps| - 1], p, files); }
  }

  /** Files run in their order: what ran for the first files comes first. */
  lemma {:induction false} PassInOrder(first: seq<Migration>, applied: set<string>, files: seq<Migration>, i: nat)
    requires i <= |first| && Pass(first, applied, files).Some?
    ensures Pass(first[..i], applied, files).Some?
    ensures Pass(first[..i], applied, files).value.ran <= Pass(first, applied, files).value.ran
    decreases |first|
  {
    if i == |first| {
      assert first[..i] == first;
    } else {
      var n := |first| - 1;
      assert first[..n][..i] == first[..i];
      PassInOrder(first[..n], applied, files, i);
      var p := Pass(first[..n], applied, files).value;
      if first[n].revision !in p.applied { PullExtends(first[n].dependencies, p, files); }
    }
  }

  // ---------- what is recorded ----------

  /** What is applied is what was applied before and what ran. */
  ghost predicate Recorded(applied: set<string>, p: Progress) {
    p.applied == applied + RevisionsOf(p.ran)
  }

  lemma RanRecords(applied: set<string>, p: Progress, m: Migration, pulled: bool)
    requires Recorded(applied, p)
    ensures Recorded(applied, Ran(p, m, pulled))
  {
    var ran := p.ran + [Upgrade(m, pulled)];
    forall r ensures r in RevisionsOf(ran) <==> r in RevisionsOf(p.ran) || r == m.revision {
      assert Upgrade(m, pulled) in ran;
      if u :| u in p.ran && u.migration.revision == r { assert u in ran; }
    }
    assert RevisionsOf(ran) == RevisionsOf(p.ran) + {m.revision};
  }

  lemma {:induction false} PullRecords(deps: seq<string>, p: Progress, files: seq<Migration>, applied: set<string>)
    requires Recorded(applied, p) && forall d :: d in deps ==> Available(d, p.applied, files)
    ensures Recorded(applied, Pull(deps, p, files))
    ensures forall d :: d in deps ==> d in Pull(deps, p, files).applied
    ensures Pull(deps, p, files).applied <= p.applied + Revisions(files)
  {
    if deps != [] {
      var n := |deps| - 1;
      PullRecords(deps[..n], p, files, applied);
      var q := Pull(deps[..n], p, files);
      assert Available(deps[n], p.applied, files);
      if deps[n] !in q.applied { RanRecords(applied, q, ByRevision(files, deps[n]), true); }
      assert deps == deps[..n] + [deps[n]];
    }
  }

  lemma RevisionsGrow(first: seq<Migration>)
    requires first != []
    ensures Revisions(first) == Revisions(first[..|first| - 1]) + {first[|first| - 1].revision}
  {
    var n := |first| - 1;
    assert first == first[..n] + [first[n]];
    forall r ensures r in Revisions(first) <==> r in Revisions(first[..n]) || r == first[n].revision {
      assert first[n] in first;
      if m :| m in first[..n] && m.revision == r { assert m in first; }
    }
  }

  lemma {:induction false} PassRecords(first: seq<Migration>, applied: set<string>, files: seq<Migration>)
    requires first <= files && Pass(first, applied, files).Some?
    ensures var p := Pass(first, applied, files).value;
      Recorded(applied, p) && Revisions(first) <= p.applied <= applied + Revisions(files)
  {
    if first == [] {
      assert RevisionsOf([]) == {};
    } else {
      var n := |first| - 1;
      var m := first[n];
      PassRecords(first[..n], applied, files);
      RevisionsGrow(first);
      var p := Pass(first[..n], applied, files).value;
      assert m in files;
      if m.revision !in p.applied {
        PullRecords(m.dependencies, p, files, applied);
        RanRecords(applied, Pull(m.dependencies, p, files), m, false);
      }
    }
  }

  /** A successful call applies every file's revision and nothing else. */
  lemma AppliesEverything(files: seq<Migration>, applied: set<string>)
    requires Pass(files, applied, files).Some?
    ensures var p := Pass(files, applied, files).value;
      Recorded(applied, p) && p.applied == applied + Revisions(files)
  {
    PassRecords(files, applied, files);
  }

  lemma {:induction false} PassSkipsApplied(first: seq<Migration>, applied: set<string>, files: seq<Migration>)
    requires Revisions(first) <= applied
    ensures Pass(first, applied, files) == Some(Progress(applied, []))
  {
    if first != [] {
      RevisionsGrow(first);
      PassSkipsApplied(first[..|first| - 1], applied, files);
    }
  }

  /** A second call runs nothing. */
  lemma SecondCallRunsNothing(files: seq<Migration>, applied: set<string>)
    requires Pass(files, applied, files).Some?
    ensures var p := Pass(files, applied, files).value;
      Pass(files, p.applied, files) == Some(Progress(p.applied, []))
  {
    AppliesEverything(files, applied);
    PassSkipsApplied(files, Pass(files, applied, files).value.applied, files);
  }

  // ---------- exactly once ----------

  /** No revision ran twice, and none ran that was applied before. */
  ghost predicate Once(applied: set<string>, ran: seq<Upgrade>) {
    && (forall i, j :: 0 <= i < j < |ran| ==> ran[i].migration.revision != ran[j].migration.revision)
    && (forall i :: 0 <= i < |ran| ==> ran[i].migration.revision !in applied)
  }

  lemma OnceGrows(applied: set<string>, p: Progress, m: Migration, pulled: bool)
    requires Recorded(applied, p)
    ensures Once(applied, Ran(p, m, pulled).ran) <==> Once(applied, p.ran) && m.revision !in p.applied
  {
    var ran := Ran(p, m, pulled).ran;
    assert ran[..|p.ran|] == p.ran;
    if m.revision in RevisionsOf(p.ran) {
      var u :| u in p.ran && u.migration.revision == m.revision;
      var i :| 0 <= i < |p.ran| && p.ran[i] == u;
      assert ran[i].migration.revision == ran[|p.ran|].migration.revision;
    } else {
      forall i | 0 <= i < |p.ran| ensures ran[i].migration.revision != m.revision {
        assert p.ran[i] in p.ran;
      }
    }
    if Once(applied, ran) {
      assert forall i :: 0 <= i < |p.ran| ==> p.ran[i] == ran[i];
      assert ran[|p.ran|].migration.revision !in applied;
    }
  }

  lemma {:induction false} PullRunsOnce(deps: seq<string>, p: Progress, files: seq<Migration>, applied: set<string>)
    requires Recorded(applied, p) && forall d :: d in deps ==> Available(d, p.applied, files)
    ensures Once(applied, Pull(deps, p, files).ran) <==> Once(applied, p.ran)
  {
    if deps != [] {
      var n := |deps| - 1;
      PullRunsOnce(deps[..n], p, files, applied);
      PullRecords(deps[..n], p, files, applied);
      var q := Pull(deps[..n], p, files);
      assert Available(deps[n], p.applied, files);
      if deps[n] !in q.applied { OnceGrows(applied, q, ByRevision(files, deps[n]), true); }
    }
  }

  /** A revision is applied by its own pull exactly if it is one of the dependencies pulled. */
  lemma {:induction false} PullApplies(deps: seq<string>, p: Progress, files: seq<Migration>, r: string)
    requires forall d :: d in deps ==> Available(d, p.applied, files)
    ensures r in Pull(deps, p, files).applied <==> r in p.applied || r in deps
  {
    if deps != [] {
      var n := |deps| - 1;
      PullApplies(deps[..n], p, files, r);
      PullApplies(deps[..n], p, files, deps[n]);
      assert deps == deps[..n] + [deps[n]];
    }
  }

  /** The files and the applied revisions decide what a pass has applied. */
  lemma {:induction false} PassApplies(n: nat, files: seq<Migration>, applied: set<string>)
    requires n <= |files| && Pass(files[..n], applied, files).Some?
    ensures Pass(files[..n], applied, files).value.applied == AppliedAfter(files[..n], applied)
  {
    if n > 0 {
      assert files[..n][..n - 1] == files[..n - 1];
      PassApplies(n - 1, files, applied);
      var m, p := files[n - 1], Pass(files[..n - 1], applied, files).value;
      if m.revision !in p.applied {
        forall r ensures r in Pull(m.dependencies, p, files).applied <==> r in p.applied || r in m.dependencies {
          PullApplies(m.dependencies, p, files, r);
        }
      }
    }
  }

  /** Some file depends on itself and is missing when the pass comes to it. */
  predicate SelfDependentDue(files: seq<Migration>, applied: set<string>) {
    exists i | 0 <= i < |files| :: files[i].revision in files[i].dependencies && Due(files, applied, i)
  }

  lemma DueInPrefix(n: nat, files: seq<Migration>, applied: set<string>, i: nat)
    requires i < n <= |files|
    ensures Due(files[..n], applied, i) <==> Due(files, applied, i)
  {
    assert files[..n][..i] == files[..i];
  }

  lemma SelfDependentPrefix(n: nat, files: seq<Migration>, applied: set<string>)
    requires 0 < n <= |files|
    ensures SelfDependentDue(files[..n], applied) <==>
      SelfDependentDue(files[..n - 1], applied)
      || (files[n - 1].revision in files[n - 1].dependencies && Due(files, applied, n - 1))
  {
    forall i: nat | i < n ensures Due(files[..n], applied, i) <==> Due(files, applied, i) {
      DueInPrefix(n, files, applied, i);
    }
    forall i: nat | i < n - 1 ensures Due(files[..n - 1], applied, i) <==> Due(files, applied, i) {
      DueInPrefix(n - 1, files, applied, i);
    }
  }

  lemma {:induction false} PassRunsOnce(n: nat, files: seq<Migration>, applied: set<string>)
    requires n <= |files| && Pass(files[..n], applied, files).Some?
    ensures Once(applied, Pass(files[..n], applied, files).value.ran) <==> !SelfDependentDue(files[..n], applied)
  {
    if n > 0 {
      assert files[..n][..n - 1] == files[..n - 1];
      PassRunsOnce(n - 1, files, applied);
      PassRecords(files[..n - 1], applied, files);
      PassApplies(n - 1, files, applied);
      SelfDependentPrefix(n, files, applied);
      var m, p := files[n - 1], Pass(files[..n - 1], applied, files).value;
      if m.revision !in p.applied {
        PullRunsOnce(m.dependencies, p, files, applied);
        PullRecords(m.dependencies, p, files, applied);
        PullApplies(m.dependencies, p, files, m.revision);
        OnceGrows(applied, Pull(m.dependencies, p, files), m, false);
      }
    }
  }

  /** A successful call runs every missing revision exactly once, unless some file depends on
      itself and is missing when the pass comes to it; that file runs twice. */
  lemma RunsOnceIff(files: seq<Migration>, applied: set<string>)
    requires Pass(files, applied, files).Some?
    ensures var p := Pass(files, applied, files).value;
      && RevisionsOf(p.ran) + applied == Revisions(files) + applied
      && (Once(applied, p.ran) <==> !SelfDependentDue(files, applied))
  {
    assert files[..|files|] == files;
    AppliesEverything(files, applied);
    PassRunsOnce(|files|, files, applied);
  }

  /** One file that needs itself is pulled forward for itself and then run once more. */
  lemma SelfDependentRunsTwice()
    ensures var m := Migration("1", ["1"]);
      && Pass([m], {}, [m]) == Some(Progress({"1"}, [Upgrade(m, true), Upgrade(m, false)]))
      && SelfDependentDue([m], {})
  {
    var m := Migration("1", ["1"]);
    var files, start := [m], Progress({}, []);
    assert m in files && "1" in Revisions(files);
    assert files[..0] == [] && ["1"][..0] == [];
    assert m.revision in m.dependencies && Due(files, {}, 0);
    var once := Ran(start, m, true);
    assert Pull(["1"], start, files) == once by {
      assert Pull([], start, files) == start && ByRevision(files, "1") == m;
    }
    assert Step(m, start, files) == Some(Ran(once, m, false));
    assert Pass(files[..0], {}, files) == Some(start);
    var twice := Ran(once, m, false);
    assert twice.applied == {"1"} && twice.ran == [Upgrade(m, true), Upgrade(m, false)];
  }

  // ---------- dependencies first ----------

  ghost predicate Ready(applied: set<string>, ran: seq<Upgrade>, k: nat)
    requires k < |ran|
  {
    forall d :: d in ran[k].migration.dependencies ==> d in applied || d in RevisionsOf(ran[..k])
  }

  /** Every upgrade ran after all its dependencies. */
  ghost predicate Ordered(applied: set<string>, ran: seq<Upgrade>) {
    forall k | 0 <= k < |ran| :: Ready(applied, ran, k)
  }

  lemma OrderedGrows(applied: set<string>, p: Progress, m: Migration, pulled: bool)
    requires Recorded(applied, p)
    ensures Ordered(applied, Ran(p, m, pulled).ran) <==>
      Ordered(applied, p.ran) && forall d :: d in m.dependencies ==> d in p.applied
  {
    var ran := Ran(p, m, pulled).ran;
    forall k | 0 <= k < |p.ran| ensures Ready(applied, ran, k) <==> Ready(applied, p.ran, k) {
      assert ran[..k] == p.ran[..k] && ran[k] == p.ran[k];
    }
    assert ran[..|p.ran|] == p.ran && ran[|p.ran|] == Upgrade(m, pulled);
    assert Ready(applied, ran, |p.ran|) <==> forall d :: d in m.dependencies ==> d in p.applied;
  }

  /** The dependency at `k` is missing when the pass comes to it, so it is pulled forward. */
  predicate PullsAt(deps: seq<string>, before: set<string>, k: nat)
    requires k < |deps|
  {
    deps[k] !in before && deps[k] !in deps[..k]
  }

  /** The dependency at `k` stands for a file whose own dependencies are applied by then. */
  ghost predicate FindsItsOwn(deps: seq<string>, before: set<string>, files: seq<Migration>, k: nat)
    requires k < |deps|
  {
    deps[k] in Revisions(files) ==>
      forall d :: d in ByRevision(files, deps[k]).dependencies ==> d in before || d in deps[..k]
  }

  /** Every dependency pulled forward finds its own dependencies applied. */
  ghost predicate PullsReady(deps: seq<string>, before: set<string>, files: seq<Migration>) {
    forall k: nat | k < |deps| :: PullsAt(deps, before, k) ==> FindsItsOwn(deps, before, files, k)
  }

  lemma PullsReadyGrows(deps: seq<string>, before: set<string>, files: seq<Migration>)
    requires deps != []
    ensures var n := |deps| - 1;
      PullsReady(deps, before, files) <==>
      PullsReady(deps[..n], before, files) && (PullsAt(deps, before, n) ==> FindsItsOwn(deps, before, files, n))
  {
    var n := |deps| - 1;
    forall k: nat | k < n
      ensures PullsAt(deps[..n], before, k) <==> PullsAt(deps, before, k)
      ensures FindsItsOwn(deps[..n], before, files, k) <==> FindsItsOwn(deps, before, files, k)
    {
      assert deps[..n][..k] == deps[..k];
    }
  }

  lemma {:induction false} PullIsOrderedIff(deps: seq<string>, p: Progress, files: seq<Migration>, applied: set<string>)
    requires Recorded(applied, p) && forall d :: d in deps ==> Available(d, p.applied, files)
    ensures Ordered(applied, Pull(deps, p, files).ran) <==> Ordered(applied, p.ran) && PullsReady(deps, p.applied, files)
  {
    if deps != [] {
      var n := |deps| - 1;
      PullIsOrderedIff(deps[..n], p, files, applied);
      PullRecords(deps[..n], p, files, applied);
      PullsReadyGrows(deps, p.applied, files);
      var q := Pull(deps[..n], p, files);
      forall r ensures r in q.applied <==> r in p.applied || r in deps[..n] {
        PullApplies(deps[..n], p, files, r);
      }
      assert Available(deps[n], p.applied, files);
      if deps[n] !in q.applied { OrderedGrows(applied, q, ByRevision(files, deps[n]), true); }
    }
  }

  /** What the file at `i` pulls forward, if it is due, finds its own dependencies applied. */
  ghost predicate FilePullsReady(files: seq<Migration>, applied: set<string>, i: nat)
    requires i < |files|
  {
    Due(files, applied, i) ==> PullsReady(files[i].dependencies, AppliedAfter(files[..i], applied), files)
  }

  lemma OrderedStep(m: Migration, p: Progress, files: seq<Migration>, applied: set<string>)
    requires Recorded(applied, p) && Step(m, p, files).Some?
    ensures Ordered(applied, Step(m, p, files).value.ran) <==>
      Ordered(applied, p.ran) && (m.revision !in p.applied ==> PullsReady(m.dependencies, p.applied, files))
  {
    if m.revision !in p.applied {
      PullIsOrderedIff(m.dependencies, p, files, applied);
      PullRecords(m.dependencies, p, files, applied);
      OrderedGrows(applied, Pull(m.dependencies, p, files), m, false);
    }
  }

  lemma OrderedFile(i: nat, files: seq<Migration>, applied: set<string>)
    requires i < |files| && Pass(files[..i + 1], applied, files).Some?
    ensures Pass(files[..i], applied, files).Some?
    ensures Ordered(applied, Pass(files[..i + 1], applied, files).value.ran) <==>
      Ordered(applied, Pass(files[..i], applied, files).value.ran) && FilePullsReady(files, applied, i)
  {
    assert files[..i + 1][..i] == files[..i];
    PassRecords(files[..i], applied, files);
    PassApplies(i, files, applied);
    OrderedStep(files[i], Pass(files[..i], applied, files).value, files, applied);
  }

  lemma {:induction false} PassIsOrderedIff(n: nat, files: seq<Migration>, applied: set<string>)
    requires n <= |files| && Pass(files[..n], applied, files).Some?
    ensures Ordered(applied, Pass(files[..n], applied, files).value.ran) <==>
      forall i: nat | i < n :: FilePullsReady(files, applied, i)
  {
    if n > 0 {
      OrderedFile(n - 1, files, applied);
      PassIsOrderedIff(n - 1, files, applied);
    }
  }

  /** Upgrades run after their dependencies exactly when every dependency pulled forward has its
      own dependencies applied by then; the files and the applied revisions alone decide it. */
  lemma OrderedIffPullsReady(files: seq<Migration>, applied: set<string>)
    requires Pass(files, applied, files).Some?
    ensures Ordered(applied, Pass(files, applied, files).value.ran) <==>
      forall i: nat | i < |files| :: FilePullsReady(files, applied, i)
  {
    assert files[..|files|] == files;
    PassIsOrderedIff(|files|, files, applied);
  }

  /** Every file comes after the files it depends on. */
  ghost predicate Topological(files: seq<Migration>, applied: set<string>) {
    forall i | 0 <= i < |files| :: forall d :: d in files[i].dependencies ==> d in applied || d in Revisions(files[..i])
  }

  lemma {:induction false} AppliedAfterCovers(first: seq<Migration>, applied: set<string>)
    ensures applied + Revisions(first) <= AppliedAfter(first, applied)
  {
    if first != [] {
      RevisionsGrow(first);
      AppliedAfterCovers(first[..|first| - 1], applied);
    }
  }

  /** Files in topological order run in order, with nothing missing. */
  lemma TopologicalIsOrdered(files: seq<Migration>, applied: set<string>)
    requires Topological(files, applied)
    ensures Pass(files, applied, files).Some? && Ordered(applied, Pass(files, applied, files).value.ran)
  {
    forall i: nat | i < |files| ensures !Blocked(files, applied, i) && FilePullsReady(files, applied, i) {
      AppliedAfterCovers(files[..i], applied);
      forall d | d in Revisions(files[..i]) ensures d in Revisions(files) {
        var m :| m in files[..i] && m.revision == d;
        assert m in files;
      }
      var deps, before := files[i].dependencies, AppliedAfter(files[..i], applied);
      forall k: nat | k < |deps| ensures !PullsAt(deps, before, k) {
        assert deps[k] in deps;
      }
    }
    PassFailsIff(files, applied);
    OrderedIffPullsReady(files, applied);
  }

  /** A dependency of a dependency is not pulled: three files in the opposite order run the
      second one before the first. */
  lemma TwoLevelPullIsUnordered()
    ensures exists files: seq<Migration> ::
      && |files| == 3 && Pass(files, {}, files).Some?
      && !Ordered({}, Pass(files, {}, files).value.ran)
  {
    var top, middle, base := Migration("1", ["2"]), Migration("2", ["3"]), Migration("3", []);
    var files := [top, middle, base];
    assert top in files && middle in files && base in files;
    assert "2" in Revisions(files);
    var start := Progress({}, []);
    assert Pass(files[..0], {}, files) == Some(start);
    assert Pull(["2"], start, files) == Ran(start, ByRevision(files, "2"), true) by {
      assert ["2"][..0] == [];
    }
    var m := ByRevision(files, "2");
    assert m == middle;
    var first := Ran(Ran(start, middle, true), top, false);
    assert files[..1] == [top] && files[..1][..0] == [];
    assert Pass(files[..1], {}, files) == Some(first);
    assert files[..2][..1] == files[..1];
    assert Pass(files[..2], {}, files) == Some(first);
    var all := Ran(first, base, false);
    assert files[..3] == files && files[..2] == files[..3][..2];
    assert Step(base, first, files) == Some(all) by {
      assert Pull([], first, files) == first;
    }
    assert Pass(files, {}, files) == Some(all);
    assert all.ran[0] == Upgrade(middle, true);
    assert all.ran[..0] == [];
    assert "3" in all.ran[0].migration.dependencies && !Ready({}, all.ran, 0);
  }

  // ---------- missing dependencies ----------

  /** The file is due and needs a revision neither applied nor among the files. */
  predicate Blocked(files: seq<Migration>, applied: set<string>, i: nat)
    requires i < |files|
  {
    Due(files, applied, i)
    && exists d :: d in files[i].dependencies && d !in applied && d !in Revisions(files)
  }

  lemma StepFailsIff(m: Migration, p: Progress, files: seq<Migration>, applied: set<string>)
    requires applied <= p.applied <= applied + Revisions(files)
    ensures Step(m, p, files) == None <==>
      m.revision !in p.applied && exists d :: d in m.dependencies && d !in applied && d !in Revisions(files)
  {
    assert forall d :: Available(d, p.applied, files) <==> d in applied || d in Revisions(files);
  }

  lemma FileFailsIff(i: nat, files: seq<Migration>, applied: set<string>)
    requires i < |files| && Pass(files[..i], applied, files).Some?
    ensures Pass(files[..i + 1], applied, files) == None <==> Blocked(files, applied, i)
  {
    assert files[..i + 1][..i] == files[..i];
    PassRecords(files[..i], applied, files);
    PassApplies(i, files, applied);
    StepFailsIff(files[i], Pass(files[..i], applied, files).value, files, applied);
  }

  lemma FailureStays(i: nat, files: seq<Migration>, applied: set<string>)
    requires i < |files| && Pass(files[..i], applied, files).None?
    ensures Pass(files[..i + 1], applied, files).None?
  {
    assert files[..i + 1][..i] == files[..i];
  }

  lemma OneMoreFileFailsIff(i: nat, files: seq<Migration>, applied: set<string>)
    requires i < |files|
    ensures Pass(files[..i + 1], applied, files) == None <==>
      Pass(files[..i], applied, files) == None || Blocked(files, applied, i)
  {
    if Pass(files[..i], applied, files).Some? {
      FileFailsIff(i, files, applied);
    } else {
      FailureStays(i, files, applied);
    }
  }

  /** A flag that starts down and goes up just at marked steps is up in the end exactly when
      some step was marked. */
  lemma {:induction false} RaisedIffMarked(raised: seq<bool>, marked: seq<bool>)
    requires |raised| == |marked| + 1 && !raised[0]
    requires forall i :: 0 <= i < |marked| ==> (raised[i + 1] <==> raised[i] || marked[i])
    ensures raised[|marked|] <==> exists i :: 0 <= i < |marked| && marked[i]
  {
    if marked != [] {
      var n := |marked| - 1;
      RaisedIffMarked(raised[..n + 1], marked[..n]);
      assert forall i :: 0 <= i < n ==> marked[..n][i] == marked[i];
    }
  }

  /** The pass is refused exactly when some due file needs a revision to be found
      neither in the version table nor among the files. */
  lemma PassFailsIff(files: seq<Migration>, applied: set<string>)
    ensures Pass(files, applied, files) == None <==> exists i | 0 <= i < |files| :: Blocked(files, applied, i)
  {
    var n := |files|;
    var failed := seq(n + 1, i requires 0 <= i <= n => Pass(files[..i], applied, files) == None);
    var blocked := seq(n, i requires 0 <= i < n => Blocked(files, applied, i));
    forall i: nat | i < n ensures failed[i + 1] <==> failed[i] || blocked[i] {
      OneMoreFileFailsIff(i, files, applied);
    }
    RaisedIffMarked(failed, blocked);
    assert files[..n] == files;
    assert forall i :: 0 <= i < n ==> blocked[i] == Blocked(files, applied, i);
  }

  // ---------- the runner ----------

  /** Every upgrade succeeds, given the ones that ran before it. */
  ghost predicate NoneFails(ran: seq<Upgrade>, fails: (seq<Upgrade>, Migration) -> bool) {
    forall k :: 0 <= k < |ran| ==> !fails(ran[..k], ran[k].migration)
  }

  lemma NoneFailsGrows(ran: seq<Upgrade>, u: Upgrade, fails: (seq<Upgrade>, Migration) -> bool)
    ensures NoneFails(ran + [u], fails) <==> NoneFails(ran, fails) && !fails(ran, u.migration)
  {
    var all := ran + [u];
    assert forall k :: 0 <= k < |ran| ==> all[..k] == ran[..k] && all[k] == ran[k];
    assert all[..|ran|] == ran;
  }

  lemma FailureIsInPass(ran: seq<Upgrade>, u: Upgrade, all: seq<Upgrade>, fails: (seq<Upgrade>, Migration) -> bool)
    requires ran + [u] <= all && fails(ran, u.migration)
    ensures !NoneFails(all, fails)
  {
    assert all[..|ran|] == ran && all[|ran|] == u;
  }

  /** A file in the pass that brings the upgrade after those that ran. */
  lemma UpgradeIsInPass(files: seq<Migration>, applied: set<string>, i: nat, p: Progress, ran: seq<Upgrade>, u: Upgrade)
    requires i < |files| && Pass(files[..i], applied, files) == Some(p) && Step(files[i], p, files).Some?
    requires ran + [u] <= Step(files[i], p, files).value.ran
    ensures Pass(files, applied, files).Some? ==> ran + [u] <= Pass(files, applied, files).value.ran
  {
    assert files[..i + 1][..i] == files[..i];
    if Pass(files, applied, files).Some? { PassInOrder(files, applied, files, i + 1); }
  }

  class VersionTable {
    var revisions: set<string>

    constructor (revisions: set<string>)
      ensures this.revisions == revisions
    {
      this.revisions := revisions;
    }

    /** One transaction over the sorted files; `fails` tells whether an upgrade raises, given
        the upgrades that ran before it. */
    method ApplyMigrations(files: seq<Migration>, fails: (seq<Upgrade>, Migration) -> bool) returns (r: Outcome)
      modifies this
      ensures r.Applied? ==>
        Pass(files, old(revisions), files) == Some(Progress(revisions, r.ran))
      ensures !r.Applied? ==> revisions == old(revisions)
      ensures r.NoMigrations? <==> files == []
      ensures r.MissingDependency? ==> Pass(files, old(revisions), files) == None
      ensures r.Applied? ==> NoneFails(r.ran, fails)
      ensures r.UpgradeFailed? && Pass(files, old(revisions), files).Some? ==>
        !NoneFails(Pass(files, old(revisions), files).value.ran, fails)
      ensures (forall ran, m :: !fails(ran, m)) ==> !r.UpgradeFailed?
    {
      if files == [] { return NoMigrations; }
      var before := revisions;
      var ran: seq<Upgrade> := [];
      for i := 0 to |files|
        invariant Pass(files[..i], before, files) == Some(Progress(revisions, ran)) && NoneFails(ran, fails)
      {
        var m := files[i];
        assert files[..i + 1][..i] == files[..i];
        ghost var start := Progress(revisions, ran);
        if m.revision !in revisions {
          if exists d :: d in m.dependencies && !Available(d, revisions, files) {
            BlockedFails(files, before, i, start);
            revisions := before;
            return MissingDependency;
          }
          for k := 0 to |m.dependencies|
            invariant Pull(m.dependencies[..k], start, files) == Progress(revisions, ran) && NoneFails(ran, fails)
          {
            assert m.dependencies[..k + 1][..k] == m.dependencies[..k];
            var d := m.dependencies[k];
            if d !in revisions {
              assert Available(d, start.applied, files);
              var pulled := ByRevision(files, d);
              NoneFailsGrows(ran, Upgrade(pulled, true), fails);
              if fails(ran, pulled) {
                PulledIsInPass(files, before, i, start, k, fails);
                revisions := before;
                return UpgradeFailed;
              }
              revisions, ran := revisions + {d}, ran + [Upgrade(pulled, true)];
            }
          }
          assert m.dependencies[..|m.dependencies|] == m.dependencies;
          NoneFailsGrows(ran, Upgrade(m, false), fails);
          if fails(ran, m) {
            OwnIsInPass(files, before, i, start, fails);
            revisions := before;
            return UpgradeFailed;
          }
          revisions, ran := revisions + {m.revision}, ran + [Upgrade(m, false)];
        }
      }
      assert files[..|files|] == files;
      return Applied(ran);
    }
  }

  lemma PulledIsInPass(files: seq<Migration>, applied: set<string>, i: nat, p: Progress, k: nat,
                       fails: (seq<Upgrade>, Migration) -> bool)
    requires i < |files| && Pass(files[..i], applied, files) == Some(p) && Step(files[i], p, files).Some?
    requires files[i].revision !in p.applied && k < |files[i].dependencies|
    requires forall d :: d in files[i].dependencies ==> Available(d, p.applied, files)
    requires files[i].dependencies[k] !in Pull(files[i].dependencies[..k], p, files).applied
    requires Available(files[i].dependencies[k], p.applied, files)
    requires files[i].dependencies[k] in Revisions(files)
    requires fails(Pull(files[i].dependencies[..k], p, files).ran, ByRevision(files, files[i].dependencies[k]))
    ensures Pass(files, applied, files).Some? ==> !NoneFails(Pass(files, applied, files).value.ran, fails)
  {
    var deps := files[i].dependencies;
    var ran, u := Pull(deps[..k], p, files).ran, Upgrade(ByRevision(files, deps[k]), true);
    PullApplies(deps[..k], p, files, deps[k]);
    PullInOrder(deps, p, files, k);
    DependenciesFirst(files[i], p, files);
    UpgradeIsInPass(files, applied, i, p, ran, u);
    if Pass(files, applied, files).Some? {
      FailureIsInPass(ran, u, Pass(files, applied, files).value.ran, fails);
    }
  }

  lemma OwnIsInPass(files: seq<Migration>, applied: set<string>, i: nat, p: Progress,
                    fails: (seq<Upgrade>, Migration) -> bool)
    requires i < |files| && Pass(files[..i], applied, files) == Some(p) && Step(files[i], p, files).Some?
    requires files[i].revision !in p.applied
    requires forall d :: d in files[i].dependencies ==> Available(d, p.applied, files)
    requires fails(Pull(files[i].dependencies, p, files).ran, files[i])
    ensures Pass(files, applied, files).Some? ==> !NoneFails(Pass(files, applied, files).value.ran, fails)
  {
    var ran, u := Pull(files[i].dependencies, p, files).ran, Upgrade(files[i], false);
    DependenciesFirst(files[i], p, files);
    UpgradeIsInPass(files, applied, i, p, ran, u);
    if Pass(files, applied, files).Some? {
      FailureIsInPass(ran, u, Pass(files, applied, files).value.ran, fails);
    }
  }

  lemma BlockedFails(files: seq<Migration>, applied: set<string>, i: nat, p: Progress)
    requires i < |files| && Pass(files[..i], applied, files) == Some(p)
    requires Step(files[i], p, files) == None
    ensures Pass(files, applied, files) == None
  {
    PassRecords(files[..i], applied, files);
    PassApplies(i, files, applied);
    StepFailsIff(files[i], p, files, applied);
    assert Blocked(files, applied, i);
    PassFailsIff(files, applied);
  }
}
