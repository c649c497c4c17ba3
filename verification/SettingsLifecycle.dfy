/** What the settings protocol guarantees over whole runs: any number of `up` and `down`, each possibly
    killed after any of its writes, with user edits in between and targets that change from run to run.

    A second, ideal set of files follows the user's own edits only. While a backup exists, its file may
    differ from the ideal one in the managed env keys; a completed revert brings the two back together.
*/
module SettingsLifecycle {
  import opened Common
  import opened ClientCfg

  // ---------------------------------------------------------------- actual and ideal files

  datatype World = World(disk: Disk, ideal: map<string, Document>)

  /** The env block is absent or an object. */
  predicate EnvOk(f: Env) { "env" in f ==> f["env"].Obj? }

  /** What injection can undo: env absent or an object, managed keys absent or strings. */
  predicate Restorable(d: Document) {
    && !d.Malformed?
    && EnvOk(Fields(d))
    && forall k | k in MANAGED && k in EnvOf(Fields(d)) :: EnvOf(Fields(d))[k].Str?
  }

  /** The record of the managed keys of `f`. */
  function PriorOf(f: Env): map<string, Option<string>> {
    map k | k in MANAGED :: if k in EnvOf(f) then Some(Sprint(EnvOf(f)[k])) else None
  }

  /** `actual` differs from `ideal` only on managed env keys, and `b` records those of `ideal`.
      `exact` adds that the record knows whether the ideal file has an env block. */
  ghost predicate Twin(actual: Document, ideal: Document, b: Backup, exact: bool)
    requires b.Record?
  {
    && Restorable(ideal) && !actual.Malformed? && EnvOk(Fields(actual))
    && (actual.Null? <==> ideal.Null?)
    && Fields(actual) - {"env"} == Fields(ideal) - {"env"}
    && EnvOf(Fields(actual)) - MANAGED == EnvOf(Fields(ideal)) - MANAGED
    && b.prior == PriorOf(Fields(ideal))
    && (b.envExisted ==> HasEnv(Fields(actual)) && HasEnv(Fields(ideal)))
    && (!b.envExisted ==> EnvOf(Fields(ideal)).Keys !! MANAGED)
    && (exact ==> (b.envExisted <==> HasEnv(Fields(ideal))))
  }

  /** The same JSON value; a blank file counts as {}. Unless `exact`, the actual file may also lack an env
      block that is empty in the ideal one. */
  ghost predicate Same(actual: Document, ideal: Document, exact: bool) {
    || actual == ideal
    || (ideal.Blank? && actual == Object(map[]))
    || (!exact && actual.Object? && ideal.Object?
        && "env" !in actual.fields && ideal.fields == actual.fields["env" := Obj(map[])])
  }

  ghost predicate SameFile(p: string, files: map<string, Document>, ideal: map<string, Document>, exact: bool) {
    && (p in files <==> p in ideal)
    && (p in files ==> Same(files[p], ideal[p], exact))
  }

  /** App `a` holds a record for the settings file `p`. */
  predicate Covers(d: Disk, a: string, p: string) {
    a in d.backups && d.backups[a].Record? && d.backups[a].path == p
  }

  ghost predicate Covered(d: Disk, p: string) { exists a :: Covers(d, a, p) }

  /** A record says that aitori created the file at `p`. */
  ghost predicate Created(d: Disk, p: string) { exists a :: Covers(d, a, p) && !d.backups[a].settingsExisted }

  /** A record describes its file truthfully; a file that aitori created has no ideal counterpart. */
  ghost predicate Truthful(b: Backup, files: map<string, Document>, ideal: map<string, Document>, exact: bool)
    requires b.Record?
  {
    if b.settingsExisted then
      b.path in files && b.path in ideal && Twin(files[b.path], ideal[b.path], b, exact)
    else b.path !in ideal
  }

  ghost predicate Inv(w: World, exact: bool) {
    var d := w.disk;
    && (forall a :: a in d.backups && d.backups[a].Record? ==> Truthful(d.backups[a], d.files, w.ideal, exact))
    && (forall a, b, p :: Covers(d, a, p) && Covers(d, b, p) ==> a == b)
    && (forall p :: !Covered(d, p) ==> SameFile(p, d.files, w.ideal, exact))
  }

  /** Wherever an operation is killed, the disk it leaves keeps the invariant. */
  ghost predicate Keeps(t: Trace, ideal: map<string, Document>, exact: bool) {
    forall d :: d in t.states ==> Inv(World(d, ideal), exact)
  }

  lemma KeepsThen(t: Trace, next: Trace, ideal: map<string, Document>, exact: bool)
    requires Keeps(t, ideal, exact) && Keeps(next, ideal, exact)
    ensures Keeps(t.Then(next), ideal, exact)
  {}

  // ---------------------------------------------------------------- one document

  lemma CaptureIsTwin(actual: Document, ideal: Document, path: string, exact: bool)
    requires Same(actual, ideal, exact) && Restorable(actual)
    ensures Twin(actual, ideal, Capture(path, true, Fields(actual)), exact)
  {
    if actual != ideal && Fields(actual) != Fields(ideal) {
      assert Fields(ideal) - {"env"} == Fields(actual) - {"env"};
    }
    assert EnvOf(Fields(actual)) == EnvOf(Fields(ideal));
  }

  lemma PatchedIsTwin(actual: Document, ideal: Document, b: Backup, want: map<string, string>, exact: bool)
    requires b.Record? && Twin(actual, ideal, b, exact) && !actual.Null? && want.Keys <= MANAGED
    ensures Twin(Object(Patched(Fields(actual), want)), ideal, b, exact)
  {
    var f := Fields(actual);
    var g := Patched(f, want);
    assert g - {"env"} == f - {"env"};
    assert EnvOf(g) - MANAGED == EnvOf(f) - MANAGED;
  }

  /** Restoring the managed keys of a twin yields the env block of the ideal file. */
  lemma RestoredEnvIsIdeal(actual: Document, ideal: Document, b: Backup, exact: bool)
    requires b.Record? && Twin(actual, ideal, b, exact)
    ensures RestoredEnv(EnvOf(Fields(actual)), b.prior) == EnvOf(Fields(ideal))
  {
    var r, e := EnvOf(Fields(actual)), EnvOf(Fields(ideal));
    var res := RestoredEnv(r, b.prior);
    assert b.prior.Keys == MANAGED;
    forall k ensures k in res <==> k in e {
      assert k !in MANAGED ==> (k in r <==> k in r - MANAGED) && (k in e <==> k in e - MANAGED);
    }
    forall k | k in e ensures res[k] == e[k] {
      if k !in MANAGED {
        assert k in e - MANAGED && (r - MANAGED)[k] == r[k] && (e - MANAGED)[k] == e[k];
      }
    }
  }

  lemma RestoredIsTwinAndSame(actual: Document, ideal: Document, b: Backup, exact: bool)
    requires b.Record? && Twin(actual, ideal, b, exact)
    ensures actual.Null? ==> "env" !in Restored(map[], b)
    ensures var after := if actual.Null? then Null else Object(Restored(Fields(actual), b));
            Twin(after, ideal, b, exact) && Same(after, ideal, exact)
  {
    RestoredEnvIsIdeal(actual, ideal, b, exact);
    var f, g := Fields(actual), Fields(ideal);
    var h := Restored(f, b);
    assert "HTTP_PROXY" in b.prior;
    assert h - {"env"} == f - {"env"};
    if HasEnv(h) {
      SetField(f, g, "env");
    } else {
      assert h == f - {"env"} && EnvOf(g) == map[];
      if HasEnv(g) { SetField(h, g, "env"); } else { assert g == h; }
    }
  }

  lemma SetField(f: Env, g: Env, key: string)
    requires f - {key} == g - {key} && key in g
    ensures f[key := g[key]] == g
  {
    var h := f[key := g[key]];
    forall k ensures k in h <==> k in g {
      assert k != key ==> (k in f <==> k in f - {key}) && (k in g <==> k in g - {key});
    }
    forall k | k in g && k != key ensures h[k] == g[k] {
      assert (f - {key})[k] == (g - {key})[k];
    }
  }

  // ---------------------------------------------------------------- one write

  /** Writing a backup for an app that has none, for a target no other record names. */
  lemma BackupWrite(w: World, app: string, target: string, exact: bool)
    requires Inv(w, exact) && app !in w.disk.backups && !Covered(w.disk, target)
    requires Restorable(Contents(w.disk, target))
    ensures var d := w.disk;
            var b := Capture(target, target in d.files, Fields(Contents(d, target)));
            Inv(World(d.(backups := d.backups[app := b]), w.ideal), exact)
  {
    var d := w.disk;
    var b := Capture(target, target in d.files, Fields(Contents(d, target)));
    var e := d.(backups := d.backups[app := b]);
    assert SameFile(target, d.files, w.ideal, exact);
    if target in d.files { CaptureIsTwin(d.files[target], w.ideal[target], target, exact); }
    forall a, p ensures Covers(e, a, p) <==> Covers(d, a, p) || (a == app && p == target) {}
    assert forall a, p :: Covers(d, a, p) ==> p != target by {
      forall a, p | Covers(d, a, p) ensures p != target { assert Covered(d, p); }
    }
    forall p | !Covered(e, p) ensures SameFile(p, e.files, w.ideal, exact) {
      assert forall a :: Covers(d, a, p) ==> Covers(e, a, p);
    }
  }

  /** Rewriting (or creating) the one file that a record names keeps every other file and record. */
  lemma FileWrite(w: World, app: string, files: map<string, Document>, exact: bool)
    requires Inv(w, exact) && app in w.disk.backups && w.disk.backups[app].Record?
    requires forall p :: p != w.disk.backups[app].path ==> (p in files <==> p in w.disk.files)
    requires forall p :: p in files && p != w.disk.backups[app].path ==> files[p] == w.disk.files[p]
    requires Truthful(w.disk.backups[app], files, w.ideal, exact)
    ensures Inv(World(w.disk.(files := files), w.ideal), exact)
  {
    var d := w.disk;
    var e := d.(files := files);
    var path := d.backups[app].path;
    assert Covers(d, app, path);
    forall a, p ensures Covers(e, a, p) <==> Covers(d, a, p) {}
    forall a | a in e.backups && e.backups[a].Record? ensures Truthful(e.backups[a], e.files, w.ideal, exact) {
      var q := d.backups[a].path;
      assert Covers(d, a, q);
      assert Truthful(d.backups[a], d.files, w.ideal, exact);
    }
    forall p | !Covered(e, p) ensures SameFile(p, e.files, w.ideal, exact) {
      assert p != path by { assert Covers(e, app, path); }
      assert forall a :: Covers(d, a, p) ==> Covers(e, a, p);
      assert SameFile(p, d.files, w.ideal, exact);
    }
  }

  /** Removing a record once its file is back to the ideal one (or removing an unreadable record). */
  lemma BackupRemoval(w: World, app: string, exact: bool)
    requires Inv(w, exact) && app in w.disk.backups
    requires w.disk.backups[app].Record? ==> SameFile(w.disk.backups[app].path, w.disk.files, w.ideal, exact)
    ensures Inv(World(DropBackup(w.disk, app), w.ideal), exact)
  {
    var d := w.disk;
    var e := DropBackup(d, app);
    forall a, p ensures Covers(e, a, p) <==> Covers(d, a, p) && a != app {}
    forall a | a in e.backups && e.backups[a].Record? ensures Truthful(e.backups[a], e.files, w.ideal, exact) {
      assert Truthful(d.backups[a], d.files, w.ideal, exact);
    }
    forall p | !Covered(e, p) ensures SameFile(p, e.files, w.ideal, exact) {
      if Covered(d, p) {
        var a :| Covers(d, a, p);
        if a != app { assert Covers(e, a, p); }
      }
    }
  }

  // ---------------------------------------------------------------- whole operations

  lemma RevertKeeps(w: World, app: string, exact: bool)
    requires Inv(w, exact) && app in w.disk.backups && w.disk.backups[app].Record?
    ensures var t := Revert(w.disk, app);
            && t.outcome == Done
            && Keeps(t, w.ideal, exact)
            && t.Last(w.disk).backups == w.disk.backups - {app}
  {
    var d := w.disk;
    var b := d.backups[app];
    assert Truthful(b, d.files, w.ideal, exact);
    if !b.settingsExisted {
      var d1 := d.(files := d.files - {b.path});
      FileWrite(w, app, d1.files, exact);
      BackupRemoval(World(d1, w.ideal), app, exact);
      if b.path !in d.files { assert d1 == d; }
    } else {
      var doc := d.files[b.path];
      RestoredIsTwinAndSame(doc, w.ideal[b.path], b, exact);
      var after := if doc.Null? then Null else Object(Restored(Fields(doc), b));
      var d1 := d.(files := d.files[b.path := after]);
      FileWrite(w, app, d1.files, exact);
      BackupRemoval(World(d1, w.ideal), app, exact);
    }
  }

  lemma RevertEntryKeeps(w: World, app: string, exact: bool)
    requires Inv(w, exact) && app in w.disk.backups
    ensures var t := RevertEntry(w.disk, app);
            && t.outcome == Done
            && Keeps(t, w.ideal, exact)
            && t.Last(w.disk).backups == w.disk.backups - {app}
            && Inv(World(t.Last(w.disk), w.ideal), exact)
  {
    var t := RevertEntry(w.disk, app);
    if w.disk.backups[app].Corrupt? { BackupRemoval(w, app, exact); } else { RevertKeeps(w, app, exact); }
    assert t.Last(w.disk) in t.states;
  }

  lemma {:induction false} RevertAllKeeps(w: World, apps: seq<string>, exact: bool)
    requires Inv(w, exact) && NoRepeats(apps) && forall a :: a in apps ==> a in w.disk.backups
    ensures var t := RevertAll(w.disk, apps);
            && t.outcome == Done
            && Keeps(t, w.ideal, exact)
            && (forall a :: a in t.Last(w.disk).backups <==> a in w.disk.backups && a !in apps)
            && Inv(World(t.Last(w.disk), w.ideal), exact)
    decreases |apps|
  {
    if apps != [] {
      RevertEntryKeeps(w, apps[0], exact);
      var t := RevertEntry(w.disk, apps[0]);
      var w1 := World(t.Last(w.disk), w.ideal);
      RevertAllKeeps(w1, apps[1..], exact);
      var rest := RevertAll(w1.disk, apps[1..]);
      KeepsThen(t, rest, w.ideal, exact);
      LastOfThen(t, rest, w.disk, []);
    }
  }

  /** Every file holds what the user's own edits alone would have left, and no backup remains. */
  ghost predicate Clean(d: Disk, ideal: map<string, Document>, exact: bool) {
    && d.backups == map[]
    && d.files.Keys == ideal.Keys
    && forall p :: p in ideal ==> Same(d.files[p], ideal[p], exact)
  }

  /** A revert that runs to its end succeeds and cleans up, from any state the protocol can leave. */
  lemma CompleteRevert(w: World, apps: seq<string>, exact: bool)
    requires Inv(w, exact) && Lists(apps, w.disk)
    ensures RevertAll(w.disk, apps).outcome == Done
    ensures Clean(RevertAll(w.disk, apps).Last(w.disk), w.ideal, exact)
  {
    RevertAllKeeps(w, apps, exact);
    var d := RevertAll(w.disk, apps).Last(w.disk);
    forall p ensures SameFile(p, d.files, w.ideal, exact) {
      assert !Covered(d, p);
    }
    assert forall p :: p in d.files <==> p in w.ideal by {
      forall p ensures p in d.files <==> p in w.ideal { assert SameFile(p, d.files, w.ideal, exact); }
    }
    forall p | p in w.ideal ensures Same(d.files[p], w.ideal[p], exact) {
      assert SameFile(p, d.files, w.ideal, exact);
    }
  }

  /** The user's own file at `p`, if any, is one that injection leaves alone or can undo. */
  predicate Injectable(p: string, ideal: map<string, Document>) {
    p in ideal ==> ideal[p].Malformed? || Restorable(ideal[p])
  }

  /** Injecting `app` into `target` makes a record where there is none, or finds the one for that file. */
  ghost predicate Consistent(d: Disk, app: string, target: string) {
    if app in d.backups then Covers(d, app, target) else !Covered(d, target)
  }

  /** Records are made once: those of `before` are still there, and a new one is about `target`. */
  ghost predicate RecordsOnly(before: Disk, after: Disk, app: string, target: string) {
    && (forall a :: a in before.backups ==> a in after.backups && after.backups[a] == before.backups[a])
    && (forall a :: a in after.backups && a !in before.backups ==> a == app && Covers(after, app, target))
  }

  lemma InjectRecords(d: Disk, app: string, target: string, want: map<string, string>)
    requires app in d.backups ==> Covers(d, app, target)
    ensures RecordsOnly(d, Inject(d, app, target, want).Last(d), app, target)
  {}

  lemma FirstInjectKeeps(w: World, app: string, target: string, want: map<string, string>, exact: bool)
    requires Inv(w, exact) && app !in w.disk.backups && !Covered(w.disk, target)
    requires Injectable(target, w.ideal) && want.Keys <= MANAGED
    ensures var t := Inject(w.disk, app, target, want);
            Keeps(t, w.ideal, exact) && Inv(World(t.Last(w.disk), w.ideal), exact)
  {
    var d := w.disk;
    var doc := Contents(d, target);
    assert SameFile(target, d.files, w.ideal, exact);
    if !doc.Malformed? {
      SameRestorable(w, target, exact);
      BackupWrite(w, app, target, exact);
      var d1 := d.(backups := d.backups[app := Capture(target, target in d.files, Fields(doc))]);
      hide Restorable, Patched, Inv;
      if !doc.Null? { SettingsWrite(World(d1, w.ideal), app, target, want, exact); }
    }
  }

  lemma RepeatedInjectKeeps(w: World, app: string, target: string, want: map<string, string>, exact: bool)
    requires Inv(w, exact) && Covers(w.disk, app, target) && want.Keys <= MANAGED
    ensures var t := Inject(w.disk, app, target, want);
            Keeps(t, w.ideal, exact) && Inv(World(t.Last(w.disk), w.ideal), exact)
  {
    var doc := Contents(w.disk, target);
    hide Patched, Inv;
    if !doc.Malformed? && !doc.Null? { SettingsWrite(w, app, target, want, exact); }
  }

  /** Injection, the first or a repeated one, killed anywhere. */
  lemma InjectKeeps(w: World, app: string, target: string, want: map<string, string>, exact: bool)
    requires Inv(w, exact) && Consistent(w.disk, app, target)
    requires Injectable(target, w.ideal) && want.Keys <= MANAGED
    ensures var t := Inject(w.disk, app, target, want);
            && Keeps(t, w.ideal, exact)
            && Inv(World(t.Last(w.disk), w.ideal), exact)
            && RecordsOnly(w.disk, t.Last(w.disk), app, target)
  {
    InjectRecords(w.disk, app, target, want);
    hide Inv, Inject, Keeps, RecordsOnly;
    if app in w.disk.backups {
      RepeatedInjectKeeps(w, app, target, want, exact);
    } else {
      FirstInjectKeeps(w, app, target, want, exact);
    }
  }

  /** The second write of an injection: the env block goes into the file that the record is about. */
  lemma SettingsWrite(w: World, app: string, target: string, want: map<string, string>, exact: bool)
    requires Inv(w, exact) && Covers(w.disk, app, target) && want.Keys <= MANAGED
    requires var doc := Contents(w.disk, target); !doc.Malformed? && !doc.Null?
    ensures var d := w.disk;
            var files := d.files[target := Object(Patched(Fields(Contents(d, target)), want))];
            Inv(World(d.(files := files), w.ideal), exact)
  {
    var d := w.disk;
    var b := d.backups[app];
    var doc := Contents(d, target);
    assert Truthful(b, d.files, w.ideal, exact);
    if b.settingsExisted { PatchedIsTwin(doc, w.ideal[target], b, want, exact); }
    FileWrite(w, app, d.files[target := Object(Patched(Fields(doc), want))], exact);
  }

  /** Injection is idempotent, on every disk: a second one with the same values leaves it as it is. */
  lemma InjectTwice(d: Disk, app: string, target: string, want: map<string, string>)
    ensures var once := Inject(d, app, target, want).Last(d);
            Inject(once, app, target, want).Last(once) == once
  {
    var once := Inject(d, app, target, want).Last(d);
    var doc := Contents(d, target);
    if !doc.Malformed? && !doc.Null? {
      PatchedTwice(Fields(doc), want);
      hide Patched;
      assert once.files[target] == Object(Patched(Fields(doc), want));
      assert once.files[target := once.files[target]] == once.files;
    }
  }

  lemma PatchedTwice(f: Env, want: map<string, string>)
    ensures Patched(Patched(f, want), want) == Patched(f, want)
  {
    assert EnvOf(f) + Strings(want) + Strings(want) == EnvOf(f) + Strings(want);
  }

  lemma SameRestorable(w: World, target: string, exact: bool)
    requires SameFile(target, w.disk.files, w.ideal, exact) && Injectable(target, w.ideal)
    requires !Contents(w.disk, target).Malformed?
    ensures Restorable(Contents(w.disk, target))
  {
    if target in w.disk.files {
      assert EnvOf(Fields(w.disk.files[target])) == EnvOf(Fields(w.ideal[target]));
    }
  }

  /** Entries in which no two apps share a target and no app has two; entries may repeat. */
  ghost predicate Separate(entries: seq<Entry>, ideal: map<string, Document>) {
    && (forall i, j :: 0 <= i < j < |entries| ==>
          (entries[i].app == entries[j].app <==> entries[i].target == entries[j].target))
    && (forall i :: 0 <= i < |entries| ==> Injectable(entries[i].target, ideal))
  }

  ghost predicate AllConsistent(d: Disk, entries: seq<Entry>) {
    forall i :: 0 <= i < |entries| ==> Consistent(d, entries[i].app, entries[i].target)
  }

  lemma {:induction false} InjectAllKeeps(w: World, entries: seq<Entry>, want: map<string, string>, exact: bool)
    requires Inv(w, exact) && Separate(entries, w.ideal) && want.Keys <= MANAGED
    requires AllConsistent(w.disk, entries)
    ensures Keeps(InjectAll(w.disk, entries, want), w.ideal, exact)
    ensures Inv(World(InjectAll(w.disk, entries, want).Last(w.disk), w.ideal), exact)
    decreases |entries|
  {
    hide Inv, Inject;
    if entries != [] {
      var e, rest := entries[0], entries[1..];
      InjectKeeps(w, e.app, e.target, want, exact);
      var t := Inject(w.disk, e.app, e.target, want);
      var w1 := World(t.Last(w.disk), w.ideal);
      if t.outcome != Crashed {
        forall i | 0 <= i < |rest| ensures Consistent(w1.disk, rest[i].app, rest[i].target) {
          assert rest[i] == entries[i + 1];
          StaysConsistent(w.disk, w1.disk, e, rest[i]);
        }
        assert Separate(rest, w.ideal) by { assert forall i :: 0 <= i < |rest| ==> rest[i] == entries[i + 1]; }
        InjectAllKeeps(w1, rest, want, exact);
        KeepsThen(t, InjectAll(w1.disk, rest, want), w.ideal, exact);
        LastOfThen(t, InjectAll(w1.disk, rest, want), w.disk, []);
      }
    }
  }

  lemma StaysConsistent(before: Disk, after: Disk, e: Entry, f: Entry)
    requires RecordsOnly(before, after, e.app, e.target) && Consistent(before, f.app, f.target)
    requires e.app == f.app <==> e.target == f.target
    ensures Consistent(after, f.app, f.target)
  {
    if f.app !in after.backups && Covered(after, f.target) {
      var a :| Covers(after, a, f.target);
      if a in before.backups { assert Covers(before, a, f.target); }
    }
  }

  lemma UpKeeps(w: World, apps: seq<string>, entries: seq<Entry>, want: map<string, string>, exact: bool)
    requires Inv(w, exact) && Lists(apps, w.disk) && Separate(entries, w.ideal) && want.Keys <= MANAGED
    ensures Keeps(Up(w.disk, apps, entries, want), w.ideal, exact)
  {
    RevertAllKeeps(w, apps, exact);
    CompleteRevert(w, apps, exact);
    var t := RevertAll(w.disk, apps);
    var w1 := World(t.Last(w.disk), w.ideal);
    InjectAllKeeps(w1, entries, want, exact);
    KeepsThen(t, InjectAll(w1.disk, entries, want), w.ideal, exact);
  }

  // ---------------------------------------------------------------- what an `up` brings about

  /** The app has its record, and its settings file sets every wanted variable; or the file is malformed. */
  ghost predicate Configured(d: Disk, app: string, target: string, want: map<string, string>) {
    if target in d.files && d.files[target].Malformed? then true
    else
      && Covers(d, app, target)
      && target in d.files && d.files[target].Object?
      && "env" in d.files[target].fields && d.files[target].fields["env"].Obj?
      && var env := d.files[target].fields["env"].fields;
         forall k :: k in want ==> k in env && env[k] == Str(want[k])
  }

  lemma InjectConfigures(d: Disk, app: string, target: string, want: map<string, string>)
    requires app in d.backups ==> Covers(d, app, target)
    requires Inject(d, app, target, want).outcome != Crashed
    ensures Configured(Inject(d, app, target, want).Last(d), app, target, want)
  {}

  /** Another entry leaves it so. */
  lemma StaysConfigured(d: Disk, e: Entry, f: Entry, want: map<string, string>)
    requires Configured(d, e.app, e.target, want) && Inject(d, f.app, f.target, want).outcome != Crashed
    requires e.app == f.app <==> e.target == f.target
    requires f.app in d.backups ==> Covers(d, f.app, f.target)
    ensures Configured(Inject(d, f.app, f.target, want).Last(d), e.app, e.target, want)
  {
    if e.target == f.target {
      InjectConfigures(d, f.app, f.target, want);
    } else {
      hide Patched, Capture;
    }
  }

  /** The world after the first of some entries. */
  lemma NextEntry(w: World, f: Entry, rest: seq<Entry>, want: map<string, string>, exact: bool) returns (w1: World)
    requires Inv(w, exact) && AllConsistent(w.disk, [f] + rest) && want.Keys <= MANAGED
    requires Injectable(f.target, w.ideal)
    requires forall i :: 0 <= i < |rest| ==> (f.app == rest[i].app <==> f.target == rest[i].target)
    requires InjectAll(w.disk, [f] + rest, want).outcome != Crashed
    ensures Inject(w.disk, f.app, f.target, want).outcome != Crashed
    ensures w1 == World(Inject(w.disk, f.app, f.target, want).Last(w.disk), w.ideal) && Inv(w1, exact)
    ensures AllConsistent(w1.disk, rest) && InjectAll(w1.disk, rest, want).outcome != Crashed
    ensures InjectAll(w.disk, [f] + rest, want).Last(w.disk) == InjectAll(w1.disk, rest, want).Last(w1.disk)
  {
    hide Inv, Inject;
    var all := [f] + rest;
    assert all[0] == f && all[1..] == rest;
    assert Consistent(w.disk, all[0].app, all[0].target);
    var t := Inject(w.disk, f.app, f.target, want);
    w1 := World(t.Last(w.disk), w.ideal);
    InjectKeeps(w, f.app, f.target, want, exact);
    forall i | 0 <= i < |rest| ensures Consistent(w1.disk, rest[i].app, rest[i].target) {
      assert rest[i] == all[i + 1];
      StaysConsistent(w.disk, w1.disk, f, rest[i]);
    }
    LastOfThen(t, InjectAll(w1.disk, rest, want), w.disk, []);
  }

  lemma {:induction false} AllStayConfigured(w: World, e: Entry, entries: seq<Entry>, want: map<string, string>, exact: bool)
    requires Inv(w, exact) && Separate(entries, w.ideal) && want.Keys <= MANAGED && AllConsistent(w.disk, entries)
    requires forall i :: 0 <= i < |entries| ==> (e.app == entries[i].app <==> e.target == entries[i].target)
    requires Configured(w.disk, e.app, e.target, want) && InjectAll(w.disk, entries, want).outcome != Crashed
    ensures Configured(InjectAll(w.disk, entries, want).Last(w.disk), e.app, e.target, want)
    decreases |entries|
  {
    hide Inv, Inject, Configured;
    if entries != [] {
      var f, rest := entries[0], entries[1..];
      assert entries == [f] + rest;
      assert forall j :: 0 <= j < |rest| ==> rest[j] == entries[j + 1];
      assert Consistent(w.disk, entries[0].app, entries[0].target);
      var w1 := NextEntry(w, f, rest, want, exact);
      StaysConfigured(w.disk, e, f, want);
      AllStayConfigured(w1, e, rest, want, exact);
    }
  }

  lemma {:induction false} InjectAllConfigures(w: World, entries: seq<Entry>, i: nat, want: map<string, string>, exact: bool)
    requires Inv(w, exact) && Separate(entries, w.ideal) && want.Keys <= MANAGED && AllConsistent(w.disk, entries)
    requires i < |entries| && InjectAll(w.disk, entries, want).outcome != Crashed
    ensures Configured(InjectAll(w.disk, entries, want).Last(w.disk), entries[i].app, entries[i].target, want)
    decreases |entries|
  {
    hide Inv, Inject, Configured;
    var f, rest := entries[0], entries[1..];
    assert entries == [f] + rest;
    assert forall j :: 0 <= j < |rest| ==> rest[j] == entries[j + 1];
    assert Consistent(w.disk, entries[0].app, entries[0].target);
    var w1 := NextEntry(w, f, rest, want, exact);
    if i == 0 {
      InjectConfigures(w.disk, f.app, f.target, want);
      AllStayConfigured(w1, f, rest, want, exact);
    } else {
      InjectAllConfigures(w1, rest, i - 1, want, exact);
    }
  }

  /** Malformed and null files are never made, only found. */
  ghost predicate NoneMade(before: Disk, after: Disk) {
    forall p :: p in after.files && (after.files[p].Malformed? || after.files[p].Null?) ==>
      p in before.files && before.files[p] == after.files[p]
  }

  lemma {:induction false} RevertAllMakesNone(d: Disk, apps: seq<string>)
    requires Revertible(d, apps)
    ensures NoneMade(d, RevertAll(d, apps).Last(d))
    decreases |apps|
  {
    if apps != [] {
      var t := RevertEntry(d, apps[0]);
      RevertEntryMakesNone(d, apps[0]);
      RevertEntryOthers(d, apps[0]);
      hide RevertEntry;
      if t.outcome != Crashed {
        RevertAllMakesNone(t.Last(d), apps[1..]);
        LastOfThen(t, RevertAll(t.Last(d), apps[1..]), d, []);
      }
    }
  }

  lemma RevertEntryMakesNone(d: Disk, app: string)
    requires app in d.backups
    ensures NoneMade(d, RevertEntry(d, app).Last(d))
  {
    hide Restored;
  }

  lemma InjectMakesNone(d: Disk, app: string, target: string, want: map<string, string>)
    ensures NoneMade(d, Inject(d, app, target, want).Last(d))
    ensures Inject(d, app, target, want).outcome == Crashed ==> target in d.files && d.files[target].Null?
  {
    hide Patched, Capture;
  }

  /** Some entry is about a null file. */
  ghost predicate NullAmong(files: map<string, Document>, entries: seq<Entry>) {
    exists i :: 0 <= i < |entries| && entries[i].target in files && files[entries[i].target].Null?
  }

  lemma {:induction false} InjectAllMakesNone(d: Disk, entries: seq<Entry>, want: map<string, string>)
    ensures NoneMade(d, InjectAll(d, entries, want).Last(d))
    ensures InjectAll(d, entries, want).outcome == Crashed ==> NullAmong(d.files, entries)
    decreases |entries|
  {
    hide Inject;
    if entries != [] {
      var e, rest := entries[0], entries[1..];
      var t := Inject(d, e.app, e.target, want);
      InjectMakesNone(d, e.app, e.target, want);
      if t.outcome != Crashed {
        var d1 := t.Last(d);
        InjectAllMakesNone(d1, rest, want);
        LastOfThen(t, InjectAll(d1, rest, want), d, []);
        if NullAmong(d1.files, rest) {
          var i :| 0 <= i < |rest| && rest[i].target in d1.files && d1.files[rest[i].target].Null?;
          assert entries[i + 1] == rest[i];
        }
      }
    }
  }

  /** An `up` that is not cut short configures every entry whose file was not malformed: the app has a
      record for that file, and the file is an object whose env block sets each wanted variable. */
  lemma UpConfigures(w: World, apps: seq<string>, entries: seq<Entry>, i: nat, want: map<string, string>, exact: bool)
    requires Inv(w, exact) && Lists(apps, w.disk) && Separate(entries, w.ideal) && want.Keys <= MANAGED
    requires i < |entries| && Up(w.disk, apps, entries, want).outcome != Crashed
    ensures var end, p := Up(w.disk, apps, entries, want).Last(w.disk), entries[i].target;
            && Configured(end, entries[i].app, p, want)
            && (p in end.files && end.files[p].Malformed? ==> p in w.disk.files && w.disk.files[p].Malformed?)
  {
    RevertAllKeeps(w, apps, exact);
    CompleteRevert(w, apps, exact);
    RevertAllMakesNone(w.disk, apps);
    var t := RevertAll(w.disk, apps);
    var w1 := World(t.Last(w.disk), w.ideal);
    assert w1.disk.backups == map[];
    InjectAllMakesNone(w1.disk, entries, want);
    hide Inv, RevertAll, InjectAll, Configured, Clean;
    InjectAllConfigures(w1, entries, i, want, exact);
    LastOfThen(t, InjectAll(w1.disk, entries, want), w.disk, []);
  }

  /** And it is cut short only by an entry whose file the user has made null. */
  lemma UpCrashesOnlyOnNull(w: World, apps: seq<string>, entries: seq<Entry>, want: map<string, string>, exact: bool)
    requires Inv(w, exact) && Lists(apps, w.disk)
    ensures Up(w.disk, apps, entries, want).outcome == Crashed ==> NullAmong(w.ideal, entries)
  {
    CompleteRevert(w, apps, exact);
    var d1 := RevertAll(w.disk, apps).Last(w.disk);
    InjectAllMakesNone(d1, entries, want);
    hide RevertAll, InjectAll, Inv;
    if NullAmong(d1.files, entries) {
      var i :| 0 <= i < |entries| && entries[i].target in d1.files && d1.files[entries[i].target].Null?;
      var p := entries[i].target;
      assert p in w.ideal && Same(d1.files[p], w.ideal[p], exact);
    }
  }

  /** Without entries, when the CA or the system proxy could not be set up, `up` is a complete revert. */
  lemma UpWithoutEntries(w: World, apps: seq<string>, want: map<string, string>, exact: bool)
    requires Inv(w, exact) && Lists(apps, w.disk)
    ensures Up(w.disk, apps, [], want).outcome == Done
    ensures Clean(Up(w.disk, apps, [], want).Last(w.disk), w.ideal, exact)
  {
    CompleteRevert(w, apps, exact);
    var t := RevertAll(w.disk, apps);
    LastOfThen(t, InjectAll(t.Last(w.disk), [], want), w.disk, []);
    hide RevertAll, Clean, Inv;
  }
  // ---------------------------------------------------------------- user edits

  /** Edits that leave the managed keys alone: a top-level key other than env, or an unmanaged variable. */
  datatype Edit = SetTop(key: string, v: Json) | DropTop(key: string) | SetVar(key: string, v: Json) | DropVar(key: string)

  function Edited(d: Document, e: Edit): Document
    requires !d.Malformed?
  {
    var f := Fields(d);
    match e
    case SetTop(k, v) => Object(f[k := v])
    case DropTop(k) => Object(f - {k})
    case SetVar(k, v) => Object(f["env" := Obj(EnvOf(f)[k := v])])
    case DropVar(k) => Object(if HasEnv(f) then f["env" := Obj(EnvOf(f) - {k})] else f)
  }

  /** `exact` keeps to the edits that cannot make an env block come or go. */
  predicate EditAllowed(d: Document, e: Edit, exact: bool) {
    && !d.Malformed?
    && (e.SetTop? || e.DropTop? ==> e.key != "env")
    && (e.SetVar? || e.DropVar? ==> e.key !in MANAGED && EnvOk(Fields(d)) && !exact)
  }

  function EditTop(f: Env, e: Edit): Env {
    if e.SetTop? then f[e.key := e.v] else if e.DropTop? then f - {e.key} else f
  }

  function EditVars(env: Env, e: Edit): Env {
    if e.SetVar? then env[e.key := e.v] else if e.DropVar? then env - {e.key} else env
  }

  /** An edit acts on the top level and on the env block separately. */
  lemma EditedParts(d: Document, e: Edit)
    requires EditAllowed(d, e, false)
    ensures var f, g := Fields(d), Fields(Edited(d, e));
            && g - {"env"} == EditTop(f - {"env"}, e)
            && EnvOf(g) == EditVars(EnvOf(f), e)
            && EnvOf(g) - MANAGED == EditVars(EnvOf(f) - MANAGED, e)
            && (EnvOk(f) ==> EnvOk(g)) && (HasEnv(f) ==> HasEnv(g))
            && (e.SetTop? || e.DropTop? ==> (HasEnv(f) <==> HasEnv(g)))
  {
    var f, g := Fields(d), Fields(Edited(d, e));
    match e
    case SetTop(k, v) => assert g - {"env"} == (f - {"env"})[k := v];
    case DropTop(k) => assert g - {"env"} == (f - {"env"}) - {k};
    case SetVar(k, v) =>
      assert g - {"env"} == f - {"env"};
      assert EnvOf(g) - MANAGED == (EnvOf(f) - MANAGED)[k := v];
    case DropVar(k) =>
      assert g - {"env"} == f - {"env"};
      assert EnvOf(g) == EnvOf(f) - {k};
      assert EnvOf(g) - MANAGED == (EnvOf(f) - MANAGED) - {k};
  }

  lemma EditKeepsTwin(actual: Document, ideal: Document, b: Backup, e: Edit, exact: bool)
    requires b.Record? && Twin(actual, ideal, b, exact) && EditAllowed(ideal, e, exact)
    ensures Twin(Edited(actual, e), Edited(ideal, e), b, exact)
  {
    EditedParts(actual, e);
    EditedParts(ideal, e);
  }

  lemma EditKeepsSame(actual: Document, ideal: Document, e: Edit, exact: bool)
    requires Same(actual, ideal, exact) && EditAllowed(ideal, e, exact)
    ensures Same(Edited(actual, e), Edited(ideal, e), exact)
  {
    var f, g := Fields(actual), Fields(ideal);
    if f != g {
      var f1, g1 := Fields(Edited(actual, e)), Fields(Edited(ideal, e));
      match e
      case SetTop(k, v) => assert g1 == f1["env" := Obj(map[])];
      case DropTop(k) => assert g1 == f1["env" := Obj(map[])];
      case SetVar(k, v) => assert g1 == f1;
      case DropVar(k) =>
        var empty: Env := map[];
        assert empty - {k} == empty;
        assert g1 == f1["env" := Obj(map[])];
    }
  }

  lemma EditKeeps(w: World, p: string, e: Edit, exact: bool)
    requires Inv(w, exact) && p in w.ideal && EditAllowed(w.ideal[p], e, exact)
    ensures p in w.disk.files && !w.disk.files[p].Malformed?
    ensures Inv(World(w.disk.(files := w.disk.files[p := Edited(w.disk.files[p], e)]),
                      w.ideal[p := Edited(w.ideal[p], e)]), exact)
  {
    var d := w.disk;
    if Covered(d, p) {
      var a :| Covers(d, a, p);
      assert Truthful(d.backups[a], d.files, w.ideal, exact);
      EditKeepsTwin(d.files[p], w.ideal[p], d.backups[a], e, exact);
    } else {
      assert SameFile(p, d.files, w.ideal, exact);
      EditKeepsSame(d.files[p], w.ideal[p], e, exact);
    }
    UserWriteKeeps(w, p, Some(Edited(d.files[p], e)), Some(Edited(w.ideal[p], e)), exact);
  }

  function Place(files: map<string, Document>, p: string, doc: Option<Document>): map<string, Document> {
    if doc.Some? then files[p := doc.value] else files - {p}
  }

  lemma UserWriteKeeps(w: World, p: string, actual: Option<Document>, ideal: Option<Document>, exact: bool)
    requires Inv(w, exact)
    requires Covered(w.disk, p) ==>
               forall a :: Covers(w.disk, a, p) ==>
                 Truthful(w.disk.backups[a], Place(w.disk.files, p, actual), Place(w.ideal, p, ideal), exact)
    requires !Covered(w.disk, p) ==>
               SameFile(p, Place(w.disk.files, p, actual), Place(w.ideal, p, ideal), exact)
    ensures Inv(World(w.disk.(files := Place(w.disk.files, p, actual)), Place(w.ideal, p, ideal)), exact)
  {
    var d := w.disk;
    var w1 := World(d.(files := Place(d.files, p, actual)), Place(w.ideal, p, ideal));
    var e := w1.disk;
    forall a, q ensures Covers(e, a, q) <==> Covers(d, a, q) {}
    forall a | a in e.backups && e.backups[a].Record? ensures Truthful(e.backups[a], e.files, w1.ideal, exact) {
      var q := d.backups[a].path;
      assert Covers(d, a, q) && Truthful(d.backups[a], d.files, w.ideal, exact);
      if q == p { assert Covered(d, p); }
    }
    forall q | !Covered(e, q) ensures SameFile(q, e.files, w1.ideal, exact) {
      assert forall a :: Covers(d, a, q) ==> Covers(e, a, q);
      assert SameFile(q, d.files, w.ideal, exact);
    }
  }

  // ---------------------------------------------------------------- runs

  /** What can happen between two points in time. `writes` is how many file writes an operation gets to
      make before it is killed; any number at or above their count lets it complete. */
  datatype Op =
    | UpOp(apps: seq<string>, entries: seq<Entry>, want: map<string, string>, writes: nat)
    | InjectOp(entries: seq<Entry>, want: map<string, string>, writes: nat)  // no revert first
    | DownOp(apps: seq<string>, writes: nat)
    | ReplaceOp(path: string, doc: Option<Document>)  // the user writes or deletes a file no record names
    | EditOp(path: string, edit: Edit)
    | LostOp(path: string, doc: Option<Document>)     // the user writes or deletes a file aitori created

  ghost predicate Admissible(w: World, op: Op, exact: bool) {
    match op
    case UpOp(apps, entries, want, _) => Lists(apps, w.disk) && Separate(entries, w.ideal) && want.Keys == MANAGED
    case InjectOp(entries, want, _) =>
      AllConsistent(w.disk, entries) && Separate(entries, w.ideal) && want.Keys == MANAGED
    case DownOp(apps, _) => Lists(apps, w.disk)
    case ReplaceOp(p, doc) => !Covered(w.disk, p)
    case EditOp(p, e) => && p in w.ideal && EditAllowed(w.ideal[p], e, exact)
                         && p in w.disk.files && !w.disk.files[p].Malformed?
    case LostOp(p, _) => Created(w.disk, p)
  }

  function Cut(t: Trace, start: Disk, writes: nat): Disk {
    if writes == 0 || t.states == [] then start
    else if writes <= |t.states| then t.states[writes - 1] else t.states[|t.states| - 1]
  }

  /** The ideal files follow the user's edits; what the user puts into a file that aitori created does
      not count, since revert removes that file. */
  ghost function Step(w: World, op: Op, exact: bool): World
    requires Admissible(w, op, exact)
  {
    match op
    case UpOp(apps, entries, want, n) => w.(disk := Cut(Up(w.disk, apps, entries, want), w.disk, n))
    case InjectOp(entries, want, n) => w.(disk := Cut(InjectAll(w.disk, entries, want), w.disk, n))
    case DownOp(apps, n) => w.(disk := Cut(RevertAll(w.disk, apps), w.disk, n))
    case ReplaceOp(p, doc) => World(w.disk.(files := Place(w.disk.files, p, doc)), Place(w.ideal, p, doc))
    case EditOp(p, e) => World(w.disk.(files := w.disk.files[p := Edited(w.disk.files[p], e)]),
                               w.ideal[p := Edited(w.ideal[p], e)])
    case LostOp(p, doc) => w.(disk := w.disk.(files := Place(w.disk.files, p, doc)))
  }

  lemma CreatedWriteKeeps(w: World, p: string, doc: Option<Document>, exact: bool)
    requires Inv(w, exact) && Created(w.disk, p)
    ensures Inv(World(w.disk.(files := Place(w.disk.files, p, doc)), w.ideal), exact)
  {
    var a :| Covers(w.disk, a, p) && !w.disk.backups[a].settingsExisted;
    assert Truthful(w.disk.backups[a], w.disk.files, w.ideal, exact);
    FileWrite(w, a, Place(w.disk.files, p, doc), exact);
  }

  lemma StepKeeps(w: World, op: Op, exact: bool)
    requires Inv(w, exact) && Admissible(w, op, exact)
    ensures Inv(Step(w, op, exact), exact)
  {
    match op
    case UpOp(apps, entries, want, n) => UpKeeps(w, apps, entries, want, exact);
    case InjectOp(entries, want, n) => InjectAllKeeps(w, entries, want, exact);
    case DownOp(apps, n) => RevertAllKeeps(w, apps, exact);
    case ReplaceOp(p, doc) => UserWriteKeeps(w, p, doc, doc, exact);
    case EditOp(p, e) => EditKeeps(w, p, e, exact);
    case LostOp(p, doc) => CreatedWriteKeeps(w, p, doc, exact);
  }

  ghost predicate Run(w: World, ops: seq<Op>, end: World, exact: bool)
    decreases |ops|
  {
    if ops == [] then end == w
    else Admissible(w, ops[0], exact) && Run(Step(w, ops[0], exact), ops[1..], end, exact)
  }

  lemma {:induction false} RunKeeps(w: World, ops: seq<Op>, end: World, exact: bool)
    requires Inv(w, exact) && Run(w, ops, end, exact)
    ensures Inv(end, exact)
    decreases |ops|
  {
    if ops != [] {
      StepKeeps(w, ops[0], exact);
      RunKeeps(Step(w, ops[0], exact), ops[1..], end, exact);
    }
  }

  /** User edits commute with revert, over every run: after any number of ups, repeated injects and downs
      killed anywhere, a completed RevertAll succeeds, leaves no backup, and leaves exactly the files that
      the user's edits alone would have produced, up to an empty env block that is dropped. */
  lemma EditsCommuteWithRevert(files: map<string, Document>, ops: seq<Op>, end: World, apps: seq<string>)
    requires Run(World(Disk(files, map[]), files), ops, end, false) && Lists(apps, end.disk)
    ensures RevertAll(end.disk, apps).outcome == Done
    ensures Clean(RevertAll(end.disk, apps).Last(end.disk), end.ideal, false)
  {
    FreshInv(files, false);
    RunKeeps(World(Disk(files, map[]), files), ops, end, false);
    CompleteRevert(end, apps, false);
  }

  lemma FreshInv(files: map<string, Document>, exact: bool)
    ensures Inv(World(Disk(files, map[]), files), exact)
  {}

  ghost predicate OnlyLifecycle(ops: seq<Op>) {
    forall i :: 0 <= i < |ops| ==> ops[i].UpOp? || ops[i].InjectOp? || ops[i].DownOp? || ops[i].LostOp?
  }

  lemma {:induction false} LifecycleKeepsIdeal(w: World, ops: seq<Op>, end: World)
    requires Run(w, ops, end, true) && OnlyLifecycle(ops)
    ensures end.ideal == w.ideal
    decreases |ops|
  {
    if ops != [] { LifecycleKeepsIdeal(Step(w, ops[0], true), ops[1..], end); }
  }

  /** Without edits of the user's own files, a completed revert gives every settings file its original
      JSON value back (a blank file becomes {}) and removes exactly the files that aitori created. */
  lemma OriginalsRestored(files: map<string, Document>, ops: seq<Op>, end: World, apps: seq<string>)
    requires Run(World(Disk(files, map[]), files), ops, end, true) && OnlyLifecycle(ops) && Lists(apps, end.disk)
    ensures RevertAll(end.disk, apps).outcome == Done
    ensures Clean(RevertAll(end.disk, apps).Last(end.disk), files, true)
  {
    FreshInv(files, true);
    RunKeeps(World(Disk(files, map[]), files), ops, end, true);
    LifecycleKeepsIdeal(World(Disk(files, map[]), files), ops, end);
    CompleteRevert(end, apps, true);
  }

  // ---------------------------------------------------------------- one document, there and back

  lemma DropOne<V>(a: string, b: string, x: V, y: V)
    requires a != b
    ensures map[a := x, b := y] - {a} == map[b := y] && map[a := x, b := y] - {b} == map[a := x]
    ensures map[b := y] - {b} == map[]
  {}

  lemma SetAgain<V>(m: map<string, V>, p: string, x: V, y: V)
    ensures m[p := x][p := y] == m[p := y]
    ensures p !in m ==> m[p := x] - {p} == m
  {}

  lemma CaptureAbout(p: string, existed: bool, f: Env)
    ensures var b := Capture(p, existed, f); b.Record? && b.path == p && b.settingsExisted == existed
  {}

  lemma DocumentRoundTrip(f: Env, target: string, want: map<string, string>)
    requires want.Keys == MANAGED
    ensures Restored(Patched(f, want), Capture(target, true, f)) == f <==> Restorable(Object(f))
  {
    var b, p := Capture(target, true, f), Patched(f, want);
    var env := RestoredEnv(EnvOf(p), b.prior);
    if Restorable(Object(f)) {
      CaptureIsTwin(Object(f), Object(f), target, true);
      PatchedIsTwin(Object(f), Object(f), b, want, true);
      RestoredIsTwinAndSame(Object(p), Object(f), b, true);
    } else if !EnvOk(f) {
      assert "HTTP_PROXY" in b.prior;
      assert env == map[];
    } else {
      var k :| k in MANAGED && k in EnvOf(f) && !EnvOf(f)[k].Str?;
      assert b.prior[k] == Some(Sprint(EnvOf(f)[k]));
      assert env[k] == Str(Sprint(EnvOf(f)[k]));
    }
  }

  /** One inject and the revert of what it recorded. */
  function ThereAndBack(d: Disk, app: string, target: string, want: map<string, string>): Disk {
    var d1 := Inject(d, app, target, want).Last(d);
    if app in d1.backups && d1.backups[app].Record? then Revert(d1, app).Last(d1) else d1
  }

  /** One inject and one revert give back any disk, except that a blank file becomes {} and that an
      object comes back changed exactly when it was not restorable. */
  lemma RoundTripIff(d: Disk, app: string, target: string, want: map<string, string>)
    requires app !in d.backups && want.Keys == MANAGED
    ensures var doc := Contents(d, target);
            && (target in d.files && doc.Blank? ==>
                  ThereAndBack(d, app, target, want) == d.(files := d.files[target := Object(map[])]))
            && (target !in d.files || !doc.Blank? ==>
                  (ThereAndBack(d, app, target, want) == d <==> (doc.Object? ==> Restorable(doc))))
  {
    var doc := Contents(d, target);
    if target !in d.files {
      CreatedFileIsRemoved(d, app, target, want, Object(Patched(map[], want)));
    } else if doc.Object? || doc.Blank? {
      ExistingRoundTrip(d, app, target, want);
    } else if doc.Null? {
      NullRoundTrip(d, app, target, want);
    }
  }

  lemma ExistingRoundTrip(d: Disk, app: string, target: string, want: map<string, string>)
    requires app !in d.backups && want.Keys == MANAGED && target in d.files
    requires d.files[target].Object? || d.files[target].Blank?
    ensures var f, back := Fields(d.files[target]), ThereAndBack(d, app, target, want);
            && back.backups == d.backups
            && target in back.files && back.files[target].Object?
            && back == d.(files := d.files[target := back.files[target]])
            && (back.files[target] == Object(f) <==> Restorable(Object(f)))
  {
    var f := Fields(d.files[target]);
    DocumentRoundTrip(f, target, want);
    CaptureAbout(target, true, f);
    hide Restorable, Patched, Restored, Capture;
    var b, patched := Capture(target, true, f), Object(Patched(f, want));
    var d1 := d.(files := d.files[target := patched], backups := d.backups[app := b]);
    assert Inject(d, app, target, want).Last(d) == d1;
    SetAgain(d.files, target, patched, Object(Restored(Patched(f, want), b)));
    SetAgain(d.backups, app, b, b);
  }

  lemma NullRoundTrip(d: Disk, app: string, target: string, want: map<string, string>)
    requires app !in d.backups && target in d.files && d.files[target].Null?
    ensures ThereAndBack(d, app, target, want) == d
  {
    var b := Capture(target, true, map[]);
    var d1 := d.(backups := d.backups[app := b]);
    assert RestoredEnv(map[], b.prior) == map[];
    var back := Revert(d1, app).Last(d1);
    assert back.backups == d.backups && back.files == d.files;
  }

  // ---------------------------------------------------------------- files that aitori created

  /** Whatever the user has put into the file of a record by the time of a revert: the file stays if and
      only if the record says that it existed. If it stays, every top-level key but env and every variable
      that the record does not name is as the user left it, and so is a malformed file as a whole. */
  lemma RevertKeepsFileIff(d: Disk, app: string, later: Document)
    requires app in d.backups && d.backups[app].Record?
    ensures var b := d.backups[app];
            var edited := d.(files := d.files[b.path := later]);
            var end := Revert(edited, app).Last(edited).files;
            && (b.path in end <==> b.settingsExisted)
            && (forall p :: p != b.path ==> (p in end <==> p in d.files) && (p in end ==> end[p] == d.files[p]))
            && (b.settingsExisted && later.Malformed? ==> end[b.path] == later)
            && (b.settingsExisted && !later.Malformed? ==>
                  && !end[b.path].Malformed?
                  && Fields(end[b.path]) - {"env"} == Fields(later) - {"env"}
                  && EnvOf(Fields(end[b.path])) - b.prior.Keys == EnvOf(Fields(later)) - b.prior.Keys)
  {
    var b := d.backups[app];
    if b.settingsExisted && !later.Malformed? {
      var f := Fields(later);
      var g := Restored(f, b);
      assert g - {"env"} == f - {"env"};
      assert EnvOf(g) - b.prior.Keys == EnvOf(f) - b.prior.Keys by {
        assert RestoredEnv(EnvOf(f), b.prior) - b.prior.Keys == EnvOf(f) - b.prior.Keys;
      }
    }
  }

  /** A file that aitori created is removed by revert, whatever the user has put into it meanwhile. */
  lemma CreatedFileIsRemoved(d: Disk, app: string, target: string, want: map<string, string>, later: Document)
    requires app !in d.backups && target !in d.files
    ensures var d1 := Inject(d, app, target, want).Last(d);
            var edited := d1.(files := d1.files[target := later]);
            && app in edited.backups && edited.backups[app].Record?
            && Revert(edited, app).Last(edited) == d
  {
    var d1 := Inject(d, app, target, want).Last(d);
    var edited := d1.(files := d1.files[target := later]);
    assert edited.backups[app] == Capture(target, false, map[]);
    var e := Revert(edited, app).Last(edited);
    assert e.files == d.files && e.backups == d.backups;
  }

  /** The same befalls a file that aitori never wrote: `up` is killed between its two writes, the client
      then makes its own settings file, and the next revert removes it. */
  lemma KilledInjectCostsLaterFile(d: Disk, app: string, target: string, want: map<string, string>, later: Document)
    requires app !in d.backups && target !in d.files
    ensures var t := Inject(d, app, target, want);
            && |t.states| == 2 && t.states[0].files == d.files
            && var edited := t.states[0].(files := d.files[target := later]);
               && app in edited.backups && edited.backups[app].Record?
               && Revert(edited, app).Last(edited) == d
  {
    var killed := Inject(d, app, target, want).states[0];
    var edited := killed.(files := d.files[target := later]);
    var e := Revert(edited, app).Last(edited);
    assert e.files == d.files && e.backups == d.backups;
  }

  // ---------------------------------------------------------------- entries that are not separate

  /** Injection stops at such a file without writing it. */
  predicate Skips(files: map<string, Document>, p: string) { p in files && (files[p].Malformed? || files[p].Null?) }

  /** Injection leaves the file as it is: it stops there, or the wanted values are all set already. */
  predicate Inert(files: map<string, Document>, p: string, want: map<string, string>) {
    || Skips(files, p)
    || (p in files && files[p].Object? && Patched(files[p].fields, want) == files[p].fields)
  }

  /** The disk after two entries. */
  function AfterTwo(d: Disk, e: Entry, f: Entry, want: map<string, string>): Disk { InjectAll(d, [e, f], want).Last(d) }

  lemma TwoEntries(d: Disk, e: Entry, f: Entry, want: map<string, string>)
    ensures var t := Inject(d, e.app, e.target, want);
            var d1 := t.Last(d);
            AfterTwo(d, e, f, want) == if t.outcome == Crashed then d1 else Inject(d1, f.app, f.target, want).Last(d1)
  {
    hide Inject;
    assert [e, f][1..] == [f] && [f][1..] == [];
    var d1 := Inject(d, e.app, e.target, want).Last(d);
    var u := Inject(d1, f.app, f.target, want);
    assert InjectAll(d1, [f], want).Last(d1) == u.Last(d1);
  }

  /** The first of two entries makes the only record. */
  lemma FirstRecord(d: Disk, a: string, p: string, want: map<string, string>)
    requires d.backups == map[] && !Skips(d.files, p)
    ensures var d1 := Inject(d, a, p, want).Last(d);
            && Inject(d, a, p, want).outcome == Done
            && (forall x, y :: Covers(d1, x, y) <==> x == a && y == p)
            && d1.backups.Keys == {a}
            && d1.files == d.files[p := Object(Patched(Fields(Contents(d, p)), want))]
  {
    hide Patched;
  }

  lemma SecondTarget(d: Disk, a: string, p: string, q: string, want: map<string, string>)
    requires d.backups == map[] && p != q && !Skips(d.files, p)
    ensures var d1 := Inject(d, a, p, want).Last(d);
            AfterTwo(d, Entry(a, p), Entry(a, q), want)
              == if Skips(d.files, q) then d1
                 else d1.(files := d1.files[q := Object(Patched(Fields(Contents(d, q)), want))])
  {
    TwoEntries(d, Entry(a, p), Entry(a, q), want);
    FirstRecord(d, a, p, want);
    hide Patched;
  }

  /** Two entries for one app: the second target is patched without a record of its own. After a
      completed revert it is still patched, and everything else is as it was. */
  lemma RepeatedAppLeavesResidue(d: Disk, a: string, p: string, q: string, want: map<string, string>, apps: seq<string>)
    requires d.backups == map[] && Injectable(p, d.files) && want.Keys == MANAGED
    requires p != q && !Skips(d.files, p) && !Skips(d.files, q)
    requires Lists(apps, AfterTwo(d, Entry(a, p), Entry(a, q), want))
    ensures var up := AfterTwo(d, Entry(a, p), Entry(a, q), want);
            Clean(RevertAll(up, apps).Last(up),
                  d.files[q := Object(Patched(Fields(Contents(d, q)), want))], true)
  {
    assert d == Disk(d.files, map[]);
    FreshInv(d.files, true);
    FirstRecord(d, a, p, want);
    SecondTarget(d, a, p, q, want);
    hide Inv, Clean, Inject, RevertAll, AfterTwo, Patched;
    InjectKeeps(World(d, d.files), a, p, want, true);
    var d1 := Inject(d, a, p, want).Last(d);
    var doc := Object(Patched(Fields(Contents(d, q)), want));
    UserWriteKeeps(World(d1, d.files), q, Some(doc), Some(doc), true);
    CompleteRevert(World(d1.(files := d1.files[q := doc]), d.files[q := doc]), apps, true);
  }

  /** So two entries for one app are reverted cleanly, on any clean disk and however the backup directory
      is listed, exactly when they have one target, or injection skips the first target (and so leaves the
      record to the second), or it has nothing to change in the second. */
  lemma RepeatedAppIsCleanIff(d: Disk, a: string, p: string, q: string, want: map<string, string>, apps: seq<string>)
    requires d.backups == map[] && Injectable(p, d.files) && Injectable(q, d.files) && want.Keys == MANAGED
    requires Lists(apps, AfterTwo(d, Entry(a, p), Entry(a, q), want))
    ensures var up := AfterTwo(d, Entry(a, p), Entry(a, q), want);
            Clean(RevertAll(up, apps).Last(up), d.files, true) <==>
              p == q || Skips(d.files, p) || Inert(d.files, q, want)
  {
    var up := AfterTwo(d, Entry(a, p), Entry(a, q), want);
    if p == q || Skips(d.files, p) || Inert(d.files, q, want) {
      CleanEntries(d, a, p, q, want);
      CompleteRevert(World(up, d.files), apps, true);
    } else {
      RepeatedAppLeavesResidue(d, a, p, q, want, apps);
      var doc := Object(Patched(Fields(Contents(d, q)), want));
      hide Patched, Inject, RevertAll, AfterTwo;
      StillPatched(RevertAll(up, apps).Last(up), d, q, want);
    }
  }

  lemma CleanEntries(d: Disk, a: string, p: string, q: string, want: map<string, string>)
    requires d.backups == map[] && Injectable(p, d.files) && Injectable(q, d.files) && want.Keys == MANAGED
    requires p == q || Skips(d.files, p) || Inert(d.files, q, want)
    ensures Inv(World(AfterTwo(d, Entry(a, p), Entry(a, q), want), d.files), true)
  {
    var w := World(d, d.files);
    assert d == Disk(d.files, map[]);
    FreshInv(d.files, true);
    assert !Covered(d, p) && !Covered(d, q);
    InjectKeeps(w, a, p, want, true);
    TwoEntries(d, Entry(a, p), Entry(a, q), want);
    var t := Inject(d, a, p, want);
    var d1 := t.Last(d);
    if t.outcome != Crashed {
      if Skips(d.files, p) {
        assert d1 == d;
        hide Inv, Inject, Patched;
        InjectKeeps(w, a, q, want, true);
      } else if p == q {
        FirstRecord(d, a, p, want);
        hide Inv, Inject, Patched;
        InjectKeeps(World(d1, d.files), a, q, want, true);
      } else {
        SecondTarget(d, a, p, q, want);
        FirstRecord(d, a, p, want);
        hide Inv, Inject, Patched;
        assert !Skips(d.files, q) ==> d1.files[q := d1.files[q]] == d1.files;
      }
    }
  }

  /** A file that injection changed and nobody restored is not the original. */
  lemma StillPatched(end: Disk, d: Disk, q: string, want: map<string, string>)
    requires want.Keys == MANAGED && !Inert(d.files, q, want)
    requires Clean(end, d.files[q := Object(Patched(Fields(Contents(d, q)), want))], true)
    ensures !Clean(end, d.files, true)
  {
    var doc := Object(Patched(Fields(Contents(d, q)), want));
    var patched := d.files[q := doc];
    assert q in patched && Same(end.files[q], patched[q], true);
  }

  /** The record taken of a patched file restores just that. */
  lemma RecordOfInjected(f: Env, p: string, want: map<string, string>)
    requires want.Keys == MANAGED
    ensures Restored(f, Capture(p, true, Patched(f, want))) == Patched(f, want)
  {
    var b := Capture(p, true, Patched(f, want));
    assert EnvOf(Patched(f, want)) == EnvOf(f) + Strings(want);
    var r := RestoredEnv(EnvOf(f), b.prior);
    forall k ensures k in r <==> k in EnvOf(f) + Strings(want) {}
    assert r == EnvOf(f) + Strings(want) && "HTTP_PROXY" in b.prior && "HTTP_PROXY" in r;
  }

  /** Two records for one file, the second taken of the patched file. */
  function Shared(d: Disk, a: string, b: string, p: string, want: map<string, string>): Disk {
    var f := Fields(if Skips(d.files, p) then Blank else Contents(d, p));
    var patched := Patched(f, want);
    Disk(d.files[p := Object(patched)], map[a := Capture(p, p in d.files, f), b := Capture(p, true, patched)])
  }

  lemma SharedRecords(d: Disk, a: string, b: string, p: string, want: map<string, string>)
    requires a != b && d.backups == map[] && !Skips(d.files, p)
    ensures AfterTwo(d, Entry(a, p), Entry(b, p), want) == Shared(d, a, b, p, want)
    ensures Inject(d, a, p, want).Last(d)
         == Disk(Shared(d, a, b, p, want).files, map[a := Shared(d, a, b, p, want).backups[a]])
  {
    TwoEntries(d, Entry(a, p), Entry(b, p), want);
    var f := Fields(Contents(d, p));
    PatchedTwice(f, want);
    hide Patched, Capture;
    var d1 := Inject(d, a, p, want).Last(d);
    assert d1 == Disk(d.files[p := Object(Patched(f, want))], map[a := Capture(p, p in d.files, f)]);
    assert d1.files[p := d1.files[p]] == d1.files;
  }

  /** What a revert leaves, for a file that is an object, blank or gone. */
  lemma RevertWrites(d: Disk, app: string)
    requires app in d.backups && d.backups[app].Record?
    requires var doc := Contents(d, d.backups[app].path); doc.Object? || doc.Blank?
    ensures var b := d.backups[app];
            && RevertEntry(d, app).outcome == Done
            && RevertEntry(d, app).Last(d) == Disk(
                 if b.settingsExisted then d.files[b.path := Object(Restored(Fields(Contents(d, b.path)), b))]
                 else d.files - {b.path}, d.backups - {app})
  {
    hide Restored;
    var b := d.backups[app];
    if !b.settingsExisted && b.path !in d.files { assert d.files - {b.path} == d.files; }
  }

  /** Undoing the later of the two injections gives the disk that the earlier one left. */
  lemma LaterUndone(d: Disk, a: string, b: string, p: string, want: map<string, string>)
    requires a != b && !Skips(d.files, p) && want.Keys == MANAGED
    ensures var up := Shared(d, a, b, p, want);
            && RevertEntry(up, b).outcome == Done
            && RevertEntry(up, b).Last(up) == Disk(up.files, map[a := up.backups[a]])
  {
    var f := Fields(Contents(d, p));
    PatchedTwice(f, want);
    RecordOfInjected(Patched(f, want), p, want);
    CaptureAbout(p, true, Patched(f, want));
    hide Patched, Restored, RevertEntry, Capture;
    var up := Shared(d, a, b, p, want);
    RevertWrites(up, b);
    SetAgain(d.files, p, up.files[p], up.files[p]);
    DropOne(a, b, up.backups[a], up.backups[b]);
  }

  /** Undoing the earlier one first restores the file... */
  lemma EarlierUndone(d: Disk, a: string, b: string, p: string, want: map<string, string>)
    requires a != b && !Skips(d.files, p) && Injectable(p, d.files) && want.Keys == MANAGED
    ensures var up, f := Shared(d, a, b, p, want), Fields(Contents(d, p));
            && RevertEntry(up, a).outcome == Done
            && RevertEntry(up, a).Last(up)
                 == Disk(if p in d.files then d.files[p := Object(f)] else d.files, map[b := up.backups[b]])
  {
    var f := Fields(Contents(d, p));
    if p in d.files { DocumentRoundTrip(f, p, want); }
    CaptureAbout(p, p in d.files, f);
    hide Patched, Restored, RevertEntry, Capture, Restorable;
    var up := Shared(d, a, b, p, want);
    RevertWrites(up, a);
    SetAgain(d.files, p, up.files[p], Object(f));
    DropOne(a, b, up.backups[a], up.backups[b]);
  }

  /** ...and then the later record patches it again. */
  lemma LaterPatches(files: map<string, Document>, b: string, p: string, f: Env, want: map<string, string>)
    requires want.Keys == MANAGED && (if p in files then files[p] == Object(f) else f == map[])
    ensures var mid := Disk(files, map[b := Capture(p, true, Patched(f, want))]);
            && RevertEntry(mid, b).outcome == Done
            && RevertEntry(mid, b).Last(mid) == Disk(files[p := Object(Patched(f, want))], map[])
  {
    RecordOfInjected(f, p, want);
    hide Patched, Restored, RevertEntry;
    var mid := Disk(files, map[b := Capture(p, true, Patched(f, want))]);
    RevertWrites(mid, b);
    assert mid.backups - {b} == map[];
  }

  lemma RevertOneOf(d: Disk, app: string, rest: seq<string>)
    requires Revertible(d, [app] + rest) && RevertEntry(d, app).outcome != Crashed
    ensures Revertible(RevertEntry(d, app).Last(d), rest)
    ensures var d1 := RevertEntry(d, app).Last(d);
            RevertAll(d, [app] + rest).Last(d) == RevertAll(d1, rest).Last(d1)
    ensures rest == [] ==> RevertAll(d, [app]).Last(d) == RevertEntry(d, app).Last(d)
  {
    var apps := [app] + rest;
    assert apps[0] == app && apps[1..] == rest;
    RevertAllStep(d, apps, Trace([], Done));
    LastOfThen(RevertEntry(d, app), RevertAll(RevertEntry(d, app).Last(d), rest), d, []);
    if rest == [] { assert apps == [app]; }
  }

  /** Two apps with one target, the earlier record listed first: the later one took the injected values
      for the user's, and a completed revert brings them back. */
  lemma SharedTargetLeavesResidue(d: Disk, a: string, b: string, p: string, want: map<string, string>)
    requires a != b && d.backups == map[] && !Skips(d.files, p) && Injectable(p, d.files) && want.Keys == MANAGED
    ensures var up := AfterTwo(d, Entry(a, p), Entry(b, p), want);
            && Lists([a, b], up)
            && RevertAll(up, [a, b]).Last(up)
                 == Disk(d.files[p := Object(Patched(Fields(Contents(d, p)), want))], map[])
  {
    SharedRecords(d, a, b, p, want);
    BothUndone(d, a, b, p, want);
    hide *;
    RevertTwo(Shared(d, a, b, p, want), a, b);
  }

  lemma BothUndone(d: Disk, a: string, b: string, p: string, want: map<string, string>)
    requires a != b && !Skips(d.files, p) && Injectable(p, d.files) && want.Keys == MANAGED
    ensures var up := Shared(d, a, b, p, want);
            && up.backups.Keys == {a, b} && RevertEntry(up, a).outcome == Done
            && var mid := RevertEntry(up, a).Last(up);
               && mid.backups.Keys == {b} && RevertEntry(mid, b).outcome == Done
               && RevertEntry(mid, b).Last(mid)
                    == Disk(d.files[p := Object(Patched(Fields(Contents(d, p)), want))], map[])
  {
    EarlierUndone(d, a, b, p, want);
    var f := Fields(Contents(d, p));
    var files := if p in d.files then d.files[p := Object(f)] else d.files;
    hide Patched, Capture, RevertEntry, Restorable;
    LaterPatches(files, b, p, f, want);
    SetAgain(d.files, p, Object(f), Object(Patched(f, want)));
  }

  /** RevertAll over two records. */
  lemma RevertTwo(d: Disk, x: string, y: string)
    requires x != y && d.backups.Keys == {x, y} && RevertEntry(d, x).outcome != Crashed
    requires var mid := RevertEntry(d, x).Last(d); mid.backups.Keys == {y} && RevertEntry(mid, y).outcome != Crashed
    ensures Lists([x, y], d)
    ensures var mid := RevertEntry(d, x).Last(d);
            RevertAll(d, [x, y]).Last(d) == RevertAll(mid, [y]).Last(mid) == RevertEntry(mid, y).Last(mid)
  {
    hide RevertAll, RevertEntry;
    assert [x] + [y] == [x, y] && [y] + [] == [y];
    RevertOneOf(d, x, [y]);
    RevertOneOf(RevertEntry(d, x).Last(d), y, []);
  }

  lemma TwoListings(apps: seq<string>, a: string, b: string)
    requires NoRepeats(apps) && (forall x :: x in apps <==> x == a || x == b) && a != b
    ensures apps == [a, b] || apps == [b, a]
  {
    assert a in apps && b in apps;
    assert apps[0] in apps;
    var other := if apps[0] == a then b else a;
    var m :| 0 <= m < |apps| && apps[m] == other;
    var last := |apps| - 1;
    assert apps[1] in apps && apps[last] in apps;
    assert apps[1] == other == apps[last];
  }

  /** So two apps that share a target are reverted cleanly, on any clean disk, exactly when the later
      record is undone first, or injection had nothing to change. RevertAll lists records by file name,
      so which of the two comes first depends on the names of the apps. */
  lemma SharedTargetIsCleanIff(d: Disk, a: string, b: string, p: string, want: map<string, string>, apps: seq<string>)
    requires a != b && d.backups == map[] && Injectable(p, d.files) && want.Keys == MANAGED
    requires Lists(apps, AfterTwo(d, Entry(a, p), Entry(b, p), want))
    ensures var up := AfterTwo(d, Entry(a, p), Entry(b, p), want);
            Clean(RevertAll(up, apps).Last(up), d.files, true) <==> Inert(d.files, p, want) || apps == [b, a]
  {
    var up := AfterTwo(d, Entry(a, p), Entry(b, p), want);
    if Skips(d.files, p) {
      SkippedShared(d, a, b, p, want);
      CompleteRevert(World(up, d.files), apps, true);
    } else {
      SharedRecords(d, a, b, p, want);
      TwoListings(apps, a, b);
      hide RevertAll, AfterTwo, Restorable, Capture, Patched;
      if apps == [b, a] {
        LaterFirst(d, a, b, p, want);
      } else {
        SharedTargetLeavesResidue(d, a, b, p, want);
        PatchedIsClean(d, p, want);
      }
    }
  }

  /** A patched file counts as the original exactly when injection had nothing to change. */
  lemma PatchedIsClean(d: Disk, p: string, want: map<string, string>)
    requires want.Keys == MANAGED && !Skips(d.files, p)
    ensures Clean(Disk(d.files[p := Object(Patched(Fields(Contents(d, p)), want))], map[]), d.files, true)
       <==> Inert(d.files, p, want)
  {
    var files := d.files[p := Object(Patched(Fields(Contents(d, p)), want))];
    hide Patched;
    if Inert(d.files, p, want) { assert files == d.files; }
    assert p in files;
    PatchedHasEnv(Fields(Contents(d, p)), want);
  }

  lemma PatchedHasEnv(f: Env, want: map<string, string>)
    ensures Patched(f, want) != map[]
  {
    assert "env" in Patched(f, want);
  }

  lemma SkippedShared(d: Disk, a: string, b: string, p: string, want: map<string, string>)
    requires a != b && d.backups == map[] && Injectable(p, d.files) && Skips(d.files, p) && want.Keys == MANAGED
    ensures Inv(World(AfterTwo(d, Entry(a, p), Entry(b, p), want), d.files), true)
  {
    assert d == Disk(d.files, map[]);
    FreshInv(d.files, true);
    assert !Covered(d, p);
    TwoEntries(d, Entry(a, p), Entry(b, p), want);
    assert d.files[p].Malformed? ==> Inject(d, a, p, want).Last(d) == d && Inject(d, b, p, want).Last(d) == d;
    assert d.files[p].Null? ==> Inject(d, a, p, want).outcome == Crashed;
    hide Inv, Inject;
    InjectKeeps(World(d, d.files), a, p, want, true);
  }

  /** One injection alone is reverted cleanly. */
  lemma OneEntry(d: Disk, a: string, p: string, want: map<string, string>)
    requires d.backups == map[] && !Skips(d.files, p) && Injectable(p, d.files) && want.Keys == MANAGED
    ensures var d1 := Inject(d, a, p, want).Last(d);
            Lists([a], d1) && Clean(RevertAll(d1, [a]).Last(d1), d.files, true)
  {
    assert d == Disk(d.files, map[]) && !Covered(d, p);
    FreshInv(d.files, true);
    FirstRecord(d, a, p, want);
    hide Inv, RevertAll, Inject, Clean;
    InjectKeeps(World(d, d.files), a, p, want, true);
    CompleteRevert(World(Inject(d, a, p, want).Last(d), d.files), [a], true);
  }

  lemma LaterFirst(d: Disk, a: string, b: string, p: string, want: map<string, string>)
    requires a != b && d.backups == map[] && !Skips(d.files, p) && Injectable(p, d.files) && want.Keys == MANAGED
    ensures var up := AfterTwo(d, Entry(a, p), Entry(b, p), want);
            Lists([b, a], up) && Clean(RevertAll(up, [b, a]).Last(up), d.files, true)
  {
    OneEntry(d, a, p, want);
    LaterUndone(d, a, b, p, want);
    SharedRecords(d, a, b, p, want);
    var up := Shared(d, a, b, p, want);
    var d1 := Disk(up.files, map[a := up.backups[a]]);
    assert up.backups.Keys == {a, b};
    assert d1.files[p].Object? && (d1.backups[a].Record? ==> d1.backups[a].path == p) by { hide Patched; }
    NoCrash(d1, a);
    hide *;
    RevertTwo(up, b, a);
  }

  /** Only a null document crashes a revert. */
  lemma NoCrash(d: Disk, app: string)
    requires app in d.backups
    requires d.backups[app].Record? ==> !Contents(d, d.backups[app].path).Null?
    ensures RevertEntry(d, app).outcome != Crashed
  {}
}
