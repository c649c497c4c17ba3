/** Inject and revert of client settings files (internal/clientcfg/claudecode.go), driven by
    `up` and `down` (cmd/aitori/commands.go).

    A disk is the settings files, as parsed JSON, and the backup records under ~/.aitori/inject,
    one per app. Every file write or removal is atomic; the process can be killed between any two.
*/
module ClientCfg {
  import opened Common

  // ---------------------------------------------------------------- documents

  /** A JSON value. Null, booleans, numbers and arrays are kept whole, by their text. */
  datatype Json = Str(s: string) | Obj(fields: Env) | Other(text: string)

  type Env = map<string, Json>

  /** The contents of a settings file. */
  datatype Document =
    | Malformed            // not JSON, or JSON but neither an object nor null
    | Blank                // empty or white space
    | Null
    | Object(fields: Env)

  /** fmt.Sprint; the text of an object is not modelled. */
  function Sprint(v: Json): string {
    match v
    case Str(s) => s
    case Obj(_) => "map[...]"
    case Other(t) => t
  }

  const MANAGED_KEYS: seq<string> := ["HTTP_PROXY", "HTTPS_PROXY", "NO_PROXY", "NODE_EXTRA_CA_CERTS"]

  const MANAGED: set<string> := {"HTTP_PROXY", "HTTPS_PROXY", "NO_PROXY", "NODE_EXTRA_CA_CERTS"}

  /** What readJSONObject yields: blank reads as {}, and the fields of null are those of a nil map. */
  function Fields(d: Document): Env
    requires !d.Malformed?
  {
    if d.Object? then d.fields else map[]
  }

  predicate HasEnv(f: Env) { "env" in f && f["env"].Obj? }

  /** mapField(obj, "env"): the env object, or a fresh empty one. */
  function EnvOf(f: Env): Env { if HasEnv(f) then f["env"].fields else map[] }

  // ---------------------------------------------------------------- the disk and its writes

  datatype Backup =
    | Corrupt  // not parsable, or without a path
    | Record(path: string, settingsExisted: bool, envExisted: bool, prior: map<string, Option<string>>)

  datatype Disk = Disk(files: map<string, Document>, backups: map<string, Backup>)

  datatype Outcome = Done | Failed | Crashed

  /** The disks left by successive writes of an operation, and how it ended. */
  datatype Trace = Trace(states: seq<Disk>, outcome: Outcome) {
    function Last(start: Disk): Disk { if states == [] then start else states[|states| - 1] }

    /** Another operation after this one; a failure is reported at the end, a crash ends all. */
    function Then(next: Trace): Trace {
      Trace(states + next.states, if outcome == Failed && next.outcome == Done then Failed else next.outcome)
    }
  }

  function Capture(path: string, existed: bool, f: Env): Backup {
    Record(path, existed, HasEnv(f),
           map k | k in MANAGED :: if k in EnvOf(f) then Some(Sprint(EnvOf(f)[k])) else None)
  }

  function Strings(want: map<string, string>): Env { map k | k in want :: Str(want[k]) }

  function Patched(f: Env, want: map<string, string>): Env {
    f["env" := Obj(EnvOf(f) + Strings(want))]
  }

  function Contents(d: Disk, path: string): Document
  {
    if path in d.files then d.files[path] else Blank
  }

  /** injectAt. A null document crashes the process when the env block is assigned, after the backup. */
  function Inject(d: Disk, app: string, target: string, want: map<string, string>): Trace {
    var doc := Contents(d, target);
    if doc.Malformed? then Trace([], Failed)
    else
      var d1 := if app in d.backups then d
                else d.(backups := d.backups[app := Capture(target, target in d.files, Fields(doc))]);
      var first := if app in d.backups then [] else [d1];
      if doc.Null? then Trace(first, Crashed)
      else Trace(first + [d1.(files := d1.files[target := Object(Patched(Fields(doc), want))])], Done)
  }

  function Removed(prior: map<string, Option<string>>): set<string> { set k | k in prior && prior[k].None? }

  function Put(prior: map<string, Option<string>>): Env {
    map k | k in prior && prior[k].Some? :: Str(prior[k].value)
  }

  function RestoredEnv(env: Env, prior: map<string, Option<string>>): Env {
    (env - Removed(prior)) + Put(prior)
  }

  function Restored(f: Env, b: Backup): Env
    requires b.Record?
  {
    if !HasEnv(f) && b.prior == map[] then f
    else
      var env := RestoredEnv(EnvOf(f), b.prior);
      if env == map[] && !b.envExisted then f - {"env"} else f["env" := Obj(env)]
  }

  function DropBackup(d: Disk, app: string): Disk { d.(backups := d.backups - {app}) }

  /** revertAt, for the path recorded in the backup. */
  function Revert(d: Disk, app: string): Trace
    requires app in d.backups && d.backups[app].Record?
  {
    var b := d.backups[app];
    var doc := Contents(d, b.path);
    if !b.settingsExisted then
      if b.path in d.files then
        var d1 := d.(files := d.files - {b.path});
        Trace([d1, DropBackup(d1, app)], Done)
      else Trace([DropBackup(d, app)], Done)
    else if doc.Malformed? then Trace([], Failed)
    else if doc.Null? && "env" in Restored(map[], b) then Trace([], Crashed)
    else
      var d1 := d.(files := d.files[b.path := if doc.Null? then Null else Object(Restored(Fields(doc), b))]);
      Trace([d1, DropBackup(d1, app)], Done)
  }

  /** One turn of RevertAll's loop: an unreadable backup is removed, a record is reverted. */
  function RevertEntry(d: Disk, app: string): Trace
    requires app in d.backups
  {
    if d.backups[app].Corrupt? then Trace([DropBackup(d, app)], Done) else Revert(d, app)
  }

  predicate NoRepeats(apps: seq<string>) {
    forall i, j :: 0 <= i < j < |apps| ==> apps[i] != apps[j]
  }

  /** `apps` is a listing of the backup directory. */
  ghost predicate Lists(apps: seq<string>, d: Disk) {
    NoRepeats(apps) && (forall a :: a in apps <==> a in d.backups)
  }

  ghost predicate Revertible(d: Disk, apps: seq<string>) {
    NoRepeats(apps) && forall a :: a in apps ==> a in d.backups
  }

  /** RevertAll over a directory listing: errors do not stop it. */
  function RevertAll(d: Disk, apps: seq<string>): Trace
    requires Revertible(d, apps)
    decreases |apps|
  {
    if apps == [] then Trace([], Done)
    else
      var t := RevertEntry(d, apps[0]);
      if t.outcome == Crashed then t
      else
        RevertEntryOthers(d, apps[0]);
        t.Then(RevertAll(t.Last(d), apps[1..]))
  }

  lemma RevertEntryOthers(d: Disk, app: string)
    requires app in d.backups
    ensures forall a :: a in d.backups && a != app ==> a in RevertEntry(d, app).Last(d).backups
  {}

  lemma ThenIsAssociative(t: Trace, u: Trace, v: Trace)
    requires t.outcome != Crashed && u.outcome != Crashed
    ensures t.Then(u).Then(v) == t.Then(u.Then(v))
  {}

  lemma LastOfThen(t: Trace, next: Trace, start: Disk, before: seq<Disk>)
    ensures t.Then(next).Last(start) == next.Last(t.Last(start))
    ensures before + t.states + next.states == before + t.Then(next).states
    ensures t.Then(next).outcome == if t.outcome == Failed && next.outcome == Done then Failed else next.outcome
  {}

  datatype Entry = Entry(app: string, target: string)

  /** applyInjections: an entry that fails is skipped with a warning. */
  function InjectAll(d: Disk, entries: seq<Entry>, want: map<string, string>): Trace
    decreases |entries|
  {
    if entries == [] then Trace([], Done)
    else
      var t := Inject(d, entries[0].app, entries[0].target, want);
      if t.outcome == Crashed then t else t.Then(InjectAll(t.Last(d), entries[1..], want))
  }

  /** setupOS: revert what an earlier run left behind, then apply the current entries. When the CA or
      the system proxy cannot be set up there are no entries to apply. */
  function Up(d: Disk, apps: seq<string>, entries: seq<Entry>, want: map<string, string>): Trace
    requires Lists(apps, d)
  {
    var t := RevertAll(d, apps);
    if t.outcome == Crashed then t else t.Then(InjectAll(t.Last(d), entries, want))
  }

  /** envWant. */
  function EnvWant(proxyAddr: string, caPath: string): (want: map<string, string>)
    ensures want.Keys == MANAGED
  {
    var proxyURL := if HasScheme(proxyAddr) then proxyAddr else "http://" + proxyAddr;
    map["HTTP_PROXY" := proxyURL, "HTTPS_PROXY" := proxyURL,
        "NO_PROXY" := "localhost,127.0.0.1,::1", "NODE_EXTRA_CA_CERTS" := caPath]
  }

  /** The address reads scheme://rest. */
  ghost predicate Schemed(addr: string) { exists scheme, rest: string :: addr == scheme + ("://" + rest) }

  /** The values: the proxy twice, with http:// in front unless it has a scheme, the local hosts, the CA. */
  lemma EnvWantSpelled(proxyAddr: string, caPath: string)
    ensures var want, proxy := EnvWant(proxyAddr, caPath), if Schemed(proxyAddr) then proxyAddr else "http://" + proxyAddr;
            want == map["HTTP_PROXY" := proxy, "HTTPS_PROXY" := proxy,
                        "NO_PROXY" := "localhost,127.0.0.1,::1", "NODE_EXTRA_CA_CERTS" := caPath]
  {
    SchemedIff(proxyAddr);
  }

  lemma SchemedIff(addr: string)
    ensures HasScheme(addr) <==> Schemed(addr)
  {
    if HasScheme(addr) {
      var i :| 0 <= i <= |addr| - 3 && "://" <= addr[i..];
      assert addr == addr[..i] + ("://" + addr[i + 3..]);
    }
    if scheme, rest: string :| addr == scheme + ("://" + rest) {
      assert addr[|scheme|..] == "://" + rest;
    }
  }

  predicate HasScheme(s: string) {
    exists i :: 0 <= i <= |s| - 3 && "://" <= s[i..]
  }

  // ---------------------------------------------------------------- the operations

  /** The files of one machine. `trace` records the disk after every write: the points at which a kill
      can leave it. */
  class Machine {
    var files: map<string, Document>
    var backups: map<string, Backup>
    ghost var trace: seq<Disk>

    ghost function Snapshot(): Disk
      reads this
    {
      Disk(files, backups)
    }

    method WriteFile(path: string, doc: Document)
      modifies this
      ensures Snapshot() == old(Snapshot()).(files := old(files)[path := doc])
      ensures trace == old(trace) + [Snapshot()]
    {
      files := files[path := doc];
      trace := trace + [Snapshot()];
    }

    method RemoveFile(path: string)
      requires path in files
      modifies this
      ensures Snapshot() == old(Snapshot()).(files := old(files) - {path})
      ensures trace == old(trace) + [Snapshot()]
    {
      files := files - {path};
      trace := trace + [Snapshot()];
    }

    method WriteBackup(app: string, b: Backup)
      modifies this
      ensures Snapshot() == old(Snapshot()).(backups := old(backups)[app := b])
      ensures trace == old(trace) + [Snapshot()]
    {
      backups := backups[app := b];
      trace := trace + [Snapshot()];
    }

    method RemoveBackup(app: string)
      requires app in backups
      modifies this
      ensures Snapshot() == DropBackup(old(Snapshot()), app)
      ensures trace == old(trace) + [Snapshot()]
    {
      backups := backups - {app};
      trace := trace + [Snapshot()];
    }

    /** injectAt, up to the panic of assigning into a nil map. */
    method InjectAt(app: string, target: string, want: map<string, string>) returns (outcome: Outcome)
      modifies this
      ensures var t := Inject(old(Snapshot()), app, target, want);
              outcome == t.outcome && trace == old(trace) + t.states && Snapshot() == t.Last(old(Snapshot()))
    {
      var doc := Contents(Disk(files, backups), target);
      if doc.Malformed? { return Failed; }
      var obj, existed := Fields(doc), target in files;
      var env := EnvOf(obj);
      if app !in backups {
        var prior := CapturePrior(env);
        WriteBackup(app, Record(target, existed, HasEnv(obj), prior));
      }
      if doc.Null? { return Crashed; }
      env := Overlay(env, want);
      obj := obj["env" := Obj(env)];
      WriteFile(target, Object(obj));
      return Done;
    }

    /** revertAt, for the path that readBackupPath found in the record. */
    method RevertAt(app: string) returns (outcome: Outcome)
      requires app in backups && backups[app].Record?
      modifies this
      ensures var t := Revert(old(Snapshot()), app);
              outcome == t.outcome && trace == old(trace) + t.states && Snapshot() == t.Last(old(Snapshot()))
    {
      var b := backups[app];
      if !b.settingsExisted {
        if b.path in files { RemoveFile(b.path); }
        RemoveBackup(app);
        return Done;
      }
      var doc := Contents(Disk(files, backups), b.path);
      if doc.Malformed? { return Failed; }
      var obj := Fields(doc);
      if HasEnv(obj) || b.prior != map[] {
        var env := RestoreManaged(EnvOf(obj), b.prior);
        if env == map[] && !b.envExisted {
          obj := obj - {"env"};
        } else {
          if doc.Null? { return Crashed; }
          obj := obj["env" := Obj(env)];
        }
      }
      WriteFile(b.path, if doc.Null? then Null else Object(obj));
      RemoveBackup(app);
      return Done;
    }

    method RevertOne(app: string) returns (outcome: Outcome)
      requires app in backups
      modifies this
      ensures var t := RevertEntry(old(Snapshot()), app);
              outcome == t.outcome && trace == old(trace) + t.states && Snapshot() == t.Last(old(Snapshot()))
    {
      if backups[app].Corrupt? {
        RemoveBackup(app);
        return Done;
      }
      outcome := RevertAt(app);
    }

    /** RevertAll over the listing `apps` of the backup directory. */
    method RevertAllBackups(apps: seq<string>) returns (outcome: Outcome)
      requires Lists(apps, Snapshot())
      modifies this
      ensures var t := RevertAll(old(Snapshot()), apps);
              outcome == t.outcome && trace == old(trace) + t.states && Snapshot() == t.Last(old(Snapshot()))
    {
      ghost var d0, whole := Snapshot(), RevertAll(Snapshot(), apps);
      outcome := Done;
      ghost var done := Trace([], Done);
      assert apps[0..] == apps;
      for i := 0 to |apps|
        invariant Revertible(Snapshot(), apps[i..])
        invariant done.outcome == outcome && outcome != Crashed
        invariant trace == old(trace) + done.states && Snapshot() == done.Last(d0)
        invariant done.Then(RevertAll(Snapshot(), apps[i..])) == whole
      {
        hide Revertible, RevertEntry, Revert, RevertAll, Trace.Last, Trace.Then;
        var app := apps[i];
        assert apps[i..][0] == app && apps[i..][1..] == apps[i + 1..];
        ghost var d := Snapshot();
        RevertAllStep(d, apps[i..], done);
        LastOfThen(done, RevertEntry(d, app), d0, old(trace));
        var one := RevertOne(app);
        if one == Crashed { return Crashed; }
        done := done.Then(RevertEntry(d, app));
        if one == Failed { outcome := Failed; }
      }
      LastOfThen(done, RevertAll(Snapshot(), []), d0, old(trace));
    }

    /** applyInjections: a failing entry is skipped. */
    method ApplyInjections(entries: seq<Entry>, want: map<string, string>) returns (outcome: Outcome)
      modifies this
      ensures var t := InjectAll(old(Snapshot()), entries, want);
              outcome == t.outcome && trace == old(trace) + t.states && Snapshot() == t.Last(old(Snapshot()))
    {
      ghost var d0, whole := Snapshot(), InjectAll(Snapshot(), entries, want);
      outcome := Done;
      ghost var done := Trace([], Done);
      assert entries[0..] == entries;
      for i := 0 to |entries|
        invariant done.outcome == outcome && outcome != Crashed
        invariant trace == old(trace) + done.states && Snapshot() == done.Last(d0)
        invariant done.Then(InjectAll(Snapshot(), entries[i..], want)) == whole
      {
        hide Inject, InjectAll, Trace.Last, Trace.Then;
        var e := entries[i];
        assert entries[i..][0] == e && entries[i..][1..] == entries[i + 1..];
        ghost var d := Snapshot();
        InjectAllStep(d, entries[i..], want, done);
        LastOfThen(done, Inject(d, e.app, e.target, want), d0, old(trace));
        var one := InjectAt(e.app, e.target, want);
        if one == Crashed { return Crashed; }
        done := done.Then(Inject(d, e.app, e.target, want));
        if one == Failed { outcome := Failed; }
      }
      LastOfThen(done, InjectAll(Snapshot(), [], want), d0, old(trace));
    }

    /** setupOS: reconcile, then inject only if the CA and the system proxy could be set up. */
    method SetupOS(apps: seq<string>, osReady: bool, entries: seq<Entry>, want: map<string, string>)
        returns (outcome: Outcome)
      requires Lists(apps, Snapshot())
      modifies this
      ensures var t := Up(old(Snapshot()), apps, if osReady then entries else [], want);
              outcome == t.outcome && trace == old(trace) + t.states && Snapshot() == t.Last(old(Snapshot()))
    {
      ghost var d0 := Snapshot();
      var reverted := RevertAllBackups(apps);
      if reverted == Crashed { return Crashed; }
      ghost var d1, todo := Snapshot(), if osReady then entries else [];
      LastOfThen(RevertAll(d0, apps), InjectAll(d1, todo, want), d0, old(trace));
      if !osReady { return reverted; }
      var applied := ApplyInjections(entries, want);
      return if reverted == Failed && applied == Done then Failed else applied;
    }
  }

  /** One turn of the loop, after the turns traced in `done`. */
  lemma RevertAllStep(d: Disk, apps: seq<string>, done: Trace)
    requires apps != [] && Revertible(d, apps) && done.outcome != Crashed
    ensures apps[0] in d.backups
    ensures var t := RevertEntry(d, apps[0]);
            if t.outcome == Crashed then RevertAll(d, apps) == t
            else && Revertible(t.Last(d), apps[1..])
                 && done.Then(RevertAll(d, apps)) == done.Then(t).Then(RevertAll(t.Last(d), apps[1..]))
  {
    var t := RevertEntry(d, apps[0]);
    RevertEntryOthers(d, apps[0]);
    if t.outcome != Crashed { ThenIsAssociative(done, t, RevertAll(t.Last(d), apps[1..])); }
  }

  lemma InjectAllStep(d: Disk, entries: seq<Entry>, want: map<string, string>, done: Trace)
    requires entries != [] && done.outcome != Crashed
    ensures var t := Inject(d, entries[0].app, entries[0].target, want);
            && (t.outcome == Crashed ==> InjectAll(d, entries, want) == t)
            && (t.outcome != Crashed ==>
                  done.Then(InjectAll(d, entries, want)) == done.Then(t).Then(InjectAll(t.Last(d), entries[1..], want)))
  {
    var t := Inject(d, entries[0].app, entries[0].target, want);
    if t.outcome != Crashed { ThenIsAssociative(done, t, InjectAll(t.Last(d), entries[1..], want)); }
  }

  lemma ManagedKeys()
    ensures forall k :: k in MANAGED_KEYS <==> k in MANAGED
  {
    var ks := MANAGED_KEYS;
    assert ks[0] == "HTTP_PROXY" && ks[1] == "HTTPS_PROXY" && ks[2] == "NO_PROXY" && ks[3] == "NODE_EXTRA_CA_CERTS";
  }

  /** The prior state of every managed key. */
  method CapturePrior(env: Env) returns (prior: map<string, Option<string>>)
    ensures prior == map k | k in MANAGED :: if k in env then Some(Sprint(env[k])) else None
  {
    prior := map[];
    for i := 0 to |MANAGED_KEYS|
      invariant forall k :: k in prior <==> k in MANAGED_KEYS[..i]
      invariant forall k :: k in prior ==> prior[k] == if k in env then Some(Sprint(env[k])) else None
    {
      var k := MANAGED_KEYS[i];
      assert MANAGED_KEYS[..i + 1] == MANAGED_KEYS[..i] + [k];
      prior := prior[k := if k in env then Some(Sprint(env[k])) else None];
    }
    assert MANAGED_KEYS[..|MANAGED_KEYS|] == MANAGED_KEYS;
    ManagedKeys();
  }

  /** env[k] = v for every wanted pair, in any order. */
  method Overlay(env: Env, want: map<string, string>) returns (r: Env)
    ensures r == env + Strings(want)
  {
    r := env;
    var todo := want.Keys;
    while todo != {}
      invariant todo <= want.Keys
      invariant forall k :: k in r <==> k in env || (k in want && k !in todo)
      invariant forall k :: k in r ==> r[k] == if k in want && k !in todo then Str(want[k]) else env[k]
      decreases todo
    {
      var k :| k in todo;
      r := r[k := Str(want[k])];
      todo := todo - {k};
    }
  }

  /** Put every managed key back as recorded, in any order. */
  method RestoreManaged(env: Env, prior: map<string, Option<string>>) returns (r: Env)
    ensures r == RestoredEnv(env, prior)
  {
    r := env;
    var todo := prior.Keys;
    while todo != {}
      invariant todo <= prior.Keys
      invariant forall k :: k in r <==> if k in prior && k !in todo then prior[k].Some? else k in env
      invariant forall k :: k in r ==> r[k] == if k in prior && k !in todo then Str(prior[k].value) else env[k]
      decreases todo
    {
      var k :| k in todo;
      if prior[k].Some? { r := r[k := Str(prior[k].value)]; } else { r := r - {k}; }
      todo := todo - {k};
    }
    RestoredEnvPointwise(env, prior);
  }

  lemma RestoredEnvPointwise(env: Env, prior: map<string, Option<string>>)
    ensures var r := RestoredEnv(env, prior);
            forall k :: && (k in r <==> if k in prior then prior[k].Some? else k in env)
                        && (k in r ==> r[k] == if k in prior then Str(prior[k].value) else env[k])
  {}
}
