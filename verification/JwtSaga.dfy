/**
 * Creating, rotating and deleting a project's JWT configuration across the database and the secret
 * store. One project's calls are sequential; every external call is one step, which may fail without
 * effect, and the process may stop between any two of them.
 */
module JwtSaga {
  import opened Options
  import opened JwtManaging
  import opened JwtSettings
  import opened JwtVerifying

  datatype Secret = Secret(name: string, versions: set<string>, scheduled: bool)

  /** The secret store; `archive` remembers every version ever written, also of secrets removed since. */
  datatype Store = Store(secrets: map<string, Secret>, names: map<string, string>, archive: Archive)

  /** The call the service is about to make. */
  datatype Pc =
    | Idle
    | CreateSecret(input: Input)
    | RestoreSecret(input: Input)
    | PutSecret(input: Input)
    | InsertRow(next: Config)
    | CleanUp(arn: string)
    | Rotate(current: Config, input: Input)
    | UpdateRow(next: Config)
    | DeleteRow(current: Config)
    | ScheduleDeletion(current: Config)
    | Reinsert(current: Config)

  /** `history` holds every configuration the database has ever shown to a gateway. */
  datatype World = World(project: string, row: Option<Config>, store: Store, pc: Pc, history: set<Config>)

  datatype Reply = Reply(ok: bool, arn: string, version: string)

  datatype Step =
    | Configure(input: Input, readable: bool)
    | Delete(readable: bool)
    | Proceed(reply: Reply)
    | Crash
    | Purge(arn: string)

  // ---------------------------------------------------------------- single effects

  function Created(s: Store, name: string, arn: string, version: string, value: string): Store {
    Store(s.secrets[arn := Secret(name, {version}, false)], s.names[name := arn], s.archive[(arn, version) := value])
  }

  function WithVersion(s: Store, arn: string, version: string, value: string): Store
    requires arn in s.secrets
  {
    s.(secrets := s.secrets[arn := s.secrets[arn].(versions := s.secrets[arn].versions + {version})],
       archive := s.archive[(arn, version) := value])
  }

  function Scheduled(s: Store, arn: string, scheduled: bool): Store {
    if arn in s.secrets then s.(secrets := s.secrets[arn := s.secrets[arn].(scheduled := scheduled)]) else s
  }

  function Purged(s: Store, arn: string): Store
    requires arn in s.secrets
  {
    s.(secrets := s.secrets - {arn}, names := s.names - {s.secrets[arn].name})
  }

  /** A new secret version can be written: the secret exists and is not scheduled for deletion. */
  predicate Writable(s: Store, arn: string) {
    arn in s.secrets && !s.secrets[arn].scheduled
  }

  /** INSERT ... ON CONFLICT DO UPDATE: a new row starts at version 1, an existing one is incremented. */
  function Upserted(row: Option<Config>, next: Config): Config {
    next.(configVersion := if row.Some? then row.value.configVersion + 1 else 1)
  }

  function ConfigOf(n: Input, arn: string, version: string): Config {
    Config(n.enabled, SettingsOf(n), arn, version, 0)
  }

  function Stored(w: World, next: Config): World {
    var row := Upserted(w.row, next);
    w.(row := Some(row), history := w.history + {row}, pc := Idle)
  }

  // ---------------------------------------------------------------- steps

  ghost predicate FreshReply(s: Store, reply: Reply) {
    && reply.arn !in s.secrets && reply.arn != "" && reply.version != ""
    && forall key :: key in s.archive ==> key.1 != reply.version
  }

  ghost predicate Enabled(w: World, step: Step) {
    match step
    case Configure(_, _) => w.pc.Idle?
    case Delete(_) => w.pc.Idle?
    case Proceed(reply) => !w.pc.Idle? && FreshReply(w.store, reply)
    case Crash => true
    case Purge(arn) => arn in w.store.secrets && w.store.secrets[arn].scheduled
  }

  /** Configure up to its first external effect. */
  function Begin(w: World, input: Input, readable: bool): World {
    var normalized := Normalize(input);
    if normalized.None? || !readable then w
    else
      var n := normalized.value;
      if w.row.None? then
        if n.secret == "" then w else w.(pc := CreateSecret(n))
      else
        var current := w.row.value;
        if n.secret == "" && Equivalent(current.enabled, current.settings, n.enabled, SettingsOf(n)) then w
        else if n.secret != "" then w.(pc := Rotate(current, n))
        else w.(pc := UpdateRow(ConfigOf(n, current.secretArn, current.secretVersionId)))
  }

  /** The next external call, answered with `reply`. */
  function Continue(w: World, reply: Reply): World {
    match w.pc
    case Idle => w
    case CreateSecret(n) =>
      if !reply.ok then w.(pc := Idle)
      else if w.project in w.store.names then w.(pc := RestoreSecret(n))
      else w.(store := Created(w.store, w.project, reply.arn, reply.version, n.secret),
              pc := InsertRow(ConfigOf(n, reply.arn, reply.version)))
    case RestoreSecret(n) =>
      if reply.ok && w.project in w.store.names then
        w.(store := Scheduled(w.store, w.store.names[w.project], false), pc := PutSecret(n))
      else w.(pc := PutSecret(n))
    case PutSecret(n) =>
      if !reply.ok || w.project !in w.store.names || !Writable(w.store, w.store.names[w.project]) then w.(pc := Idle)
      else
        var arn := w.store.names[w.project];
        w.(store := WithVersion(w.store, arn, reply.version, n.secret),
           pc := InsertRow(ConfigOf(n, arn, reply.version)))
    case InsertRow(next) => if reply.ok then Stored(w, next) else w.(pc := CleanUp(next.secretArn))
    case CleanUp(arn) => if reply.ok then w.(store := Scheduled(w.store, arn, true), pc := Idle) else w.(pc := Idle)
    case Rotate(current, n) =>
      if !reply.ok || !Writable(w.store, current.secretArn) then w.(pc := Idle)
      else w.(store := WithVersion(w.store, current.secretArn, reply.version, n.secret),
              pc := UpdateRow(ConfigOf(n, current.secretArn, reply.version)))
    case UpdateRow(next) => if reply.ok then Stored(w, next) else w.(pc := Idle)
    case DeleteRow(current) =>
      if !reply.ok || w.row.None? then w.(pc := Idle) else w.(row := None, pc := ScheduleDeletion(current))
    case ScheduleDeletion(current) =>
      if reply.ok then w.(store := Scheduled(w.store, current.secretArn, true), pc := Idle)
      else w.(pc := Reinsert(current))
    case Reinsert(current) => if reply.ok then Stored(w, current) else w.(pc := Idle)
  }

  function Apply(w: World, step: Step): World {
    match step
    case Configure(input, readable) => Begin(w, input, readable)
    case Delete(readable) => if w.row.None? || !readable then w else w.(pc := DeleteRow(w.row.value))
    case Proceed(reply) => Continue(w, reply)
    case Crash => w.(pc := Idle)
    case Purge(arn) => if arn in w.store.secrets then w.(store := Purged(w.store, arn)) else w
  }

  ghost predicate Run(w: World, steps: seq<Step>, w': World)
    decreases |steps|
  {
    if steps == [] then w == w'
    else Enabled(w, steps[0]) && Run(Apply(w, steps[0]), steps[1..], w')
  }

  function Initial(project: string): World {
    World(project, None, Store(map[], map[], map[]), Idle, {})
  }

  // ---------------------------------------------------------------- safety

  /** The configuration's secret version exists and can be read. */
  ghost predicate Live(s: Store, c: Config) {
    && c.secretArn in s.secrets && c.secretVersionId in s.secrets[c.secretArn].versions
    && !s.secrets[c.secretArn].scheduled
  }

  ghost predicate StoreOk(s: Store) {
    && (forall n :: n in s.names ==> s.names[n] in s.secrets && s.secrets[s.names[n]].name == n)
    && (forall a :: a in s.secrets ==> s.secrets[a].name in s.names && s.names[s.secrets[a].name] == a)
    && (forall a, v :: a in s.secrets && v in s.secrets[a].versions ==> (a, v) in s.archive)
  }

  ghost predicate PcOk(w: World) {
    match w.pc
    case Idle => true
    case CreateSecret(_) => w.row.None?
    case RestoreSecret(_) => w.row.None?
    case PutSecret(_) => w.row.None?
    case InsertRow(next) => w.row.None? && Live(w.store, next)
    case CleanUp(_) => w.row.None?
    case Rotate(current, _) => w.row == Some(current)
    case UpdateRow(next) => w.row.Some? && Live(w.store, next)
    case DeleteRow(current) => w.row == Some(current)
    case ScheduleDeletion(current) => w.row.None? && Live(w.store, current)
    case Reinsert(current) => w.row.None? && Live(w.store, current)
  }

  ghost predicate Safe(w: World) {
    && StoreOk(w.store) && PcOk(w)
    && (w.row.Some? ==> Live(w.store, w.row.value))
  }

  lemma WritesKeepStoreOk(s: Store, name: string, arn: string, reply: Reply, value: string, scheduled: bool)
    requires StoreOk(s) && FreshReply(s, reply)
    ensures name !in s.names ==> StoreOk(Created(s, name, reply.arn, reply.version, value))
    ensures arn in s.secrets ==> StoreOk(WithVersion(s, arn, reply.version, value))
    ensures StoreOk(Scheduled(s, arn, scheduled))
    ensures arn in s.secrets ==> StoreOk(Purged(s, arn))
  {
  }

  lemma ProceedKeepsStoreOk(w: World, reply: Reply)
    requires StoreOk(w.store) && FreshReply(w.store, reply)
    ensures StoreOk(Continue(w, reply).store)
  {
    hide StoreOk, Live, SettingsOf, Created, WithVersion, Scheduled, Writable;
    var named := if w.project in w.store.names then w.store.names[w.project] else "";
    match w.pc
    case CreateSecret(n) => WritesKeepStoreOk(w.store, w.project, named, reply, n.secret, true);
    case RestoreSecret(_) => WritesKeepStoreOk(w.store, w.project, named, reply, "", false);
    case PutSecret(n) =>
      WritableExists(w.store, named);
      WritesKeepStoreOk(w.store, w.project, named, reply, n.secret, true);
    case CleanUp(arn) => WritesKeepStoreOk(w.store, w.project, arn, reply, "", true);
    case Rotate(current, n) =>
      WritableExists(w.store, current.secretArn);
      WritesKeepStoreOk(w.store, w.project, current.secretArn, reply, n.secret, true);
    case ScheduleDeletion(current) => WritesKeepStoreOk(w.store, w.project, current.secretArn, reply, "", true);
    case _ =>
  }

  lemma WritableExists(s: Store, arn: string)
    ensures Writable(s, arn) ==> arn in s.secrets
  {
  }

  lemma ProceedIsSafe(w: World, reply: Reply)
    requires Safe(w) && FreshReply(w.store, reply)
    ensures Safe(Continue(w, reply))
  {
    ProceedKeepsStoreOk(w, reply);
    hide StoreOk, SettingsOf, FreshReply;
    match w.pc
    case CreateSecret(_) =>
    case PutSecret(_) =>
    case Rotate(_, _) =>
    case _ =>
  }

  lemma StepIsSafe(w: World, step: Step)
    requires Safe(w) && Enabled(w, step)
    ensures Safe(Apply(w, step))
  {
    hide Normalize, SettingsOf;
    match step
    case Proceed(reply) => ProceedIsSafe(w, reply);
    case Purge(arn) =>
      assert StoreOk(Purged(w.store, arn));
    case _ =>
  }

  /**
   * Under every pattern of failures, stops and delayed removals, whenever the row exists its ARN and
   * version name a secret version that exists and is not scheduled for deletion.
   */
  lemma {:induction false} SagaIsSafe(w: World, steps: seq<Step>, w': World)
    requires Safe(w) && Run(w, steps, w')
    ensures Safe(w')
    decreases |steps|
  {
    hide Safe, Apply, Enabled;
    if steps != [] {
      StepIsSafe(w, steps[0]);
      SagaIsSafe(Apply(w, steps[0]), steps[1..], w');
    }
  }

  lemma RowAlwaysReadable(project: string, steps: seq<Step>, w: World)
    requires Run(Initial(project), steps, w)
    ensures w.row.Some? ==> Live(w.store, w.row.value)
    ensures w.row.Some? ==> (w.row.value.secretArn, w.row.value.secretVersionId) in w.store.archive
  {
    SagaIsSafe(Initial(project), steps, w);
  }

  /** The row changes only when a database write succeeds, so a rotation that fails leaves the previous version. */
  lemma RowChangesOnlyByItsOwnWrites(w: World, step: Step)
    requires Enabled(w, step) && Apply(w, step).row != w.row
    ensures step.Proceed? && step.reply.ok
    ensures w.pc.InsertRow? || w.pc.UpdateRow? || w.pc.DeleteRow? || w.pc.Reinsert?
    ensures Apply(w, step).row == if w.pc.DeleteRow? then None
      else Some(Upserted(w.row, if w.pc.Reinsert? then w.pc.current else w.pc.next))
  {
    hide Normalize, SettingsOf;
  }

  /** Secret versions are never rewritten. */
  lemma ArchiveOnlyGrows(w: World, step: Step)
    requires Enabled(w, step)
    ensures forall key :: key in w.store.archive ==>
      key in Apply(w, step).store.archive && Apply(w, step).store.archive[key] == w.store.archive[key]
  {
    hide Normalize, SettingsOf;
  }
}
