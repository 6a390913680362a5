/** The row and its secret are those of the last submissions that were accepted, and so is what a gateway enforces. */
module JwtLedger {
  import opened Options
  import opened JwtManaging
  import opened JwtSaga
  import opened JwtSettings
  import opened JwtTheorems
  import opened JwtVerifying
  import opened Text

  /** The submission under way, the last one accepted, and the last secret that came with an accepted one. */
  datatype Ledger = Ledger(pending: Option<Input>, accepted: Option<Input>, secret: Option<string>)

  function Noted(l: Ledger, input: Input): Ledger {
    Ledger(None, Some(input), if input.secret != "" then Some(input.secret) else l.secret)
  }

  /** A submission is accepted when its row is written, or at once when it leaves nothing to write. */
  function Record(w: World, l: Ledger, step: Step): Ledger {
    match step
    case Configure(input, readable) =>
      if !JwtSaga.Apply(w, step).pc.Idle? then l.(pending := Some(input))
      else if readable && w.row.Some? && Normalize(input).Some? then Noted(l, input)
      else l
    case Proceed(reply) =>
      if (w.pc.InsertRow? || w.pc.UpdateRow?) && reply.ok && l.pending.Some? then Noted(l, l.pending.value) else l
    case _ => l
  }

  ghost function Ledgered(w: World, l: Ledger, steps: seq<Step>): Ledger
    decreases |steps|
  {
    if steps == [] then l else Ledgered(JwtSaga.Apply(w, steps[0]), Record(w, l, steps[0]), steps[1..])
  }

  const NOTHING := Ledger(None, None, None)

  /** The configuration means what was submitted. */
  ghost predicate Says(c: Config, input: Option<Input>) {
    input.Some? && MeaningOfConfig(c) == MeaningOf(input.value)
  }

  /** Its secret version holds this secret. */
  ghost predicate Keeps(archive: Archive, c: Config, secret: Option<string>) {
    && secret.Some? && (c.secretArn, c.secretVersionId) in archive
    && archive[(c.secretArn, c.secretVersionId)] == secret.value
  }

  /** The submission under way, normalised, carries a secret. */
  ghost predicate Carries(l: Ledger, n: Input) {
    l.pending.Some? && Normalize(l.pending.value) == Some(n) && n.secret != "" && n.secret == l.pending.value.secret
  }

  ghost predicate LedgerOk(w: World, l: Ledger) {
    && (w.row.Some? ==> Says(w.row.value, l.accepted) && Keeps(w.store.archive, w.row.value, l.secret))
    && match w.pc
       case CreateSecret(n) => Carries(l, n)
       case RestoreSecret(n) => Carries(l, n)
       case PutSecret(n) => Carries(l, n)
       case Rotate(_, n) => Carries(l, n)
       case InsertRow(next) =>
         Says(next, l.pending) && l.pending.value.secret != ""
         && Keeps(w.store.archive, next, Some(l.pending.value.secret))
       case UpdateRow(next) =>
         Says(next, l.pending) && Keeps(w.store.archive, next, Noted(l, l.pending.value).secret)
       case ScheduleDeletion(current) => Says(current, l.accepted) && Keeps(w.store.archive, current, l.secret)
       case Reinsert(current) => Says(current, l.accepted) && Keeps(w.store.archive, current, l.secret)
       case _ => true
  }

  lemma KeptSecretsStay(w: World, step: Step, c: Config, secret: Option<string>)
    requires Enabled(w, step) && Keeps(w.store.archive, c, secret)
    ensures Keeps(JwtSaga.Apply(w, step).store.archive, c, secret)
  {
    hide JwtSaga.Apply, Enabled;
    ArchiveOnlyGrows(w, step);
  }

  lemma SaysWhatWasSubmitted(input: Input, arn: string, version: string)
    requires Normalize(input).Some?
    ensures Says(ConfigOf(Normalize(input).value, arn, version), Some(input))
  {
    hide Normalize, MeaningOf, MeaningOfConfig;
    NormalizedIsCanonical(input);
  }

  lemma ConfigureKeepsLedger(w: World, l: Ledger, input: Input, readable: bool)
    requires LedgerOk(w, l) && w.pc.Idle? && (w.row.Some? ==> Canonical(w.row.value.settings))
    ensures LedgerOk(Begin(w, input, readable), Record(w, l, Configure(input, readable)))
  {
    hide Normalize, SettingsOf, MeaningOf, MeaningOfConfig, Canonical;
    if Normalize(input).Some? && readable {
      NormalizeKeepsSecret(input);
      if w.row.Some? {
        var n, current := Normalize(input).value, w.row.value;
        SaysWhatWasSubmitted(input, current.secretArn, current.secretVersionId);
        if n.secret == "" && Equivalent(current.enabled, current.settings, n.enabled, SettingsOf(n)) {
          NoWriteIff(w, input);
        }
      }
    }
  }

  lemma ProceedKeepsLedger(w: World, l: Ledger, reply: JwtSaga.Reply)
    requires Safe(w) && LedgerOk(w, l) && Enabled(w, Proceed(reply))
    ensures LedgerOk(Continue(w, reply), Record(w, l, Proceed(reply)))
  {
    hide Normalize, SettingsOf, MeaningOf, Live, StoreOk, FreshReply;
    var step := Proceed(reply);
    forall c, secret | Keeps(w.store.archive, c, secret)
      ensures Keeps(JwtSaga.Apply(w, step).store.archive, c, secret)
    {
      KeptSecretsStay(w, step, c, secret);
    }
    match w.pc
    case CreateSecret(n) => SaysWhatWasSubmitted(l.pending.value, reply.arn, reply.version);
    case PutSecret(n) =>
      if w.project in w.store.names {
        SaysWhatWasSubmitted(l.pending.value, w.store.names[w.project], reply.version);
      }
    case Rotate(current, n) => SaysWhatWasSubmitted(l.pending.value, current.secretArn, reply.version);
    case _ =>
  }

  lemma StepKeepsLedger(w: World, l: Ledger, step: Step)
    requires Safe(w) && Published(w) && LedgerOk(w, l) && Enabled(w, step)
    ensures LedgerOk(JwtSaga.Apply(w, step), Record(w, l, step))
  {
    hide Normalize, SettingsOf, MeaningOf, MeaningOfConfig, Canonical, NewVerifier;
    match step
    case Configure(input, readable) =>
      assert w.row.Some? ==> Buildable(w.store.archive, w.row.value);
      ConfigureKeepsLedger(w, l, input, readable);
    case Proceed(reply) => ProceedKeepsLedger(w, l, reply);
    case _ =>
  }

  lemma {:induction false} RunKeepsLedger(w: World, l: Ledger, steps: seq<Step>, w': World)
    requires Safe(w) && Published(w) && LedgerOk(w, l) && Run(w, steps, w')
    ensures LedgerOk(w', Ledgered(w, l, steps))
    decreases |steps|
  {
    hide Safe, Published, LedgerOk, JwtSaga.Apply, Enabled, Record;
    if steps != [] {
      StepIsSafe(w, steps[0]);
      StepKeepsPublished(w, steps[0]);
      StepKeepsLedger(w, l, steps[0]);
      RunKeepsLedger(JwtSaga.Apply(w, steps[0]), Record(w, l, steps[0]), steps[1..], w');
    }
  }

  /**
   * From an empty database, under every pattern of failures, stops and put-backs: whenever there is a row it means what
   * the last accepted submission meant, and its secret version holds the last secret accepted.
   */
  lemma RowIsLastAccepted(project: string, steps: seq<Step>, w: World)
    requires Run(Initial(project), steps, w) && w.row.Some?
    ensures var l := Ledgered(Initial(project), NOTHING, steps);
      var ref := (w.row.value.secretArn, w.row.value.secretVersionId);
      && l.accepted.Some? && MeaningOfConfig(w.row.value) == MeaningOf(l.accepted.value)
      && l.secret.Some? && ref in w.store.archive && w.store.archive[ref] == l.secret.value
  {
    hide Run, Safe, Published, MeaningOf, MeaningOfConfig, Ledgered;
    InitialIsSound(project);
    RunKeepsLedger(Initial(project), NOTHING, steps, w);
  }

  lemma {:induction false} LosslessIsRun(w: World, steps: seq<Step>, w': World)
    requires LosslessRun(w, steps, w')
    ensures Run(w, steps, w')
    decreases |steps|
  {
    hide JwtSaga.Apply, Enabled, Lossless;
    if steps != [] {
      LosslessIsRun(JwtSaga.Apply(w, steps[0]), steps[1..], w');
    }
  }

  /** A gateway that reloads the current row with success enforces the last accepted settings with the last secret. */
  lemma GatewayEnforcesLastAccepted(project: string, steps: seq<Step>, w: World, events: seq<Event>, e: Event)
    requires LosslessRun(Initial(project), steps, w) && w.row.Some? && w.row.value.enabled
    requires Follows(w, events + [e]) && e.config == Some(w.row.value)
    requires JwtManaging.Apply(After(events), e).ok
    ensures var l := Ledgered(Initial(project), NOTHING, steps);
      var active := Active(JwtManaging.Apply(After(events), e).state);
      && active.Some? && Some(active.value.secret) == l.secret
      && l.accepted.Some?
      && MeaningOfConfig(w.row.value.(settings := active.value.settings)) == MeaningOf(l.accepted.value)
  {
    hide LosslessRun, Run, MeaningOf, MeaningOfConfig, Ledgered, Follows;
    LosslessIsRun(Initial(project), steps, w);
    RowIsLastAccepted(project, steps, w);
    GatewayFollowsControlPlane(project, steps, w, events, e);
  }
}
