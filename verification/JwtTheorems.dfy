/** What the control plane publishes over a whole history, and what a gateway that follows it ends up with. */
module JwtTheorems {
  import opened Options
  import opened JwtManaging
  import opened JwtSaga
  import opened JwtSettings
  import opened JwtVerifying
  import opened Sorting
  import opened Text

  // ---------------------------------------------------------------- canonical settings

  ghost predicate Canonical(s: Settings) {
    && s.algorithm == "HS256" && Sorted(s.audiences) && Distinct(s.audiences)
    && s.subjectClaim != "" && s.roleClaim != "" && s.scopesClaim != ""
  }

  ghost function MeaningOfConfig(c: Config): Meaning {
    Meaning(c.enabled, c.settings.algorithm, c.settings.issuer, Members(c.settings.audiences),
            c.settings.subjectClaim, c.settings.roleClaim, c.settings.scopesClaim, c.settings.clockSkewSeconds)
  }

  lemma NormalizedIsCanonical(input: Input)
    requires Normalize(input).Some?
    ensures Canonical(SettingsOf(Normalize(input).value))
    ensures forall arn, version :: MeaningOfConfig(ConfigOf(Normalize(input).value, arn, version)) == MeaningOf(input)
  {
    hide TrimSpace, ByteLen, Kept, AudienceSet, AcceptableSecret;
    AudiencesAreCanonical(input.audiences);
  }

  lemma CanonicalSettingsAgreeIff(a: Config, b: Config)
    requires Canonical(a.settings) && Canonical(b.settings)
    ensures Equivalent(a.enabled, a.settings, b.enabled, b.settings) <==> MeaningOfConfig(a) == MeaningOfConfig(b)
  {
    if MeaningOfConfig(a) == MeaningOfConfig(b) {
      DistinctSetsArePermutations(a.settings.audiences, b.settings.audiences);
      SortedPermutationsAgree(a.settings.audiences, b.settings.audiences);
    }
  }

  /** An accepted submission without a secret writes nothing exactly when it means what the row already says. */
  lemma NoWriteIff(w: World, input: Input)
    requires w.pc.Idle? && w.row.Some? && Canonical(w.row.value.settings)
    requires Normalize(input).Some? && input.secret == ""
    ensures JwtSaga.Apply(w, Configure(input, true)) == w <==> MeaningOf(input) == MeaningOfConfig(w.row.value)
  {
    hide Normalize, SettingsOf, MeaningOf, Canonical;
    NormalizedIsCanonical(input);
    NormalizeKeepsSecret(input);
    var next := ConfigOf(Normalize(input).value, w.row.value.secretArn, w.row.value.secretVersionId);
    CanonicalSettingsAgreeIff(w.row.value, next);
  }

  lemma NormalizeKeepsSecret(input: Input)
    requires Normalize(input).Some?
    ensures Normalize(input).value.secret == input.secret
    ensures Normalize(input).value.enabled == input.enabled
    ensures input.secret != "" ==> ByteLen(input.secret) >= MIN_SECRET_BYTES
  {
  }

  // ---------------------------------------------------------------- what is published

  /** A configuration any gateway can turn into a verifier, and in canonical form. */
  ghost predicate Buildable(archive: Archive, c: Config) {
    && c.secretArn != "" && c.secretVersionId != ""
    && (c.secretArn, c.secretVersionId) in archive
    && NewVerifier(archive[(c.secretArn, c.secretVersionId)], c.settings).Some?
    && Canonical(c.settings)
  }

  ghost predicate GoodInput(n: Input) {
    ByteLen(n.secret) >= MIN_SECRET_BYTES && Canonical(SettingsOf(n))
  }

  ghost predicate Published(w: World) {
    && (forall h :: h in w.history ==> Buildable(w.store.archive, h) && h.configVersion >= 1)
    && (forall a :: a in w.store.secrets ==> a != "")
    && (w.row.Some? ==> w.row.value in w.history)
    && match w.pc
       case CreateSecret(n) => GoodInput(n)
       case RestoreSecret(n) => GoodInput(n)
       case PutSecret(n) => GoodInput(n)
       case InsertRow(next) => Buildable(w.store.archive, next)
       case Rotate(_, n) => GoodInput(n)
       case UpdateRow(next) => Buildable(w.store.archive, next)
       case ScheduleDeletion(current) => current in w.history
       case Reinsert(current) => current in w.history
       case _ => true
  }

  lemma BuildableSurvives(w: World, step: Step, c: Config)
    requires Enabled(w, step) && Buildable(w.store.archive, c)
    ensures Buildable(JwtSaga.Apply(w, step).store.archive, c)
  {
    hide JwtSaga.Apply, Enabled, Canonical, NewVerifier;
    ArchiveOnlyGrows(w, step);
  }

  lemma NewVersionIsBuildable(archive: Archive, n: Input, arn: string, version: string)
    requires GoodInput(n) && arn != "" && version != ""
    ensures Buildable(archive[(arn, version) := n.secret], ConfigOf(n, arn, version))
  {
    hide ByteLen, Sorted, Distinct;
  }

  lemma BeginKeepsPublished(w: World, input: Input, readable: bool)
    requires Safe(w) && Published(w) && w.pc.Idle?
    ensures Published(Begin(w, input, readable))
  {
    hide Normalize, SettingsOf, Canonical, StoreOk;
    if Normalize(input).Some? {
      NormalizedIsCanonical(input);
      NormalizeKeepsSecret(input);
      if w.row.Some? {
        assert Buildable(w.store.archive, w.row.value);
        SameSecretIsBuildable(w.store.archive, w.row.value, Normalize(input).value);
      }
    }
  }

  lemma SameSecretIsBuildable(archive: Archive, current: Config, n: Input)
    requires Buildable(archive, current) && Canonical(SettingsOf(n))
    ensures Buildable(archive, ConfigOf(n, current.secretArn, current.secretVersionId))
  {
    hide ByteLen, Sorted, Distinct;
  }

  lemma ContinueKeepsPublished(w: World, reply: JwtSaga.Reply)
    requires Safe(w) && Published(w) && !w.pc.Idle? && FreshReply(w.store, reply)
    ensures Published(Continue(w, reply))
  {
    hide Buildable, GoodInput, StoreOk, SettingsOf, Live;
    var w' := Continue(w, reply);
    forall c | Buildable(w.store.archive, c)
      ensures Buildable(w'.store.archive, c)
    {
      BuildableSurvives(w, Proceed(reply), c);
    }
    match w.pc
    case CreateSecret(n) => NewVersionIsBuildable(w.store.archive, n, reply.arn, reply.version);
    case PutSecret(n) =>
      if w.project in w.store.names && w.store.names[w.project] != "" {
        NewVersionIsBuildable(w.store.archive, n, w.store.names[w.project], reply.version);
      }
    case Rotate(current, n) =>
      if current.secretArn != "" {
        NewVersionIsBuildable(w.store.archive, n, current.secretArn, reply.version);
      }
    case InsertRow(next) => VersionDoesNotMatter(w.store.archive, next);
    case UpdateRow(next) => VersionDoesNotMatter(w.store.archive, next);
    case Reinsert(current) => VersionDoesNotMatter(w.store.archive, current);
    case _ =>
  }

  lemma VersionDoesNotMatter(archive: Archive, c: Config)
    ensures forall v :: Buildable(archive, c) ==> Buildable(archive, c.(configVersion := v))
  {
  }

  lemma StepKeepsPublished(w: World, step: Step)
    requires Safe(w) && Published(w) && Enabled(w, step)
    ensures Published(JwtSaga.Apply(w, step))
  {
    hide Buildable, Normalize, SettingsOf, Live;
    match step
    case Configure(input, readable) => BeginKeepsPublished(w, input, readable);
    case Proceed(reply) => ContinueKeepsPublished(w, reply);
    case _ =>
  }

  /** Every configuration a gateway can ever be shown can be built from the secret store's contents. */
  lemma {:induction false} PublishedIsBuildable(w: World, steps: seq<Step>, w': World)
    requires Safe(w) && Published(w) && Run(w, steps, w')
    ensures Safe(w') && Published(w')
    decreases |steps|
  {
    hide Safe, Published, JwtSaga.Apply, Enabled;
    if steps != [] {
      StepIsSafe(w, steps[0]);
      StepKeepsPublished(w, steps[0]);
      PublishedIsBuildable(JwtSaga.Apply(w, steps[0]), steps[1..], w');
    }
  }

  lemma RowIsCanonical(project: string, steps: seq<Step>, w: World)
    requires Run(Initial(project), steps, w) && w.row.Some?
    ensures Canonical(w.row.value.settings)
  {
    hide Canonical, NewVerifier, Run;
    PublishedIsBuildable(Initial(project), steps, w);
    assert Buildable(w.store.archive, w.row.value);
  }

  /**
   * In every reachable state, resubmitting without a secret a variant of what the row was configured
   * with leaves the row, its version and the secret store alone.
   */
  lemma ResubmissionWritesNothing(project: string, steps: seq<Step>, w: World, original: Input, again: Input)
    requires Run(Initial(project), steps, w) && w.pc.Idle? && w.row.Some?
    requires Normalize(original).Some? && MeaningOfConfig(w.row.value) == MeaningOf(original)
    requires Variant(original, again) && again.secret == "" && |again.audiences| <= MAX_AUDIENCES
    ensures JwtSaga.Apply(w, Configure(again, true)) == w
  {
    hide Normalize, MeaningOf, Canonical, MeaningOfConfig, Variant, Run, JwtSaga.Apply, Initial;
    RowIsCanonical(project, steps, w);
    VariantsAreAccepted(original, again);
    VariantsMeanTheSame(original, again);
    NoWriteIff(w, again);
  }

  // ---------------------------------------------------------------- the version determines the configuration

  ghost predicate SameRef(a: Config, b: Config) {
    a.secretArn == b.secretArn && a.secretVersionId == b.secretVersionId
  }

  /** c is the newest configuration that was published with its secret version. */
  ghost predicate Newest(history: set<Config>, c: Config) {
    forall h :: h in history && SameRef(h, c) ==> h.configVersion < c.configVersion || h == c
  }

  ghost predicate Unused(history: set<Config>, c: Config) {
    forall h :: h in history ==> !SameRef(h, c)
  }

  /** No two published configurations share version, ARN and secret version. */
  ghost predicate VersionsDetermine(history: set<Config>) {
    forall a, b :: a in history && b in history && SameRef(a, b) && a.configVersion == b.configVersion ==> a == b
  }

  ghost predicate Determined(w: World) {
    && VersionsDetermine(w.history)
    && (w.row.Some? ==> Newest(w.history, w.row.value))
    && match w.pc
       case InsertRow(next) => Unused(w.history, next)
       case UpdateRow(next) => w.row.Some? && (SameRef(next, w.row.value) || Unused(w.history, next))
       case ScheduleDeletion(current) => Newest(w.history, current)
       case Reinsert(current) => Newest(w.history, current)
       case _ => true
  }

  /** The compensation of a failed deletion puts the row back under version 1; harmless if that was its version. */
  ghost predicate Lossless(w: World, step: Step) {
    w.pc.Reinsert? && step.Proceed? && step.reply.ok ==> w.pc.current.configVersion == 1
  }

  ghost predicate LosslessRun(w: World, steps: seq<Step>, w': World)
    decreases |steps|
  {
    if steps == [] then w == w'
    else Enabled(w, steps[0]) && Lossless(w, steps[0]) && LosslessRun(JwtSaga.Apply(w, steps[0]), steps[1..], w')
  }

  /** Writing a configuration newer than all others of its secret version, or equal to one, keeps versions apart. */
  lemma NewestJoins(history: set<Config>, row: Config)
    requires VersionsDetermine(history)
    requires forall h :: h in history && SameRef(h, row) ==> h.configVersion < row.configVersion || h == row
    ensures VersionsDetermine(history + {row}) && Newest(history + {row}, row)
  {
  }

  lemma FreshVersionIsUnused(w: World, reply: JwtSaga.Reply, c: Config)
    requires Published(w) && FreshReply(w.store, reply) && c.secretVersionId == reply.version
    ensures Unused(w.history, c)
  {
    hide Canonical, NewVerifier;
    forall h | h in w.history
      ensures !SameRef(h, c)
    {
      assert Buildable(w.store.archive, h);
    }
  }

  lemma StepKeepsDetermined(w: World, step: Step)
    requires Safe(w) && Published(w) && Determined(w) && Enabled(w, step) && Lossless(w, step)
    ensures Determined(JwtSaga.Apply(w, step))
  {
    hide Normalize, SettingsOf, StoreOk, VersionsDetermine, Newest, Unused, Published, FreshReply;
    match step
    case Proceed(reply) =>
      match w.pc {
        case CreateSecret(n) => FreshVersionIsUnused(w, reply, ConfigOf(n, reply.arn, reply.version));
        case PutSecret(n) =>
          if w.project in w.store.names {
            FreshVersionIsUnused(w, reply, ConfigOf(n, w.store.names[w.project], reply.version));
          }
        case Rotate(current, n) => FreshVersionIsUnused(w, reply, ConfigOf(n, current.secretArn, reply.version));
        case InsertRow(next) => StoreStaysDetermined(w, next);
        case UpdateRow(next) => StoreStaysDetermined(w, next);
        case Reinsert(current) =>
          if reply.ok {
            ReinsertStaysDetermined(w, current);
          }
        case _ =>
      }
    case _ =>
  }

  lemma StoreStaysDetermined(w: World, next: Config)
    requires VersionsDetermine(w.history)
    requires w.row.Some? ==> Newest(w.history, w.row.value)
    requires Unused(w.history, next) || (w.row.Some? && SameRef(next, w.row.value))
    ensures Determined(Stored(w, next))
  {
    NewestJoins(w.history, Upserted(w.row, next));
  }

  lemma ReinsertStaysDetermined(w: World, current: Config)
    requires VersionsDetermine(w.history) && Newest(w.history, current) && w.row.None? && current.configVersion == 1
    ensures Determined(Stored(w, current))
  {
    NewestJoins(w.history, Upserted(w.row, current));
  }

  lemma {:induction false} HistoryIsDeterminate(w: World, steps: seq<Step>, w': World)
    requires Safe(w) && Published(w) && Determined(w) && LosslessRun(w, steps, w')
    ensures Safe(w') && Published(w') && Determined(w')
    decreases |steps|
  {
    hide Safe, Published, Determined, JwtSaga.Apply, Enabled, Lossless;
    if steps != [] {
      StepIsSafe(w, steps[0]);
      StepKeepsPublished(w, steps[0]);
      StepKeepsDetermined(w, steps[0]);
      HistoryIsDeterminate(JwtSaga.Apply(w, steps[0]), steps[1..], w');
    }
  }

  // ---------------------------------------------------------------- a row put back past version 1

  /** However the history continues, without another such put-back, versions stay unambiguous. */
  ghost predicate StaysDeterminate(w: World) {
    forall steps, w' :: LosslessRun(w, steps, w') ==> VersionsDetermine(w'.history)
  }

  /** A submission of defaults with a given clock skew, and the settings it normalises to. */
  function SkewInput(skew: int): Input {
    Input(true, "", "", None, [], "", "", "", Some(skew))
  }

  function SkewSettings(skew: int): Settings {
    Settings("HS256", None, [], "sub", "role", "scope", skew)
  }

  lemma SkewIsAccepted(skew: int)
    requires 0 <= skew <= 300
    ensures Normalize(SkewInput(skew)).Some? && Normalize(SkewInput(skew)).value.secret == ""
    ensures Normalize(SkewInput(skew)).value.enabled
    ensures SettingsOf(Normalize(SkewInput(skew)).value) == SkewSettings(skew)
  {
    DefaultsAreAccepted("", Some(skew));
    hide Normalize;
  }

  lemma {:induction false} LongerThanAll(texts: set<string>) returns (n: nat)
    ensures forall t :: t in texts ==> |t| < n
  {
    if texts == {} {
      n := 1;
    } else {
      var t :| t in texts;
      var rest := LongerThanAll(texts - {t});
      n := if rest <= |t| then |t| + 1 else rest;
    }
  }

  /** The secret store can always answer with identifiers it has not used. */
  lemma FreshReplyExists(s: Store) returns (reply: JwtSaga.Reply)
    ensures FreshReply(s, reply) && reply.ok
  {
    var used := s.secrets.Keys + set key | key in s.archive :: key.1;
    var n := LongerThanAll(used);
    var text := seq(n + 1, _ => 'x');
    reply := Reply(true, text, text);
    assert forall key :: key in s.archive ==> key.1 in used;
  }

  /** A change of settings alone writes the next version with the same secret version. */
  lemma ChangeSkew(w: World, skew: int) returns (steps: seq<Step>, w': World)
    requires w.pc.Idle? && w.row.Some? && 0 <= skew <= 300 && w.row.value.settings.clockSkewSeconds != skew
    ensures LosslessRun(w, steps, w') && w'.pc.Idle?
    ensures w'.row == Some(Config(true, SkewSettings(skew), w.row.value.secretArn, w.row.value.secretVersionId,
                                  w.row.value.configVersion + 1))
    ensures w'.history == w.history + {w'.row.value}
  {
    hide Normalize, SettingsOf, FreshReply;
    SkewIsAccepted(skew);
    var reply := FreshReplyExists(w.store);
    var input, current := SkewInput(skew), w.row.value;
    var w1 := w.(pc := UpdateRow(ConfigOf(Normalize(input).value, current.secretArn, current.secretVersionId)));
    assert JwtSaga.Apply(w, Configure(input, true)) == w1;
    w' := JwtSaga.Apply(w1, Proceed(reply));
    steps := [Configure(input, true), Proceed(reply)];
    assert steps[1..] == [Proceed(reply)] && [Proceed(reply)][1..] == [];
    assert LosslessRun(w1, steps[1..], w');
  }

  lemma {:induction false} LosslessRunsCompose(w: World, first: seq<Step>, mid: World, second: seq<Step>, w': World)
    requires LosslessRun(w, first, mid) && LosslessRun(mid, second, w')
    ensures LosslessRun(w, first + second, w')
    decreases |first|
  {
    hide JwtSaga.Apply, Enabled, Lossless;
    if first == [] {
      assert first + second == second;
    } else {
      assert (first + second)[0] == first[0];
      assert (first + second)[1..] == first[1..] + second;
      LosslessRunsCompose(JwtSaga.Apply(w, first[0]), first[1..], mid, second, w');
    }
  }

  /**
   * While the row is behind a configuration published with the same secret version, settings changes
   * alone lead to a row with that configuration's version and other settings.
   */
  lemma {:induction false} CatchesUp(w: World, former: Config) returns (steps: seq<Step>, w': World)
    requires w.pc.Idle? && w.row.Some? && SameRef(w.row.value, former) && former in w.history
    requires w.row.value.configVersion < former.configVersion
    ensures LosslessRun(w, steps, w') && w'.row.Some? && w'.row.value in w'.history && former in w'.history
    ensures SameRef(w'.row.value, former) && w'.row.value.configVersion == former.configVersion && w'.row.value.enabled
    ensures WithDefaults(w'.row.value.settings) != WithDefaults(former.settings)
    decreases former.configVersion - w.row.value.configVersion
  {
    hide LosslessRun;
    var a, b := w.row.value.settings.clockSkewSeconds, former.settings.clockSkewSeconds;
    var skew := if a != 1 && b != 1 then 1 else if a != 2 && b != 2 then 2 else 3;
    var change, w1 := ChangeSkew(w, skew);
    if w1.row.value.configVersion == former.configVersion {
      steps, w' := change, w1;
    } else {
      var rest, end := CatchesUp(w1, former);
      LosslessRunsCompose(w, change, w1, rest, end);
      steps, w' := change + rest, end;
    }
  }

  /**
   * A failed deletion is harmless exactly when the row was at version 1: then no continuation is
   * ambiguous, and otherwise some continuation by settings changes alone is.
   */
  lemma PutBackIsHarmlessIff(w: World, reply: JwtSaga.Reply)
    requires Safe(w) && Published(w) && Determined(w) && w.pc.Reinsert?
    requires reply.ok && FreshReply(w.store, reply)
    ensures StaysDeterminate(Continue(w, reply)) <==> w.pc.current.configVersion == 1
  {
    var current, w1 := w.pc.current, Continue(w, reply);
    assert current in w.history && current.configVersion >= 1;
    if current.configVersion == 1 {
      StepIsSafe(w, Proceed(reply));
      StepKeepsPublished(w, Proceed(reply));
      StepKeepsDetermined(w, Proceed(reply));
      hide Safe, Published, LosslessRun, Continue;
      forall steps, w' | LosslessRun(w1, steps, w')
        ensures VersionsDetermine(w'.history)
      {
        HistoryIsDeterminate(w1, steps, w');
      }
    } else {
      hide Safe, Published, Determined, LosslessRun, VersionsDetermine;
      var steps, w' := CatchesUp(w1, current);
      assert !VersionsDetermine(w'.history) by {
        Ambiguous(w'.history, current, w'.row.value);
      }
    }
  }

  lemma Ambiguous(history: set<Config>, a: Config, b: Config)
    requires a in history && b in history && SameRef(a, b) && a.configVersion == b.configVersion && a != b
    ensures !VersionsDetermine(history)
  {
  }

  /** No continuation is ambiguous exactly when the history is not and the row is the newest of its secret version. */
  lemma StaysDeterminateIff(w: World)
    requires Safe(w) && Published(w) && w.pc.Idle?
    ensures StaysDeterminate(w) <==> Determined(w)
  {
    if Determined(w) {
      hide Safe, Published, Determined, LosslessRun;
      forall steps, w' | LosslessRun(w, steps, w')
        ensures VersionsDetermine(w'.history)
      {
        HistoryIsDeterminate(w, steps, w');
      }
    } else if !VersionsDetermine(w.history) {
      assert LosslessRun(w, [], w);
    } else {
      var r := w.row.value;
      var h :| h in w.history && SameRef(h, r) && h.configVersion >= r.configVersion && h != r;
      assert r in w.history && r.configVersion < h.configVersion;
      hide Safe, Published, Determined, LosslessRun, VersionsDetermine;
      var steps, w' := CatchesUp(w, h);
      Ambiguous(w'.history, h, w'.row.value);
    }
  }

  /**
   * In every reachable state, a deletion that fails and puts the row back is harmless exactly when the
   * history was unambiguous and the row's secret version was never published under another version or
   * with other settings.
   */
  lemma FailedDeletionIsHarmlessIff(project: string, steps: seq<Step>, w: World, yes: JwtSaga.Reply, w': World)
    requires Run(Initial(project), steps, w) && w.pc.Idle? && w.row.Some?
    requires yes.ok && FreshReply(w.store, yes) && w' == Stored(w.(row := None), w.row.value)
    ensures Run(w, [Delete(true), Proceed(yes), Proceed(yes.(ok := false)), Proceed(yes)], w')
    ensures StaysDeterminate(w') <==> OnlyVersionOne(w.history, w.row.value)
  {
    hide Run, StaysDeterminate, FreshReply, Safe, Determined, Initial, Buildable, OnlyVersionOne;
    InitialIsSound(project);
    PublishedIsBuildable(Initial(project), steps, w);
    FailedDeletionRuns(w, yes, w');
    PublishedIsBuildable(w, [Delete(true), Proceed(yes), Proceed(yes.(ok := false)), Proceed(yes)], w');
    StaysDeterminateIff(w');
    PutBackIsNewestIff(w, w');
  }

  ghost predicate OnlyVersionOne(history: set<Config>, c: Config) {
    VersionsDetermine(history) && forall h :: h in history && SameRef(h, c) ==> h == c.(configVersion := 1)
  }

  lemma PutBackIsNewestIff(w: World, w': World)
    requires w.row.Some? && w.pc.Idle? && w' == Stored(w.(row := None), w.row.value)
    requires forall h :: h in w.history ==> h.configVersion >= 1
    ensures Determined(w') <==> OnlyVersionOne(w.history, w.row.value)
  {
    var c1 := w.row.value.(configVersion := 1);
    assert w'.history == w.history + {c1} && w'.row == Some(c1);
    if OnlyVersionOne(w.history, w.row.value) {
      NewestJoins(w.history, c1);
    }
  }

  /** Without an earlier put-back past version 1 the condition is that the row is at version 1, before the deletion. */
  lemma FirstFailedDeletionIsHarmlessIff(project: string, steps: seq<Step>, w: World, w': World)
    requires LosslessRun(Initial(project), steps, w) && w.pc.Idle? && w.row.Some?
    requires w' == Stored(w.(row := None), w.row.value)
    ensures StaysDeterminate(w') <==> w.row.value.configVersion == 1
  {
    hide LosslessRun, StaysDeterminate, Safe, Published, Determined, Initial, FreshReply;
    InitialIsSound(project);
    HistoryIsDeterminate(Initial(project), steps, w);
    var yes := FreshReplyExists(w.store);
    var pending := w.(row := None, pc := Reinsert(w.row.value));
    PendingPutBack(w, pending);
    PutBackIsHarmlessIff(pending, yes);
    assert Continue(pending, yes) == w';
  }

  /** After an earlier put-back, version 1 is not enough: a reachable row at version 1 with an ambiguous history. */
  lemma VersionOneIsNotEnough(project: string) returns (w: World)
    ensures exists steps :: Run(Initial(project), steps, w)
    ensures w.pc.Idle? && w.row.Some? && w.row.value.configVersion == 1
    ensures !StaysDeterminate(Stored(w.(row := None), w.row.value))
  {
    var made, first, second;
    w, made, first, second := FailedDeletionHappens(project);
    hide Run, Normalize;
    var w' := Stored(w.(row := None), w.row.value);
    assert w.history <= w'.history;
    assert LosslessRun(w', [], w') && !VersionsDetermine(w'.history);
  }

  lemma InitialIsSound(project: string)
    ensures Safe(Initial(project)) && Published(Initial(project)) && Determined(Initial(project))
  {
  }

  /** Between the two failures of a deletion, all three invariants hold. */
  lemma PendingPutBack(w: World, pending: World)
    requires Safe(w) && Published(w) && Determined(w) && w.pc.Idle? && w.row.Some?
    requires pending == w.(row := None, pc := Reinsert(w.row.value))
    ensures Safe(pending) && Published(pending) && Determined(pending)
  {
    hide StoreOk, Buildable, VersionsDetermine, Newest;
  }

  /** A gateway that loaded the configuration at the version deleted keeps it when that version comes round again. */
  lemma PutBackLeavesStaleVerifier(w: World, current: Config) returns (steps: seq<Step>, w': World)
    requires Published(w) && w.pc.Idle? && w.row == Some(current.(configVersion := 1)) && w.row.value in w.history
    requires current in w.history && current.enabled && current.configVersion > 1
    ensures LosslessRun(w, steps, w') && w'.row.Some?
    ensures var archive, e := w.store.archive, Event(Some(w'.row.value), true, None);
      var loaded := FromScratch(archive, Some(current));
      && loaded.Some? && JwtManaging.Apply(loaded, e) == Outcome(loaded, true, false)
      && loaded != FromScratch(archive, e.config)
  {
    assert Buildable(w.store.archive, current);
    hide LosslessRun, ByteLen, Canonical, Published;
    steps, w' := CatchesUp(w, current);
    SkippedReloadIsRightIff(w.store.archive, current, Event(Some(w'.row.value), true, None));
  }

  // ---------------------------------------------------------------- end to end

  /** projectJWTConfigToSync: the secret's coordinates are published only while authentication is enabled. */
  function ToSync(c: Config): Config {
    if c.enabled then c else c.(secretArn := "", secretVersionId := "")
  }

  /** Reloads that saw published configurations, or none, in any order and any number of times. */
  ghost predicate Follows(w: World, events: seq<Event>) {
    forall i :: 0 <= i < |events| ==>
      && HonestAnswer(w.store.archive, events[i])
      && (events[i].config.Some? ==> exists h :: h in w.history && events[i].config.value == ToSync(h))
  }

  lemma FollowersAreDeterminate(w: World, events: seq<Event>)
    requires Determined(w) && Follows(w, events)
    ensures Determinate(events)
  {
    forall i, j | 0 <= i < |events| && 0 <= j < |events| && events[i].config.Some? && events[j].config.Some?
      ensures Determines(events[i].config.value, events[j].config.value)
    {
      var a :| a in w.history && events[i].config.value == ToSync(a);
      var b :| b in w.history && events[j].config.value == ToSync(b);
    }
  }

  /**
   * From an empty database, over every history of configurations, rotations and deletions in which no
   * row past version 1 was put back by a failed deletion: a gateway that reloads published
   * configurations in any order holds, after each successful reload, exactly the verifier built from
   * scratch, with the archived secret and the published settings and no other; after a failed one, the
   * previous verifier; and a reload fails only for lack of the secret.
   */
  lemma GatewayFollowsControlPlane(project: string, steps: seq<Step>, w: World, events: seq<Event>, e: Event)
    requires LosslessRun(Initial(project), steps, w)
    requires Follows(w, events + [e])
    ensures var out := JwtManaging.Apply(After(events), e);
      && (out.ok ==> out.state == FromScratch(w.store.archive, e.config))
      && (!out.ok ==> out.state == After(events))
      && (!out.ok ==> !e.hasReader || e.answer.None?)
      && (out.ok && (e.config.None? || !e.config.value.enabled) ==> Active(out.state) == None)
      && (out.ok && e.config.Some? && e.config.value.enabled ==>
            var c := e.config.value;
            && (c.secretArn, c.secretVersionId) in w.store.archive
            && Active(out.state) == Some(Verifier(w.store.archive[(c.secretArn, c.secretVersionId)], c.settings)))
  {
    HistoryIsDeterminate(Initial(project), steps, w);
    var all := events + [e];
    FollowersAreDeterminate(w, all);
    IncrementalEqualsFresh(w.store.archive, events, e);
    assert all[|events|] == e;
    if e.config.Some? {
      var h :| h in w.history && e.config.value == ToSync(h);
      assert Buildable(w.store.archive, h);
      ReloadFailsOnlyWithoutSecret(w, events, e, h);
      BuildsExactly(w.store.archive, h);
    }
  }

  /** A published configuration leaves no claim to a default: its verifier has its settings and its secret. */
  lemma BuildsExactly(archive: Archive, c: Config)
    requires Buildable(archive, c)
    ensures var secret := archive[(c.secretArn, c.secretVersionId)];
      NewVerifier(secret, c.settings) == Some(Verifier(secret, c.settings))
  {
    hide ByteLen, Sorted, Distinct;
  }

  lemma ReloadFailsOnlyWithoutSecret(w: World, events: seq<Event>, e: Event, h: Config)
    requires Published(w) && Determined(w) && Follows(w, events + [e])
    requires h in w.history && e.config == Some(ToSync(h)) && Buildable(w.store.archive, h)
    ensures !JwtManaging.Apply(After(events), e).ok ==> !e.hasReader || e.answer.None?
  {
    var all, archive := events + [e], w.store.archive;
    FollowersAreDeterminate(w, all);
    hide Determined, Published, Canonical, ByteLen;
    assert all[|events|] == e && HonestAnswer(archive, all[|events|]);
    forall k | 0 <= k < |events|
      ensures all[k] == events[k] && HonestAnswer(archive, events[k])
    {
      assert HonestAnswer(archive, all[k]);
    }
    forall i, j | 0 <= i < |events| && 0 <= j < |events| && events[i].config.Some? && events[j].config.Some?
      ensures Determines(events[i].config.value, events[j].config.value)
    {
      assert Determines(all[i].config.value, all[j].config.value);
    }
    var i := StateHasOrigin(archive, events);
    if After(events).Some? {
      var origin := all[i].config;
      if origin.Some? {
        assert Determines(all[i].config.value, all[|events|].config.value);
      }
      ApplySucceedsIff(archive, origin, After(events), e);
    } else {
      ApplySucceedsIff(archive, None, None, e);
    }
  }

  // ---------------------------------------------------------------- the failed deletion

  /** Configure, change the settings, then delete while the secret store refuses and the row is put back. */
  function FailedDeletion(first: Input, second: Input, made: JwtSaga.Reply, yes: JwtSaga.Reply): seq<Step> {
    [Configure(first, true), Proceed(made), Proceed(yes),
     Configure(second, true), Proceed(yes),
     Delete(true), Proceed(yes), Proceed(yes.(ok := false)), Proceed(yes)]
  }

  /** The row after the first configuration, and after the failed deletion. */
  function FirstRow(first: Input, made: JwtSaga.Reply): Config
    requires Normalize(first).Some?
  {
    ConfigOf(Normalize(first).value, made.arn, made.version).(configVersion := 1)
  }

  ghost predicate Scenario(first: Input, second: Input, made: JwtSaga.Reply, yes: JwtSaga.Reply) {
    && Normalize(first).Some? && first.secret != "" && first.enabled
    && Normalize(second).Some? && second.secret == "" && second.enabled
    && SettingsOf(Normalize(first).value) != SettingsOf(Normalize(second).value)
    && made.ok && yes.ok && made.arn != yes.arn && made.version != yes.version
    && made.arn != "" && yes.arn != "" && made.version != "" && yes.version != ""
  }

  /** The database half: the row ends under version 1 again, with the second settings. */
  lemma RolledBackDeletionReusesVersion(project: string, first: Input, second: Input, made: JwtSaga.Reply,
                                        yes: JwtSaga.Reply)
    returns (w: World)
    requires Scenario(first, second, made, yes)
    ensures Run(Initial(project), FailedDeletion(first, second, made, yes), w)
    ensures w.pc.Idle? && w.row == Some(FirstRow(second, made))
    ensures FirstRow(first, made) in w.history && FirstRow(second, made) in w.history
    ensures w.store.archive == map[(made.arn, made.version) := first.secret]
    ensures !VersionsDetermine(w.history)
  {
    hide Normalize, SettingsOf, Run, FreshReply;
    var store := Store(map[made.arn := Secret(project, {made.version}, false)], map[project := made.arn],
                       map[(made.arn, made.version) := first.secret]);
    var c1, c3 := FirstRow(first, made), FirstRow(second, made);
    var c2 := ConfigOf(Normalize(second).value, made.arn, made.version).(configVersion := 2);
    var w3 := World(project, Some(c1), store, Idle, {c1});
    var w5 := World(project, Some(c2), store, Idle, {c1, c2});
    assert FreshReply(store, yes) && FreshReply(Initial(project).store, made) by {
      FreshHere(store, made, yes);
      FreshHere(Initial(project).store, made, yes);
    }
    w := World(project, Some(c3), store, Idle, {c1, c2, c3});
    FirstConfigureRuns(project, first, made, yes, w3);
    ChangeRuns(w3, second, yes, w5);
    FailedDeletionRuns(w5, yes, w);
    var begin, change, delete := [Configure(first, true), Proceed(made), Proceed(yes)],
      [Configure(second, true), Proceed(yes)], [Delete(true), Proceed(yes), Proceed(yes.(ok := false)), Proceed(yes)];
    RunsCompose(Initial(project), begin, w3, change, w5);
    RunsCompose(Initial(project), begin + change, w5, delete, w);
    assert FailedDeletion(first, second, made, yes) == begin + change + delete;
    assert SameRef(c1, c3) && c1 != c3;
  }

  lemma FreshHere(store: Store, made: JwtSaga.Reply, yes: JwtSaga.Reply)
    requires made.arn != yes.arn && made.version != yes.version
    requires made.arn != "" && yes.arn != "" && made.version != "" && yes.version != ""
    ensures store.secrets.Keys <= {made.arn} && store.archive.Keys <= {(made.arn, made.version)} ==>
      FreshReply(store, yes)
    ensures store.secrets == map[] && store.archive == map[] ==> FreshReply(store, made)
  {
  }

  lemma FirstConfigureRuns(project: string, first: Input, made: JwtSaga.Reply, yes: JwtSaga.Reply, w: World)
    requires Normalize(first).Some? && first.secret != "" && made.ok && yes.ok
    requires var store := Store(map[made.arn := Secret(project, {made.version}, false)], map[project := made.arn],
                                map[(made.arn, made.version) := first.secret]);
      && w == World(project, Some(FirstRow(first, made)), store, Idle, {FirstRow(first, made)})
      && FreshReply(store, yes)
    requires FreshReply(Initial(project).store, made)
    ensures Run(Initial(project), [Configure(first, true), Proceed(made), Proceed(yes)], w)
  {
    hide Normalize, SettingsOf, FreshReply;
    NormalizeKeepsSecret(first);
    var n, w0 := Normalize(first).value, Initial(project);
    var w1 := w0.(pc := CreateSecret(n));
    var w2 := w0.(store := w.store, pc := InsertRow(ConfigOf(n, made.arn, made.version)));
    assert JwtSaga.Apply(w0, Configure(first, true)) == w1;
    assert JwtSaga.Apply(w1, Proceed(made)) == w2;
    assert JwtSaga.Apply(w2, Proceed(yes)) == w;
    ChainIsRun([w0, w1, w2, w], [Configure(first, true), Proceed(made), Proceed(yes)]);
  }

  lemma ChangeRuns(w: World, input: Input, yes: JwtSaga.Reply, w': World)
    requires w.pc.Idle? && w.row.Some? && Normalize(input).Some? && input.secret == ""
    requires w.row.value.settings != SettingsOf(Normalize(input).value) && yes.ok && FreshReply(w.store, yes)
    requires w' == Stored(w, ConfigOf(Normalize(input).value, w.row.value.secretArn, w.row.value.secretVersionId))
    ensures Run(w, [Configure(input, true), Proceed(yes)], w')
  {
    hide Normalize, SettingsOf, FreshReply;
    NormalizeKeepsSecret(input);
    var w1 := w.(pc := UpdateRow(ConfigOf(Normalize(input).value, w.row.value.secretArn, w.row.value.secretVersionId)));
    assert JwtSaga.Apply(w, Configure(input, true)) == w1;
    assert JwtSaga.Apply(w1, Proceed(yes)) == w';
    ChainIsRun([w, w1, w'], [Configure(input, true), Proceed(yes)]);
  }

  lemma FailedDeletionRuns(w: World, yes: JwtSaga.Reply, w': World)
    requires w.pc.Idle? && w.row.Some? && yes.ok && FreshReply(w.store, yes)
    requires w' == Stored(w.(row := None), w.row.value)
    ensures Run(w, [Delete(true), Proceed(yes), Proceed(yes.(ok := false)), Proceed(yes)], w')
  {
    hide FreshReply;
    var c, no := w.row.value, yes.(ok := false);
    var w1 := w.(pc := DeleteRow(c));
    var w2 := w.(row := None, pc := ScheduleDeletion(c));
    var w3 := w2.(pc := Reinsert(c));
    assert FreshReply(w.store, no) by {
      SameIdsAreFresh(w.store, yes, no);
    }
    assert JwtSaga.Apply(w, Delete(true)) == w1 && JwtSaga.Apply(w1, Proceed(yes)) == w2;
    assert JwtSaga.Apply(w2, Proceed(no)) == w3 && JwtSaga.Apply(w3, Proceed(yes)) == w';
    ChainIsRun([w, w1, w2, w3, w'], [Delete(true), Proceed(yes), Proceed(no), Proceed(yes)]);
  }

  lemma SameIdsAreFresh(store: Store, a: JwtSaga.Reply, b: JwtSaga.Reply)
    requires FreshReply(store, a) && a.arn == b.arn && a.version == b.version
    ensures FreshReply(store, b)
  {
  }

  lemma {:induction false} RunsCompose(w: World, first: seq<Step>, mid: World, second: seq<Step>, w': World)
    requires Run(w, first, mid) && Run(mid, second, w')
    ensures Run(w, first + second, w')
    decreases |first|
  {
    hide JwtSaga.Apply, Enabled;
    if first == [] {
      assert first + second == second;
    } else {
      assert (first + second)[0] == first[0];
      assert (first + second)[1..] == first[1..] + second;
      RunsCompose(JwtSaga.Apply(w, first[0]), first[1..], mid, second, w');
    }
  }

  lemma {:induction false} ChainIsRun(worlds: seq<World>, steps: seq<Step>)
    requires |worlds| == |steps| + 1
    requires forall i :: 0 <= i < |steps| ==>
      Enabled(worlds[i], steps[i]) && JwtSaga.Apply(worlds[i], steps[i]) == worlds[i + 1]
    ensures Run(worlds[0], steps, worlds[|steps|])
    decreases |steps|
  {
    hide JwtSaga.Apply, Enabled;
    if steps != [] {
      ChainIsRun(worlds[1..], steps[1..]);
    }
  }

  /** The gateway half: having loaded the first settings, it takes the row put back for the same and keeps them. */
  lemma RolledBackDeletionLeavesStaleVerifier(first: Input, second: Input, made: JwtSaga.Reply, yes: JwtSaga.Reply)
    requires Scenario(first, second, made, yes)
    ensures var archive := map[(made.arn, made.version) := first.secret];
      var e1 := Event(Some(FirstRow(first, made)), true, Some(first.secret));
      var e2 := Event(Some(FirstRow(second, made)), true, Some(first.secret));
      var out := JwtManaging.Apply(After([e1]), e2);
      && out.ok && out.state == FromScratch(archive, e1.config)
      && FromScratch(archive, e2.config).Some? && out.state != FromScratch(archive, e2.config)
  {
    hide ByteLen, TrimSpace, Audiences;
    var e1 := Event(Some(FirstRow(first, made)), true, Some(first.secret));
    assert [e1][..0] == [] && After([]) == None;
    NormalizeKeepsSecret(first);
    NormalizeKeepsSecret(second);
  }

  lemma {:induction false} PlainSecretLength(n: nat)
    ensures ByteLen(seq(n, _ => 'k')) == n
  {
    if n > 0 {
      assert seq(n, _ => 'k')[1..] == seq(n - 1, _ => 'k');
      PlainSecretLength(n - 1);
    }
  }

  lemma DefaultsAreAccepted(secret: string, skew: Option<int>)
    requires secret == "" || (|secret| == 32 && secret == seq(32, _ => 'k'))
    requires skew.Some? ==> 0 <= skew.value <= 300
    ensures var input := Input(true, "", secret, None, [], "", "", "", skew);
      Normalize(input) == Some(Input(true, "HS256", secret, None, [], "sub", "role", "scope", skew))
  {
    DefaultClaimsAreValid();
    assert AcceptableSecret(secret) by {
      PlainSecretLength(32);
      if secret != "" {
        assert !IsSpace(secret[0]) && !IsSpace(secret[31]);
      }
    }
    assert TrimSpace("") == "" && ToUpper("") == "";
    assert Audiences([]) == Some([]);
    hide ValidClaimName, AcceptableSecret, ByteLen, Audiences, TrimSpace, ToUpper;
  }

  /** The scenario with concrete inputs: a 32-byte secret with all defaults, then a clock skew of 60 seconds. */
  lemma FailedDeletionHappens(project: string) returns (w: World, made: JwtSaga.Reply, first: Input, second: Input)
    ensures Normalize(first).Some? && Normalize(second).Some?
    ensures w.pc.Idle? && w.row == Some(FirstRow(second, made))
    ensures FirstRow(first, made) in w.history
    ensures FirstRow(first, made) != FirstRow(second, made)
    ensures exists steps :: Run(Initial(project), steps, w)
    ensures !VersionsDetermine(w.history)
  {
    var secret := seq(32, _ => 'k');
    first := Input(true, "", secret, None, [], "", "", "", None);
    second := Input(true, "", "", None, [], "", "", "", Some(60));
    DefaultsAreAccepted(secret, None);
    DefaultsAreAccepted("", Some(60));
    made := Reply(true, "arn:1", "v1");
    var yes := Reply(true, "arn:2", "v2");
    hide Normalize;
    w := RolledBackDeletionReusesVersion(project, first, second, made, yes);
  }
}
