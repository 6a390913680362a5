/** The configuration service's own control flow, proved against the step-by-step saga. */
module JwtService {
  import opened Options
  import opened JwtSaga
  import opened JwtSettings
  import opened JwtTheorems
  import opened JwtVerifying

  /** A call run to its end, each external call answered by the next reply. */
  function Finish(w: World, replies: seq<Reply>): World
    decreases |replies|
  {
    if w.pc.Idle? || replies == [] then w else Finish(Continue(w, replies[0]), replies[1..])
  }

  /** The most external calls one Configure makes after reading the row. */
  const MAX_CALLS := 5

  lemma FinishFrom(w: World, replies: seq<Reply>, k: nat)
    requires k < |replies| && !w.pc.Idle?
    ensures Finish(w, replies[k..]) == Finish(Continue(w, replies[k]), replies[k + 1..])
  {
    assert replies[k..][0] == replies[k] && replies[k..][1..] == replies[k + 1..];
  }

  /** The secret stored under the version that the row names. */
  ghost predicate Names(row: Option<Config>, store: Store, secret: string) {
    && row.Some? && (row.value.secretArn, row.value.secretVersionId) in store.archive
    && store.archive[(row.value.secretArn, row.value.secretVersionId)] == secret
  }

  /** No external call fails. */
  ghost predicate AllWell(replies: seq<Reply>) {
    forall k :: 0 <= k < |replies| ==> replies[k].ok
  }

  class ProjectJWTConfigService {
    const project: string
    var row: Option<Config>
    var store: Store
    ghost var history: set<Config>

    constructor (project: string)
      ensures this.project == project && Now(Idle) == Initial(project)
    {
      this.project := project;
      row := None;
      store := Store(map[], map[], map[]);
      history := {};
    }

    /** The service's state with a given call pending. */
    ghost function Now(pc: Pc): World
      reads this
    {
      World(project, row, store, pc, history)
    }

    method Upsert(next: Config)
      modifies this
      ensures Now(Idle) == Stored(old(Now(Idle)), next) && store == old(store)
    {
      row := Some(Upserted(row, next));
      history := history + {row.value};
    }

    method Create(n: Input, replies: seq<Reply>) returns (ok: bool)
      requires |replies| == MAX_CALLS
      modifies this
      ensures Now(Idle) == Finish(old(Now(CreateSecret(n))), replies)
      ensures ok ==> row.Some? && row.value.enabled == n.enabled && row.value.settings == SettingsOf(n)
      ensures ok ==> Names(row, store, n.secret)
      ensures AllWell(replies) && StoreOk(old(store)) ==> ok
      ensures !ok ==> row == old(row)
    {
      hide SettingsOf, Created, WithVersion, Scheduled, Stored, Writable, Finish;
      assert replies[0..] == replies;
      FinishFrom(Now(CreateSecret(n)), replies, 0);
      if !replies[0].ok {
        IdleIsFinal(Now(Idle), replies[1..]);
        return false;
      }
      if project in store.names {
        var arn := store.names[project];
        FinishFrom(Now(RestoreSecret(n)), replies, 1);
        if replies[1].ok {
          store := Scheduled(store, arn, false);
        }
        ScheduledKeepsNames(store, arn);
        assert store.names == old(store.names) by {
          ScheduledKeepsNames(old(store), arn);
        }
        RestoredIsWritable(old(store), project, arn);
        FinishFrom(Now(PutSecret(n)), replies, 2);
        if !replies[2].ok || !Writable(store, arn) {
          IdleIsFinal(Now(Idle), replies[3..]);
          return false;
        }
        WritableExists(store, arn);
        VersionIsArchived(store, arn, replies[2].version, n.secret);
        store := WithVersion(store, arn, replies[2].version, n.secret);
        ok := Insert(n, arn, replies[2].version, replies, 3);
      } else {
        SecretIsArchived(store, project, replies[0].arn, replies[0].version, n.secret);
        store := Created(store, project, replies[0].arn, replies[0].version, n.secret);
        ok := Insert(n, replies[0].arn, replies[0].version, replies, 1);
      }
    }

    /** The end of create: store the row, or schedule the new secret for deletion. */
    method Insert(n: Input, arn: string, version: string, replies: seq<Reply>, k: nat) returns (ok: bool)
      requires k + 1 < |replies|
      modifies this
      ensures Now(Idle) == Finish(old(Now(InsertRow(ConfigOf(n, arn, version)))), replies[k..])
      ensures ok ==> row.Some? && row.value.enabled == n.enabled && row.value.settings == SettingsOf(n)
      ensures ok ==> row.value.secretArn == arn && row.value.secretVersionId == version && store == old(store)
      ensures ok <==> replies[k].ok
      ensures !ok ==> row == old(row)
    {
      hide SettingsOf, Scheduled, Finish;
      var cfg := ConfigOf(n, arn, version);
      FinishFrom(Now(InsertRow(cfg)), replies, k);
      if !replies[k].ok {
        FinishFrom(Now(CleanUp(arn)), replies, k + 1);
        if replies[k + 1].ok {
          store := Scheduled(store, arn, true);
        }
        IdleIsFinal(Now(Idle), replies[k + 2..]);
        return false;
      }
      Upsert(cfg);
      IdleIsFinal(Now(Idle), replies[k + 1..]);
      return true;
    }

    method Update(current: Config, n: Input, replies: seq<Reply>) returns (ok: bool)
      requires |replies| == MAX_CALLS && row == Some(current)
      modifies this
      ensures Now(Idle) ==
        if n.secret == "" && Equivalent(current.enabled, current.settings, n.enabled, SettingsOf(n)) then old(Now(Idle))
        else if n.secret != "" then Finish(old(Now(Rotate(current, n))), replies)
        else Finish(old(Now(UpdateRow(ConfigOf(n, current.secretArn, current.secretVersionId)))), replies)
      ensures ok ==> row.Some? && row.value.enabled == n.enabled && row.value.settings == SettingsOf(n)
      ensures ok && n.secret != "" ==> Names(row, store, n.secret)
      ensures AllWell(replies) && (n.secret != "" ==> Writable(old(store), current.secretArn)) ==> ok
      ensures ok && n.secret == "" ==>
        && row.value.secretArn == current.secretArn && row.value.secretVersionId == current.secretVersionId
        && store == old(store)
      ensures !ok ==> row == old(row)
    {
      hide SettingsOf, WithVersion, Writable, Finish;
      assert replies[0..] == replies;
      var secretChanged := n.secret != "";
      if !secretChanged && Equivalent(current.enabled, current.settings, n.enabled, SettingsOf(n)) {
        return true;
      }
      if !secretChanged {
        ok := SaveUpdate(n, current.secretArn, current.secretVersionId, replies, 0);
        return;
      }
      FinishFrom(Now(Rotate(current, n)), replies, 0);
      if !replies[0].ok || !Writable(store, current.secretArn) {
        IdleIsFinal(Now(Idle), replies[1..]);
        return false;
      }
      WritableExists(store, current.secretArn);
      VersionIsArchived(store, current.secretArn, replies[0].version, n.secret);
      store := WithVersion(store, current.secretArn, replies[0].version, n.secret);
      ok := SaveUpdate(n, current.secretArn, replies[0].version, replies, 1);
    }

    method SaveUpdate(n: Input, arn: string, version: string, replies: seq<Reply>, k: nat) returns (ok: bool)
      requires k < |replies|
      modifies this
      ensures Now(Idle) == Finish(old(Now(UpdateRow(ConfigOf(n, arn, version)))), replies[k..])
      ensures ok ==> row.Some? && row.value.enabled == n.enabled && row.value.settings == SettingsOf(n)
      ensures ok ==> row.value.secretArn == arn && row.value.secretVersionId == version && store == old(store)
      ensures ok <==> replies[k].ok
      ensures !ok ==> row == old(row)
    {
      hide SettingsOf, Finish;
      var next := ConfigOf(n, arn, version);
      FinishFrom(Now(UpdateRow(next)), replies, k);
      if replies[k].ok {
        Upsert(next);
      }
      IdleIsFinal(Now(Idle), replies[k + 1..]);
      return replies[k].ok;
    }

    /**
     * On success the row means what was submitted and names the secret submitted, if any; on failure it
     * is untouched, so it still names its old version. Accepted input fails only with an external call.
     */
    method Configure(input: Input, readable: bool, replies: seq<Reply>) returns (ok: bool)
      requires |replies| == MAX_CALLS
      modifies this
      ensures Now(Idle) == Finish(Begin(old(Now(Idle)), input, readable), replies)
      ensures ok ==> row.Some? && MeaningOfConfig(row.value) == MeaningOf(input)
      ensures ok && input.secret != "" ==> Names(row, store, input.secret)
      ensures
        (&& AllWell(replies) && readable && Safe(old(Now(Idle)))
         && Normalize(input).Some? && (old(row).Some? || input.secret != ""))
        ==> ok
      ensures ok && input.secret == "" ==>
        && old(row).Some? && store == old(store)
        && row.value.secretArn == old(row).value.secretArn
        && row.value.secretVersionId == old(row).value.secretVersionId
      ensures !ok ==> row == old(row)
    {
      hide Normalize, SettingsOf, Finish, MeaningOf;
      var normalized := Normalize(input);
      IdleIsFinal(Now(Idle), replies);
      if normalized.None? {
        return false;
      }
      if !readable {
        return false;
      }
      var n := normalized.value;
      NormalizeKeepsSecret(input);
      NormalizedIsCanonical(input);
      assert MeaningOfConfig(ConfigOf(n, "", "")) == MeaningOf(input);
      if row.Some? {
        LiveIsWritable(store, row.value);
        ok := Update(row.value, n, replies);
        IdleIsFinal(Now(Idle), replies);
      } else {
        if n.secret == "" {
          return false;
        }
        ok := Create(n, replies);
      }
    }

    /** Remove the row, then schedule its secret; put the row back if that fails. */
    method Remove(readable: bool, replies: seq<Reply>) returns (ok: bool)
      requires |replies| == MAX_CALLS
      modifies this
      ensures Now(Idle) == Finish(JwtSaga.Apply(old(Now(Idle)), Delete(readable)), replies)
      ensures ok ==> row.None? && old(row).Some?
      ensures ok && old(row).value.secretArn in store.secrets ==> store.secrets[old(row).value.secretArn].scheduled
      ensures readable && old(row).Some? && replies[0].ok && replies[1].ok ==> ok
      ensures !ok && row.Some? ==>
        old(row).Some? && (row == old(row) || row.value == old(row).value.(configVersion := 1))
    {
      hide Scheduled, Finish;
      assert replies[0..] == replies;
      IdleIsFinal(Now(Idle), replies);
      if !readable || row.None? {
        return false;
      }
      var current := row.value;
      FinishFrom(Now(DeleteRow(current)), replies, 0);
      if !replies[0].ok {
        IdleIsFinal(Now(Idle), replies[1..]);
        return false;
      }
      row := None;
      FinishFrom(Now(ScheduleDeletion(current)), replies, 1);
      if replies[1].ok {
        DeletionIsScheduled(store, current.secretArn);
        store := Scheduled(store, current.secretArn, true);
        IdleIsFinal(Now(Idle), replies[2..]);
        return true;
      }
      FinishFrom(Now(Reinsert(current)), replies, 2);
      if replies[2].ok {
        Upsert(current);
      }
      IdleIsFinal(Now(Idle), replies[3..]);
      return false;
    }
  }

  lemma DeletionIsScheduled(s: Store, arn: string)
    ensures var s' := Scheduled(s, arn, true); arn in s'.secrets ==> s'.secrets[arn].scheduled
  {
  }

  lemma RestoredIsWritable(s: Store, name: string, arn: string)
    requires name in s.names && s.names[name] == arn
    ensures StoreOk(s) ==> Writable(Scheduled(s, arn, false), arn)
  {
  }

  lemma LiveIsWritable(s: Store, c: Config)
    ensures Live(s, c) ==> Writable(s, c.secretArn)
  {
  }

  lemma SecretIsArchived(s: Store, name: string, arn: string, version: string, value: string)
    ensures (arn, version) in Created(s, name, arn, version, value).archive
    ensures Created(s, name, arn, version, value).archive[(arn, version)] == value
  {
  }

  lemma VersionIsArchived(s: Store, arn: string, version: string, value: string)
    requires arn in s.secrets
    ensures (arn, version) in WithVersion(s, arn, version, value).archive
    ensures WithVersion(s, arn, version, value).archive[(arn, version)] == value
  {
  }

  lemma IdleIsFinal(w: World, replies: seq<Reply>)
    requires w.pc.Idle?
    ensures Finish(w, replies) == w
  {
  }

  lemma ScheduledKeepsNames(s: Store, arn: string)
    ensures Scheduled(s, arn, false).names == s.names
  {
  }

  /** A finished call is a run of the saga whenever the secret store hands out fresh identifiers. */
  lemma {:induction false} FinishIsRun(w: World, replies: seq<Reply>) returns (steps: seq<Step>)
    requires FreshThroughout(w, replies)
    ensures Run(w, steps, Finish(w, replies))
    decreases |replies|
  {
    hide Continue, FreshReply;
    if w.pc.Idle? || replies == [] {
      steps := [];
    } else {
      var rest := FinishIsRun(Continue(w, replies[0]), replies[1..]);
      steps := [Proceed(replies[0])] + rest;
      assert steps[1..] == rest;
    }
  }

  ghost predicate FreshThroughout(w: World, replies: seq<Reply>)
    decreases |replies|
  {
    w.pc.Idle? || replies == [] ||
      (FreshReply(w.store, replies[0]) && FreshThroughout(Continue(w, replies[0]), replies[1..]))
  }
}
