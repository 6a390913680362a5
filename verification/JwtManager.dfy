/** The verifier a gateway uses for project JWTs, and the manager that rebuilds it incrementally. */
module JwtVerifying {
  import opened Options
  import opened Text

  datatype Settings = Settings(
    algorithm: string,
    issuer: Option<string>,
    audiences: seq<string>,
    subjectClaim: string,
    roleClaim: string,
    scopesClaim: string,
    clockSkewSeconds: int)

  /** A JWT configuration as stored by the control plane and published to the gateways. */
  datatype Config = Config(
    enabled: bool,
    settings: Settings,
    secretArn: string,
    secretVersionId: string,
    configVersion: int)

  datatype Verifier = Verifier(secret: string, settings: Settings)

  /** HS256 needs a key of at least 256 bits, as section 3.2 of RFC 7518 requires. */
  const MIN_SECRET_BYTES := 32

  function WithDefaults(s: Settings): Settings {
    s.(subjectClaim := if s.subjectClaim == "" then "sub" else s.subjectClaim,
       roleClaim := if s.roleClaim == "" then "role" else s.roleClaim,
       scopesClaim := if s.scopesClaim == "" then "scope" else s.scopesClaim)
  }

  function NewVerifier(secret: string, settings: Settings): Option<Verifier> {
    if ByteLen(secret) < MIN_SECRET_BYTES then None
    else if settings.algorithm != "HS256" then None
    else Some(Verifier(secret, WithDefaults(settings)))
  }

  /** A verifier reads each claim under the name configured for it, and under a standard name where none is. */
  lemma VerifierMeaning(secret: string, s: Settings)
    ensures NewVerifier(secret, s).Some? <==> ByteLen(secret) >= 32 && s.algorithm == "HS256"
    ensures NewVerifier(secret, s).Some? ==>
      var v := NewVerifier(secret, s).value;
      && v.secret == secret
      && v.settings == s.(subjectClaim := v.settings.subjectClaim, roleClaim := v.settings.roleClaim,
                          scopesClaim := v.settings.scopesClaim)
      && v.settings.subjectClaim == (if s.subjectClaim != "" then s.subjectClaim else "sub")
      && v.settings.roleClaim == (if s.roleClaim != "" then s.roleClaim else "role")
      && v.settings.scopesClaim == (if s.scopesClaim != "" then s.scopesClaim else "scope")
  {
    hide ByteLen;
  }

  function Reconfigure(v: Verifier, settings: Settings): Option<Verifier> {
    NewVerifier(v.secret, settings)
  }
}

module JwtManaging {
  import opened Options
  import opened JwtVerifying
  import opened Text

  datatype State = State(
    enabled: bool,
    configVersion: int,
    secretArn: string,
    secretVersionId: string,
    verifier: Option<Verifier>)

  /** One reload: what was published, whether there is a secret reader, and what the secret store would answer. */
  datatype Event = Event(config: Option<Config>, hasReader: bool, answer: Option<string>)

  /** Every secret version ever written; versions are immutable. */
  type Archive = map<(string, string), string>

  predicate SameSecret(s: Option<State>, c: Config) {
    && s.Some? && s.value.enabled && s.value.verifier.Some?
    && s.value.secretArn == c.secretArn && s.value.secretVersionId == c.secretVersionId
  }

  function Disabled(version: int): State {
    State(false, version, "", "", None)
  }

  function Installed(c: Config, v: Verifier): State {
    State(true, c.configVersion, c.secretArn, c.secretVersionId, Some(v))
  }

  datatype Outcome = Outcome(state: Option<State>, ok: bool, fetched: bool)

  function Apply(current: Option<State>, e: Event): Outcome {
    if e.config.None? || !e.config.value.enabled then
      Outcome(Some(Disabled(if e.config.Some? then e.config.value.configVersion else 0)), true, false)
    else
      var c := e.config.value;
      if c.secretArn == "" || c.secretVersionId == "" then Outcome(current, false, false)
      else if SameSecret(current, c) && current.value.configVersion == c.configVersion then
        Outcome(current, true, false)
      else if SameSecret(current, c) then
        var v := Reconfigure(current.value.verifier.value, c.settings);
        if v.None? then Outcome(current, false, false) else Outcome(Some(Installed(c, v.value)), true, false)
      else if !e.hasReader then Outcome(current, false, false)
      else if e.answer.None? then Outcome(current, false, true)
      else
        var v := NewVerifier(e.answer.value, c.settings);
        if v.None? then Outcome(current, false, true) else Outcome(Some(Installed(c, v.value)), true, true)
  }

  class ProjectJWTManager {
    var state: Option<State>

    constructor ()
      ensures state == None
    {
      state := None;
    }

    method ApplyConfig(e: Event) returns (ok: bool, fetched: bool)
      modifies this
      ensures Outcome(state, ok, fetched) == Apply(old(state), e)
    {
      var cfg := e.config;
      if cfg.None? || !cfg.value.enabled {
        var version := 0;
        if cfg.Some? {
          version := cfg.value.configVersion;
        }
        state := Some(State(false, version, "", "", None));
        return true, false;
      }
      var c := cfg.value;
      if c.secretArn == "" {
        return false, false;
      }
      if c.secretVersionId == "" {
        return false, false;
      }
      var current := state;
      if current.Some? && current.value.enabled && current.value.configVersion == c.configVersion
        && current.value.secretArn == c.secretArn && current.value.secretVersionId == c.secretVersionId
        && current.value.verifier.Some?
      {
        return true, false;
      }
      if current.Some? && current.value.enabled && current.value.verifier.Some?
        && current.value.secretArn == c.secretArn && current.value.secretVersionId == c.secretVersionId
      {
        var reconfigured := Reconfigure(current.value.verifier.value, c.settings);
        if reconfigured.None? {
          return false, false;
        }
        state := Some(State(true, c.configVersion, c.secretArn, c.secretVersionId, reconfigured));
        return true, false;
      }
      if !e.hasReader {
        return false, false;
      }
      if e.answer.None? {
        return false, true;
      }
      var verifier := NewVerifier(e.answer.value, c.settings);
      if verifier.None? {
        return false, true;
      }
      state := Some(State(true, c.configVersion, c.secretArn, c.secretVersionId, verifier));
      return true, true;
    }

    /** The verifier a request is checked with, if authentication is configured. */
    method ActiveVerifier() returns (v: Option<Verifier>)
      ensures v == Active(state)
    {
      if state.None? || !state.value.enabled || state.value.verifier.None? {
        return None;
      }
      return state.value.verifier;
    }
  }

  function Active(s: Option<State>): Option<Verifier> {
    if s.None? || !s.value.enabled then None else s.value.verifier
  }

  // ---------------------------------------------------------------- the reference: build from scratch

  /** The state built from nothing but the configuration and the stored secret. */
  function FromScratch(archive: Archive, config: Option<Config>): Option<State> {
    if config.None? then Some(Disabled(0))
    else
      var c := config.value;
      if !c.enabled then Some(Disabled(c.configVersion))
      else if c.secretArn == "" || c.secretVersionId == "" || (c.secretArn, c.secretVersionId) !in archive then None
      else
        var v := NewVerifier(archive[(c.secretArn, c.secretVersionId)], c.settings);
        if v.None? then None else Some(Installed(c, v.value))
  }

  /** The secret store answers with the version asked for, or not at all. */
  ghost predicate HonestAnswer(archive: Archive, e: Event) {
    e.config.Some? && e.answer.Some? ==>
      var c := e.config.value;
      (c.secretArn, c.secretVersionId) in archive && archive[(c.secretArn, c.secretVersionId)] == e.answer.value
  }

  /** Configuration version, ARN and secret version determine the rest of an enabled configuration. */
  ghost predicate Determines(a: Config, b: Config) {
    a.enabled && b.enabled && a.configVersion == b.configVersion
      && a.secretArn == b.secretArn && a.secretVersionId == b.secretVersionId
    ==> a == b
  }

  ghost predicate Determinate(events: seq<Event>) {
    forall i, j :: 0 <= i < |events| && 0 <= j < |events| && events[i].config.Some? && events[j].config.Some? ==>
      Determines(events[i].config.value, events[j].config.value)
  }

  function After(events: seq<Event>): Option<State> {
    if events == [] then None else Apply(After(events[..|events| - 1]), events[|events| - 1]).state
  }

  /** Every state is the one built from scratch for some configuration seen before. */
  lemma {:induction false} StateHasOrigin(archive: Archive, events: seq<Event>) returns (i: nat)
    requires Determinate(events) && forall k :: 0 <= k < |events| ==> HonestAnswer(archive, events[k])
    ensures After(events).Some? ==> i < |events| && After(events) == FromScratch(archive, events[i].config)
    decreases |events|
  {
    i := 0;
    if events != [] {
      var init, last := events[..|events| - 1], events[|events| - 1];
      var j := StateHasOrigin(archive, init);
      if After(events) == After(init) {
        i := j;
      } else {
        i := |events| - 1;
        assert HonestAnswer(archive, events[|events| - 1]);
      }
    }
  }

  /** One reload on top of a state that some earlier configuration was built into from scratch. */
  lemma ApplyOnOrigin(archive: Archive, origin: Option<Config>, current: Option<State>, e: Event)
    requires HonestAnswer(archive, e)
    requires current.Some? ==> current == FromScratch(archive, origin)
    requires origin.Some? && e.config.Some? ==> Determines(origin.value, e.config.value)
    ensures Apply(current, e).ok ==> Apply(current, e).state == FromScratch(archive, e.config)
    ensures !Apply(current, e).ok ==> Apply(current, e).state == current
  {
    hide ByteLen;
  }

  /**
   * Incremental equals fresh: over every sequence of reloads, whatever they carried and however
   * the secret store behaved, a successful reload leaves exactly the state built from scratch,
   * and a failed one leaves the previous state.
   */
  lemma IncrementalEqualsFresh(archive: Archive, events: seq<Event>, e: Event)
    requires Determinate(events + [e])
    requires forall k :: 0 <= k < |events + [e]| ==> HonestAnswer(archive, (events + [e])[k])
    ensures var out := Apply(After(events), e);
      && (out.ok ==> out.state == FromScratch(archive, e.config))
      && (!out.ok ==> out.state == After(events))
  {
    var all := events + [e];
    assert all[|events|] == e && HonestAnswer(archive, all[|events|]);
    forall k | 0 <= k < |events|
      ensures all[k] == events[k] && HonestAnswer(archive, events[k])
    {
      assert HonestAnswer(archive, all[k]);
    }
    forall i, j | 0 <= i < |events| && 0 <= j < |events| && events[i].config.Some? && events[j].config.Some?
      ensures Determines(events[i].config.value, events[j].config.value)
    {
      assert Determines(all[i].config.value, all[j].config.value);
    }
    var i := StateHasOrigin(archive, events);
    if After(events).Some? {
      var origin := all[i].config;
      if origin.Some? && e.config.Some? {
        assert Determines(all[i].config.value, all[|events|].config.value);
      }
      ApplyOnOrigin(archive, origin, After(events), e);
    } else {
      ApplyOnOrigin(archive, None, None, e);
    }
  }

  /** Disabling always succeeds, asks nobody, and forgets verifier and secret, so that a re-enable starts afresh. */
  lemma DisablingForgets(current: Option<State>, e: Event)
    requires e.config.None? || !e.config.value.enabled
    ensures var out := Apply(current, e);
      && out.ok && !out.fetched && out.state.Some? && !out.state.value.enabled && out.state.value.verifier.None?
      && out.state.value.secretArn == "" && out.state.value.secretVersionId == ""
      && out.state.value.configVersion == if e.config.Some? then e.config.value.configVersion else 0
    ensures forall c: Config, answer :: c.enabled && c.secretArn != "" && c.secretVersionId != "" ==>
      Apply(Apply(current, e).state, Event(Some(c), true, answer)).fetched
  {
    hide ByteLen;
  }

  /** The configuration of the latest reload that succeeded. */
  function LastApplied(events: seq<Event>): Option<Config> {
    if events == [] then None
    else
      var past, e := events[..|events| - 1], events[|events| - 1];
      if Apply(After(past), e).ok then e.config else LastApplied(past)
  }

  /** The verifier that a configuration calls for: none while authentication is absent or disabled. */
  function VerifierFor(archive: Archive, config: Option<Config>): Option<Verifier> {
    if config.None? || !config.value.enabled then None
    else
      var ref := (config.value.secretArn, config.value.secretVersionId);
      if ref in archive then NewVerifier(archive[ref], config.value.settings) else None
  }

  /**
   * Over every sequence of reloads, requests are checked with exactly the verifier of the last
   * configuration applied with success, and with none while that one is absent or disabled.
   */
  lemma {:induction false} RequestsUseLastApplied(archive: Archive, events: seq<Event>)
    requires Determinate(events) && forall k :: 0 <= k < |events| ==> HonestAnswer(archive, events[k])
    ensures Active(After(events)) == VerifierFor(archive, LastApplied(events))
    decreases |events|
  {
    hide NewVerifier, HonestAnswer;
    if events != [] {
      var past, e := events[..|events| - 1], events[|events| - 1];
      assert past + [e] == events;
      RequestsUseLastApplied(archive, past);
      IncrementalEqualsFresh(archive, past, e);
    }
  }

  /** A reload fails only where building from scratch fails too, or where the secret was needed and not delivered. */
  lemma ApplySucceedsIff(archive: Archive, origin: Option<Config>, current: Option<State>, e: Event)
    requires HonestAnswer(archive, e)
    requires current.Some? ==> current == FromScratch(archive, origin)
    requires origin.Some? && e.config.Some? ==> Determines(origin.value, e.config.value)
    ensures var needed := e.config.Some? && e.config.value.enabled && !SameSecret(current, e.config.value);
      Apply(current, e).ok <==>
        FromScratch(archive, e.config).Some? && (needed ==> e.hasReader && e.answer.Some?)
  {
    hide ByteLen;
  }

  /** The secret store is asked only on a first load, on a re-enable, or for a changed ARN or version. */
  lemma FetchesOnlyWhenNeeded(archive: Archive, origin: Option<Config>, current: Option<State>, e: Event)
    requires current.Some? ==> current == FromScratch(archive, origin)
    ensures Apply(current, e).fetched <==>
      && e.hasReader && e.config.Some? && e.config.value.enabled
      && e.config.value.secretArn != "" && e.config.value.secretVersionId != ""
      && (current.None? || !current.value.enabled
          || current.value.secretArn != e.config.value.secretArn
          || current.value.secretVersionId != e.config.value.secretVersionId)
  {
    hide ByteLen;
  }

  /**
   * Without determinacy: when a configuration arrives under the version and secret already active,
   * nothing is rebuilt, and the state is right exactly when both settings build the same verifier.
   */
  lemma SkippedReloadIsRightIff(archive: Archive, origin: Config, e: Event)
    requires FromScratch(archive, Some(origin)).Some? && origin.enabled
    requires e.config.Some? && e.config.value.enabled
    requires e.config.value.configVersion == origin.configVersion
    requires e.config.value.secretArn == origin.secretArn && e.config.value.secretVersionId == origin.secretVersionId
    ensures var current := FromScratch(archive, Some(origin));
      && Apply(current, e) == Outcome(current, true, false)
      && (current == FromScratch(archive, e.config) <==>
            WithDefaults(e.config.value.settings) == WithDefaults(origin.settings))
  {
  }
}
