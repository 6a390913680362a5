/** What the custom-domain queue guarantees over every interleaving of workers and admin calls. */
module CustomDomainTheorems {
  import opened Options
  import opened CustomDomainTable
  import opened CustomDomainWorker
  import opened CustomDomainSystem
  import opened Queueing
  import Text

  lemma {:induction false} RunKeepsInv(s: System, steps: seq<Step>, s': System)
    requires Inv(s) && Run(s, steps, s')
    ensures Inv(s')
    decreases |steps|
  {
    if steps != [] {
      StepKeepsInv(s, steps[0]);
      RunKeepsInv(Apply(s, steps[0]), steps[1..], s');
    }
  }

  /**
   In every reachable state: rows carry what their stage needs, a job whose token is still on its row pictures
   that row exactly, and no job, stale or not, leads to a broken-row branch.
   */
  lemma ReachableDomains(steps: seq<Step>, s: System)
    requires Run(INITIAL, steps, s)
    ensures forall id :: id in s.rows ==> RowOk(s.rows[id])
    ensures forall t :: t in s.held ==>
      && s.held[t].id in s.rows
      && Fenced(s.rows[s.held[t].id], s.held[t])
      && !TakesBrokenRowBranch(s.held[t])
  {
    RunKeepsInv(INITIAL, steps, s);
    assert forall t :: t in s.held ==> JobOk(s.rows, t, s.held[t]);
  }

  /** A superseded worker's write leaves the whole system as it was. */
  lemma SupersededWriteIsInert(s: System, token: Token, cloud: Cloud, now: int)
    requires Inv(s) && Enabled(s, WorkerWrite(token, cloud, now))
    requires s.held[token].id in s.rows && s.rows[s.held[token].id].lease != Some(token)
    ensures Apply(s, WorkerWrite(token, cloud, now)) == s
  {
    var id := s.held[token].id;
    assert s.rows[id := s.rows[id]] == s.rows;
  }

  /** A worker is told Ok or StaleLease: its row is never gone and its stage is never the wrong one. */
  lemma WorkersNeverSeeInvalidTransition(s: System, token: Token, cloud: Cloud, now: int)
    requires Inv(s) && Enabled(s, WorkerWrite(token, cloud, now))
    ensures var job := s.held[token];
      OutcomeOf(s.rows, job.id, token, Decide(job, cloud, now)) in {Ok, StaleLease}
  {
    var job := s.held[token];
    assert JobOk(s.rows, token, job);
    DecisionFits(job, cloud, now);
  }

  /** Between any two states of a run, certificate_arn is stable once set and teardown is never left. */
  lemma {:induction false} RunEvolves(s: System, steps: seq<Step>, s': System, id: string)
    requires Inv(s) && Run(s, steps, s') && id in s.rows
    ensures id in s'.rows
    ensures s.rows[id].arn.Some? ==> s'.rows[id].arn == s.rows[id].arn
    ensures Teardown(s.rows[id].stage) ==> Teardown(s'.rows[id].stage)
    ensures s.rows[id].deleted ==> s'.rows[id].deleted
    decreases |steps|
  {
    if steps != [] {
      StepEvolves(s, steps[0], id);
      StepKeepsInv(s, steps[0]);
      RunEvolves(Apply(s, steps[0]), steps[1..], s', id);
    }
  }

  lemma {:induction false} HeldJobsStay(s: System, steps: seq<Step>, s': System, token: Token)
    requires Run(s, steps, s') && token in s.held
    ensures token in s'.held && s'.held[token] == s.held[token]
    decreases |steps|
  {
    if steps != [] {
      hide Decide, Eligible, ExecuteOn, AdminEffect;
      HeldJobsStay(Apply(s, steps[0]), steps[1..], s', token);
    }
  }

  /**
   Along any run after a claim at time `at`: while the row carries that claim's token it is locked since
   `at`, so no second claim of the row is possible before the lock timeout has passed.
   */
  lemma LeaseIsExclusive(s: System, id: string, token: Token, at: int, allowed: int, steps: seq<Step>, s': System,
                         now: int, timeout: int)
    requires Inv(s) && Enabled(s, Claim(id, token, at, allowed))
    requires Run(Apply(s, Claim(id, token, at, allowed)), steps, s')
    requires id in s'.rows && s'.rows[id].lease == Some(token)
    ensures s'.rows[id].lockedAt == Some(at)
    ensures now < at + (if timeout > 0 then timeout else 300) ==> forall t :: !Enabled(s', Claim(id, t, now, timeout))
  {
    var s1 := Apply(s, Claim(id, token, at, allowed));
    StepKeepsInv(s, Claim(id, token, at, allowed));
    RunKeepsInv(s1, steps, s');
    HeldJobsStay(s1, steps, s', token);
    assert JobOk(s'.rows, token, s'.held[token]);
  }

  /** Rows that are not deleted have different hostnames, letter case aside. */
  ghost predicate DistinctHostnames(rows: map<string, Row>) {
    forall i, j :: i in rows && j in rows && i != j && !rows[i].deleted && !rows[j].deleted ==>
      Text.ToLower(rows[i].hostname) != Text.ToLower(rows[j].hostname)
  }

  lemma StepKeepsHostnames(s: System, step: Step)
    requires Inv(s) && Enabled(s, step) && DistinctHostnames(s.rows)
    ensures DistinctHostnames(Apply(s, step).rows)
  {
    hide Inv, Evolves, Apply, Text.ToLower;
    var rows := Apply(s, step).rows;
    forall id | id in s.rows
      ensures id in rows && rows[id].hostname == s.rows[id].hostname && (s.rows[id].deleted ==> rows[id].deleted)
    {
      StepEvolves(s, step, id);
      EvolvingKeepsName(s.rows[id], rows[id]);
    }
    NewRows(s, step);
  }

  lemma EvolvingKeepsName(r: Row, r': Row)
    requires Evolves(r, r')
    ensures r'.hostname == r.hostname && (r.deleted ==> r'.deleted)
  {
  }

  lemma NewRows(s: System, step: Step)
    requires Enabled(s, step)
    ensures forall id :: id in Apply(s, step).rows && id !in s.rows ==>
      step.Create? && id == step.id && Apply(s, step).rows[id].hostname == step.hostname
    ensures step.Create? ==> !HostnameTaken(s.rows, step.hostname)
  {
    hide Decide, Text.ToLower, AdminEffect;
  }

  /** In every reachable state no two live domains share a hostname, so each host is provisioned for one row. */
  lemma {:induction false} HostnamesStayDistinct(s: System, steps: seq<Step>, s': System)
    requires Inv(s) && DistinctHostnames(s.rows) && Run(s, steps, s')
    ensures DistinctHostnames(s'.rows)
    decreases |steps|
  {
    hide Inv, DistinctHostnames, Apply, Enabled;
    if steps != [] {
      StepKeepsHostnames(s, steps[0]);
      StepKeepsInv(s, steps[0]);
      HostnamesStayDistinct(Apply(s, steps[0]), steps[1..], s');
    }
  }
}
