/** What the rules for a job mean for the runs of its steps on one host. */
module JobRuns {
  import opened Counting
  import opened Network
  import opened HostConnection
  import opened HostSteps
  import opened HostRun
  import opened HostTheorems
  import opened HostWitness
  import Building
  import Jobs
  import Report

  ghost predicate OptionsOfJob(j: Jobs.Job, s: Building.Settings, acts: seq<Action>, k: nat)
    requires k < |j.steps| == |acts|
  {
    && Jobs.DefaultsOk(j.defaults) && Jobs.RetriesOk(j.steps[k])
    && acts[k] == Building.OptionsOf(j.defaults, j.steps[k], s)
  }

  /** The actions are those that `Build` makes of a validated job. */
  ghost predicate ActionsOf(j: Jobs.Job, s: Building.Settings, acts: seq<Action>) {
    && Jobs.Valid(j) && |acts| == |j.steps|
    && forall k :: 0 <= k < |acts| ==> OptionsOfJob(j, s, acts, k)
  }

  lemma BuiltActions(j: Jobs.Job, vars: Building.Vars, s: Building.Settings, built: seq<Building.Built>, acts: seq<Action>)
    requires Jobs.Valid(j) && |acts| == |built| == |j.steps|
    requires forall k :: 0 <= k < |built| ==> Building.StepBuilt(j, vars, s, k, built[k]) && acts[k] == built[k].options
    ensures ActionsOf(j, s, acts)
  {
    forall k | 0 <= k < |acts|
      ensures OptionsOfJob(j, s, acts, k)
    {
      assert Building.StepBuilt(j, vars, s, k, built[k]);
    }
  }

  /** Whatever `defaults.retries` says and whatever the network does, the command of a step that may lose the
      connection is submitted at most once in the whole run of a host, any other at most eleven times. */
  lemma FragileRunsOnce(
    j: Jobs.Job, s: Building.Settings, acts: seq<Action>, h: HostResult, r: StepsRecord, connecting: seq<Event>,
    events: seq<Event>, k: nat)
    requires ActionsOf(j, s, acts) && HostRan(acts, h, r, connecting, events) && k < |acts|
    ensures Total(events, Submits(k)) <= Jobs.MAX_RETRIES + 1
    ensures j.steps[k].reboot || j.steps[k].disconnect || j.steps[k].fireAndForget ==> Total(events, Submits(k)) <= 1
  {
    assert OptionsOfJob(j, s, acts, k);
    Building.OptionsAreSafe(j, k, s);
    SubmittedPerAttempt(acts, h, r, connecting, events, k);
  }

  /** A SUCCESS of a step marked `reboot` means that a new boot ID was seen on the connection the next step gets. */
  lemma RebootStepVerified(
    j: Jobs.Job, s: Building.Settings, acts: seq<Action>, h: HostResult, r: StepsRecord, connecting: seq<Event>,
    events: seq<Event>, k: nat)
    requires ActionsOf(j, s, acts) && HostRan(acts, h, r, connecting, events) && k < |acts| && j.steps[k].reboot
    requires |h.steps| == |acts| && h.steps[k].status == Report.Success
    ensures |r.clients| == |acts| + 1 && r.clients[k].Some? && r.clients[k + 1].Some? && k < |r.parts|
    ensures var p, c, nc := r.parts[k], r.clients[k].value, r.clients[k + 1].value;
            && c != nc && |p.boot| == 1 && p.rest != []
            && RanHere(p.boot[0], c, BootId) && BootIdIn(p.boot[0].reply).Some?
            && NewBoot(p.rest[|p.rest| - 1], nc, BootIdIn(p.boot[0].reply).value)
  {
    assert OptionsOfJob(j, s, acts, k);
    RebootVerified(acts, h, r, connecting, events, k);
  }

  /** Of a validated job, a SUCCESS of step `k` stands for a submitted command in every run exactly unless the
      step may lose its connection and uploads something before: a script, or a sensitive command. */
  lemma SuccessSubmitsIff(j: Jobs.Job, s: Building.Settings, acts: seq<Action>, k: nat)
    requires ActionsOf(j, s, acts) && k < |acts|
    ensures SuccessSubmits(acts, k)
            <==> !((j.steps[k].reboot || j.steps[k].disconnect) && (j.steps[k].script != "" || j.steps[k].sensitive))
  {
    assert OptionsOfJob(j, s, acts, k);
    Building.OptionsAreSafe(j, k, s);
    assert Jobs.StepOk(j, k);
    HostWitness.SuccessSubmitsIff(acts, k);
  }

  /** Of a validated job, a cancelled step is reported as CANCELLED in every run exactly if it does not reboot. */
  lemma ReportsCancellationIff(j: Jobs.Job, s: Building.Settings, acts: seq<Action>, k: nat)
    requires ActionsOf(j, s, acts) && k < |acts|
    ensures ReportsCancellation(acts, k) <==> !j.steps[k].reboot
  {
    assert OptionsOfJob(j, s, acts, k);
    HostWitness.ReportsCancellationIff(acts, k);
  }

  /** Of a validated job, a step can be cut short in a pause and reported as FAILED exactly if its retries, or
      without any of its own the job's default, are positive and it is not one that must not run twice. */
  lemma FailedInPauseIff(j: Jobs.Job, s: Building.Settings, acts: seq<Action>, k: nat)
    requires ActionsOf(j, s, acts) && k < |acts|
    ensures (exists h, r, connecting, events :: Outcome(acts, h, r, connecting, events) && FailedInPause(acts, k, h, r))
            <==> var st := j.steps[k];
                 && (if st.retries.Some? then st.retries.value > 0 else j.defaults.retries > 0)
                 && !st.reboot && !st.disconnect && !st.fireAndForget
  {
    assert OptionsOfJob(j, s, acts, k);
    assert Jobs.StepOk(j, k);
    HostWitness.FailedInPauseIff(acts, k);
  }

  /** A host succeeded exactly if every step of the job did. */
  lemma JobSucceeded(
    j: Jobs.Job, s: Building.Settings, acts: seq<Action>, h: HostResult, r: StepsRecord, connecting: seq<Event>,
    events: seq<Event>)
    requires ActionsOf(j, s, acts) && HostRan(acts, h, r, connecting, events)
    ensures |h.steps| == |j.steps|
    ensures h.status == Report.Success <==> forall k :: 0 <= k < |j.steps| ==> h.steps[k].status == Report.Success
  {
    OneResultPerStep(acts, h, r, connecting, events, 0);
    SuccessMeansAllSucceeded(acts, h, r, connecting, events);
  }
}
