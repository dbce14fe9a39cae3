/** Job files: what a job may say. */
module Jobs {
  import opened Extremes
  import opened Limits
  import opened Options
  import Inventory
  import Template

  datatype Variable = Variable(required: bool, default: Option<string>, sensitive: bool)

  datatype Defaults = Defaults(timeout: int, retries: int, retryDelay: int, sudo: bool)

  /** `compiles` tells whether the regular expression is one, `emptyList` whether a list of patterns was written out
      with nothing in it. */
  datatype Expect = Expect(
    exitCode: Option<int>, contains: seq<string>, notContains: seq<string>, regex: string, compiles: bool, emptyList: bool)
  {
    predicate Empty() {
      exitCode.None? && contains == [] && notContains == [] && !emptyList && regex == ""
    }
  }

  /** A file to upload; `body` is its content. */
  datatype Copy = Copy(src: string, dest: string, mode: string, template: bool, body: string)

  datatype Step = Step(
    name: string, command: string, script: string, scriptBody: string, copy: Option<Copy>, sudo: Option<bool>,
    expects: Expect, timeout: int, retries: Option<int>, retryDelay: int, continueOnError: bool, sensitive: bool,
    reboot: bool, disconnect: bool, reconnectTimeout: int, fireAndForget: bool)

  type Variables = map<string, Variable>

  /** `maxFailures` is None if it is absent or no number. */
  datatype Job = Job(
    name: string, maxFailures: Option<Limit>, variables: Variables, defaults: Defaults, steps: seq<Step>)

  const SECOND := 1_000_000_000
  const MAX_TIMEOUT := 24 * 3600 * SECOND
  const MAX_RETRIES := 10
  const MAX_REGEX := 1024

  // The rules.

  predicate NameOk(n: string) {
    && 1 <= |n| <= 128
    && Inventory.NameChar(n[0])
    && forall i :: 0 < i < |n| ==> Inventory.NameChar(n[i]) || n[i] == '.' || n[i] == '_' || n[i] == '-'
  }

  predicate VariableNameOk(n: string) {
    1 <= |n| <= 64 && Template.NameStart(n[0]) && forall i :: 0 < i < |n| ==> Template.NameChar(n[i])
  }

  predicate Octal(s: string) {
    forall i :: 0 <= i < |s| ==> '0' <= s[i] <= '7'
  }

  predicate ModeOk(m: string) {
    (|m| == 3 && Octal(m)) || (|m| == 4 && m[0] == '0' && Octal(m[1..]))
  }

  predicate VariableOk(n: string, v: Variable) {
    && VariableNameOk(n)
    && !(v.sensitive && v.default.Some?)
    && (v.default.Some? ==> Inventory.ValueOk(v.default.value))
  }

  predicate VariablesOk(vs: Variables) {
    forall n :: n in vs ==> VariableOk(n, vs[n])
  }

  predicate LimitOk(l: Option<Limit>) {
    l.Some? && Allowed(l.value, 1).Some?
  }

  predicate DefaultsOk(d: Defaults) {
    0 <= d.timeout <= MAX_TIMEOUT && d.retryDelay >= 0 && 0 <= d.retries <= MAX_RETRIES
  }

  predicate OneKind(s: Step) {
    var c, r, p := s.command != "", s.script != "", s.copy.Some?;
    (c && !r && !p) || (!c && r && !p) || (!c && !r && p)
  }

  predicate CopyOk(c: Copy) {
    && c.src != "" && c.dest != "" && c.dest[0] == '/'
    && Inventory.ValueOk(c.dest)
    && (c.mode != "" ==> ModeOk(c.mode))
  }

  predicate TimesOk(s: Step) {
    && 0 <= s.timeout <= MAX_TIMEOUT && s.retryDelay >= 0
    && 0 <= s.reconnectTimeout <= MAX_TIMEOUT
    && (s.reconnectTimeout > 0 ==> s.reboot || s.disconnect)
  }

  /** A command that may take the connection down must not run twice. */
  predicate RetriesOk(s: Step) {
    && (s.retries.Some? ==> 0 <= s.retries.value <= MAX_RETRIES)
    && (s.reboot || s.disconnect ==> s.copy.None? && (s.retries.Some? ==> s.retries.value == 0))
  }

  predicate FireAndForgetOk(s: Step, last: bool) {
    s.fireAndForget ==>
      s.command != "" && last && !s.reboot && !s.disconnect && s.retries.None? && !s.sensitive && s.expects.Empty()
  }

  predicate Opens(s: string) {
    exists i :: 0 <= i < |s| && Template.OpenAt(s, i)
  }

  predicate ExpectOk(e: Expect) {
    && (e.exitCode.Some? ==> 0 <= e.exitCode.value <= 255)
    && |e.regex| <= MAX_REGEX && e.compiles && !Opens(e.regex)
    && "" !in e.contains && "" !in e.notContains
  }

  predicate Permitted(vs: Variables, name: string, allowSensitive: bool) {
    name in vs && (vs[name].sensitive ==> allowSensitive)
  }

  /** Only declared variables, and sensitive ones only where nothing is printed. */
  ghost predicate RefsOk(vs: Variables, text: string, allowSensitive: bool) {
    Template.Parse(text, 0).Some?
    && forall n :: n in Template.Names(Template.Parse(text, 0).value) ==> Permitted(vs, n, allowSensitive)
  }

  function Texts(s: Step): seq<string> {
    [s.command] + s.expects.contains + s.expects.notContains + if s.copy.Some? then [s.copy.value.dest] else []
  }

  ghost predicate TextsOk(vs: Variables, s: Step) {
    forall t :: t in Texts(s) ==> RefsOk(vs, t, s.sensitive)
  }

  /** The rules for one step that need no look at its texts. */
  predicate Plausible(s: Step, last: bool) {
    && NameOk(s.name) && OneKind(s)
    && (s.copy.Some? ==> CopyOk(s.copy.value))
    && TimesOk(s) && RetriesOk(s) && FireAndForgetOk(s, last) && ExpectOk(s.expects)
  }

  ghost predicate BodyOk(vs: Variables, s: Step) {
    s.script == "" && s.copy.Some? && s.copy.value.template ==> RefsOk(vs, s.copy.value.body, true)
  }

  ghost predicate StepOk(j: Job, i: nat)
    requires i < |j.steps|
  {
    Plausible(j.steps[i], i == |j.steps| - 1) && TextsOk(j.variables, j.steps[i])
  }

  predicate Distinct(steps: seq<Step>) {
    forall i, k :: 0 <= i < k < |steps| ==> steps[i].name != steps[k].name
  }

  /** The job passes `Validate`, and its files pass what `Load` checks of them. */
  ghost predicate Valid(j: Job) {
    && NameOk(j.name) && LimitOk(j.maxFailures) && DefaultsOk(j.defaults) && VariablesOk(j.variables)
    && j.steps != [] && Distinct(j.steps)
    && (forall i :: 0 <= i < |j.steps| ==> StepOk(j, i))
    && (forall i :: 0 <= i < |j.steps| ==> BodyOk(j.variables, j.steps[i]))
  }

  // The checks.

  method CheckRefs(vs: Variables, text: string, allowSensitive: bool) returns (ok: bool)
    ensures ok <==> RefsOk(vs, text, allowSensitive)
  {
    var refs := Template.References(text);
    if refs.None? {
      return false;
    }
    var names := refs.value;
    ok := true;
    for i := 0 to |names|
      invariant ok <==> forall k :: 0 <= k < i ==> Permitted(vs, names[k], allowSensitive)
    {
      ok := ok && Permitted(vs, names[i], allowSensitive);
    }
    assert (forall n :: n in names ==> Permitted(vs, n, allowSensitive))
           <==> forall k :: 0 <= k < |names| ==> Permitted(vs, names[k], allowSensitive);
  }

  method CheckTexts(vs: Variables, s: Step) returns (ok: bool)
    ensures ok <==> TextsOk(vs, s)
  {
    var texts := Texts(s);
    ok := true;
    for i := 0 to |texts|
      invariant ok <==> forall t :: t in texts[..i] ==> RefsOk(vs, t, s.sensitive)
    {
      assert texts[..i + 1] == texts[..i] + [texts[i]];
      var good := CheckRefs(vs, texts[i], s.sensitive);
      ok := ok && good;
    }
    assert texts[..|texts|] == texts;
  }

  method CheckVariables(vs: Variables) returns (ok: bool)
    ensures ok <==> VariablesOk(vs)
  {
    ok := true;
    var left := vs.Keys;
    while left != {}
      invariant left <= vs.Keys
      invariant ok <==> forall n :: n in vs && n !in left ==> VariableOk(n, vs[n])
    {
      var n :| n in left;
      left := left - {n};
      ok := ok && VariableOk(n, vs[n]);
    }
  }

  method CheckSteps(j: Job) returns (ok: bool)
    ensures ok <==> Distinct(j.steps) && forall i :: 0 <= i < |j.steps| ==> StepOk(j, i)
  {
    ok := true;
    var seen: set<string> := {};
    for i := 0 to |j.steps|
      invariant seen == set k | 0 <= k < i :: j.steps[k].name
      invariant ok <==> Distinct(j.steps[..i]) && forall k :: 0 <= k < i ==> StepOk(j, k)
    {
      var s := j.steps[i];
      var texts := CheckTexts(j.variables, s);
      assert Distinct(j.steps[..i + 1]) <==> Distinct(j.steps[..i]) && s.name !in seen;
      var plausible := Plausible(s, i == |j.steps| - 1);
      assert StepOk(j, i) <==> plausible && texts;
      ok := ok && s.name !in seen && plausible && texts;
      seen := seen + {s.name};
    }
    assert j.steps[..|j.steps|] == j.steps;
  }

  method CheckBodies(j: Job) returns (ok: bool)
    ensures ok <==> forall i :: 0 <= i < |j.steps| ==> BodyOk(j.variables, j.steps[i])
  {
    ok := true;
    for i := 0 to |j.steps|
      invariant ok <==> forall k :: 0 <= k < i ==> BodyOk(j.variables, j.steps[k])
    {
      var s := j.steps[i];
      if s.script == "" && s.copy.Some? && s.copy.value.template {
        var good := CheckRefs(j.variables, s.copy.value.body, true);
        ok := ok && good;
      }
    }
  }

  /** `Validate` and then `Load`: a job is taken exactly if it meets every rule. */
  method Check(j: Job) returns (ok: bool)
    ensures ok <==> Valid(j)
  {
    var variables := CheckVariables(j.variables);
    var steps := CheckSteps(j);
    var bodies := CheckBodies(j);
    return NameOk(j.name) && LimitOk(j.maxFailures) && DefaultsOk(j.defaults) && variables && j.steps != [] && steps && bodies;
  }

  /** The limit of an accepted job is accepted for any number of hosts. It is one, that is at least 1, exactly unless
      it is a number of hosts of 2^63 or more. */
  lemma LimitHoldsForAnyRun(j: Job, total: nat)
    requires Valid(j)
    ensures Allowed(j.maxFailures.value, total).Some?
    ensures Allowed(j.maxFailures.value, total).value >= 1
            <==> !(j.maxFailures.value.Hosts? && j.maxFailures.value.n >= TWO_63 as real)
  {
    if j.maxFailures.value.Hosts? {
      HostsLimitIff(j.maxFailures.value.n.Floor, total);
    }
  }
}
