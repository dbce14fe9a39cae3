/** From a job and a host's variables to the concrete steps that run on it. */
module Building {
  import opened Options
  import opened Ordering
  import opened Jobs
  import HostSteps
  import Quoting
  import Template

  type Vars = map<string, string>

  datatype Settings = Settings(timeout: int, retryDelay: int)

  const MASK := "[SENSITIVE]"
  const DEFAULT_MODE := "0644"
  const REBOOT_TIMEOUT := 600 * SECOND
  const DISCONNECT_TIMEOUT := 300 * SECOND

  /** A step made concrete: how the runner treats it, what it sends, what it shows, uploads and looks for. */
  datatype Built = Built(
    options: HostSteps.Action, remote: Quoting.Action, display: string, content: Option<string>,
    contains: seq<string>, notContains: seq<string>)

  // Options.

  /** The first positive duration, or 0 if there is none. */
  function FirstPositive(ds: seq<int>): (r: nat)
    ensures r == 0 <==> forall i :: 0 <= i < |ds| ==> ds[i] <= 0
    ensures r > 0 ==> exists i :: 0 <= i < |ds| && ds[i] == r && forall k :: 0 <= k < i ==> ds[k] <= 0
  {
    if ds == [] then 0
    else if ds[0] > 0 then ds[0]
    else
      var r := FirstPositive(ds[1..]);
      assert forall i :: 0 < i < |ds| ==> ds[i] == ds[1..][i - 1];
      assert r > 0 ==> exists i :: 0 <= i < |ds| && ds[i] == r && forall k :: 0 <= k < i ==> ds[k] <= 0 by {
        if r > 0 {
          var i :| 0 <= i < |ds[1..]| && ds[1..][i] == r && forall k :: 0 <= k < i ==> ds[1..][k] <= 0;
          assert ds[i + 1] == r && forall k :: 0 < k < i + 1 ==> ds[k] == ds[1..][k - 1];
        }
      }
      r
  }

  lemma FirstOrDefault(d: int, default: int)
    requires default > 0
    ensures FirstPositive([d, default]) == if d > 0 then d else default
  {
    assert [d, default][1..] == [default];
    assert [default][0] == default;
  }

  /** The options of `build`, where a step's own go before the job's defaults and those before the command line's. */
  method ResolveOptions(d: Defaults, st: Step, s: Settings) returns (a: HostSteps.Action)
    requires DefaultsOk(d) && RetriesOk(st)
    ensures a == OptionsOf(d, st, s)
  {
    var disconnect := st.reboot || st.disconnect;
    var reconnectTimeout: nat := 0;
    if disconnect {
      FirstOrDefault(st.reconnectTimeout, DISCONNECT_TIMEOUT);
      FirstOrDefault(st.reconnectTimeout, REBOOT_TIMEOUT);
      reconnectTimeout := FirstPositive([st.reconnectTimeout, DISCONNECT_TIMEOUT]);
      if st.reboot {
        reconnectTimeout := FirstPositive([st.reconnectTimeout, REBOOT_TIMEOUT]);
      }
    }
    var retries: nat := d.retries;
    if st.retries.Some? {
      retries := st.retries.value;
    }
    if disconnect || st.fireAndForget {
      retries := 0;
    }
    var exitCode := if st.expects.exitCode.Some? then st.expects.exitCode.value else 0;
    return HostSteps.Action(
      exitCode, st.command == "" || st.sensitive, FirstPositive([st.timeout, d.timeout, s.timeout]), retries,
      FirstPositive([st.retryDelay, d.retryDelay, s.retryDelay]), st.continueOnError, st.reboot, disconnect,
      st.fireAndForget, reconnectTimeout);
  }

  function OptionsOf(d: Defaults, st: Step, s: Settings): HostSteps.Action
    requires DefaultsOk(d) && RetriesOk(st)
  {
    var fragile := st.reboot || st.disconnect;
    HostSteps.Action(
      exitCode := if st.expects.exitCode.Some? then st.expects.exitCode.value else 0,
      content := st.command == "" || st.sensitive,
      timeout := FirstPositive([st.timeout, d.timeout, s.timeout]),
      retries := if fragile || st.fireAndForget then 0 else if st.retries.Some? then st.retries.value else d.retries,
      retryDelay := FirstPositive([st.retryDelay, d.retryDelay, s.retryDelay]),
      continueOnError := st.continueOnError,
      reboot := st.reboot,
      disconnect := fragile,
      fireAndForget := st.fireAndForget,
      reconnectTimeout := if !fragile then 0
                          else if st.reconnectTimeout > 0 then st.reconnectTimeout
                          else if st.reboot then REBOOT_TIMEOUT else DISCONNECT_TIMEOUT)
  }

  /** Of a validated job: a step that may lose the connection is never repeated, whatever the defaults say, its
      wait for the host has an end, and what is started without a check comes last and needs no upload. */
  lemma OptionsAreSafe(j: Job, i: nat, s: Settings)
    requires Valid(j) && i < |j.steps|
    ensures DefaultsOk(j.defaults) && RetriesOk(j.steps[i])
    ensures var st, a := j.steps[i], OptionsOf(j.defaults, j.steps[i], s);
            && a.retries <= MAX_RETRIES
            && (st.reboot || st.disconnect || st.fireAndForget ==> a.retries == 0)
            && (a.reboot ==> a.disconnect)
            && (a.disconnect <==> 0 < a.reconnectTimeout) && a.reconnectTimeout <= MAX_TIMEOUT
            && (a.fireAndForget ==> i == |j.steps| - 1 && !a.content && !a.disconnect && a.exitCode == 0)
            && (a.disconnect && a.content ==> st.script != "" || st.sensitive)
  {
    assert StepOk(j, i);
  }

  predicate Fragile(st: Step) {
    st.reboot || st.disconnect
  }

  /** What is set on a step hides the job's default, and that the command line's. */
  lemma FirstOfLevels(a: int, b: int, b': int, c: int, c': int)
    ensures a > 0 ==> FirstPositive([a, b, c]) == FirstPositive([a, b', c']) == a
    ensures a <= 0 && b > 0 ==> FirstPositive([a, b, c]) == FirstPositive([a, b, c']) == b
    ensures a <= 0 && b <= 0 && c > 0 ==> FirstPositive([a, b, c]) == c
  {
    FirstOfThree(a, b, c);
    FirstOfThree(a, b', c');
    FirstOfThree(a, b, c');
  }

  /** For every option: a step's own setting holds whatever the defaults `d` or `e` and the command line say, a job's
      default whatever the command line says; and a fragile step is not retried under any defaults. */
  lemma Precedence(d: Defaults, e: Defaults, st: Step, s: Settings, t: Settings)
    requires DefaultsOk(d) && DefaultsOk(e) && RetriesOk(st)
    ensures var a, b, c := OptionsOf(d, st, s), OptionsOf(e, st, t), OptionsOf(d, st, t);
            && (st.timeout > 0 ==> a.timeout == b.timeout == st.timeout)
            && (st.timeout <= 0 && d.timeout > 0 ==> a.timeout == c.timeout == d.timeout)
            && (st.timeout <= 0 && d.timeout <= 0 && s.timeout > 0 ==> a.timeout == s.timeout)
            && (st.retryDelay > 0 ==> a.retryDelay == b.retryDelay == st.retryDelay)
            && (st.retryDelay <= 0 && d.retryDelay > 0 ==> a.retryDelay == c.retryDelay == d.retryDelay)
            && (st.retryDelay <= 0 && d.retryDelay <= 0 && s.retryDelay > 0 ==> a.retryDelay == s.retryDelay)
            && a.retries == c.retries
            && (st.retries.Some? || Fragile(st) || st.fireAndForget ==> a.retries == b.retries)
            && a.reconnectTimeout == b.reconnectTimeout
            && (Fragile(st) && st.reconnectTimeout > 0 ==> a.reconnectTimeout == st.reconnectTimeout)
  {
    FirstOfLevels(st.timeout, d.timeout, e.timeout, s.timeout, t.timeout);
    FirstOfLevels(st.retryDelay, d.retryDelay, e.retryDelay, s.retryDelay, t.retryDelay);
  }

  lemma FirstOfThree(a: int, b: int, c: int)
    ensures a > 0 ==> FirstPositive([a, b, c]) == a
    ensures a <= 0 && b > 0 ==> FirstPositive([a, b, c]) == b
    ensures a <= 0 && b <= 0 && c > 0 ==> FirstPositive([a, b, c]) == c
  {
    var ds := [a, b, c];
    assert ds[0] == a && ds[1] == b && ds[2] == c;
  }

  // Texts.

  ghost function RenderText(t: string, vars: Vars): Option<string> {
    var ps := Template.Parse(t, 0);
    if ps.Some? && forall n :: n in Template.Names(ps.value) ==> n in vars
    then Some(Template.Fill(ps.value, vars)) else None
  }

  ghost function RenderTexts(ts: seq<string>, vars: Vars): Option<seq<string>> {
    if ts == [] then Some([])
    else
      var front, last := RenderTexts(ts[..|ts| - 1], vars), RenderText(ts[|ts| - 1], vars);
      if front.Some? && last.Some? then Some(front.value + [last.value]) else None
  }

  method Render(t: string, vars: Vars) returns (r: Option<string>)
    ensures r == RenderText(t, vars)
  {
    var out := Template.Render(t, vars);
    r := if out.Rendered? then Some(out.text) else None;
  }

  method RenderAll(ts: seq<string>, vars: Vars) returns (r: Option<seq<string>>)
    ensures r == RenderTexts(ts, vars)
  {
    var out := [];
    for i := 0 to |ts|
      invariant RenderTexts(ts[..i], vars) == Some(out)
    {
      assert ts[..i + 1][..i] == ts[..i];
      var one := Render(ts[i], vars);
      if one.None? {
        NoneStays(ts, vars, i + 1);
        return None;
      }
      out := out + [one.value];
    }
    assert ts[..|ts|] == ts;
    return Some(out);
  }

  lemma {:induction false} NoneStays(ts: seq<string>, vars: Vars, i: nat)
    requires i <= |ts| && RenderTexts(ts[..i], vars).None?
    ensures RenderTexts(ts, vars).None?
    decreases |ts|
  {
    if i < |ts| {
      assert ts[..|ts| - 1][..i] == ts[..i];
      NoneStays(ts[..|ts| - 1], vars, i);
    } else {
      assert ts[..i] == ts;
    }
  }

  // Steps.

  function ModeOf(c: Copy): string {
    if c.mode == "" then DEFAULT_MODE else c.mode
  }

  ghost predicate CommandBuilt(st: Step, vars: Vars, b: Built) {
    && b.remote.kind == Quoting.Command && b.remote.dest == "" && b.remote.mode == ""
    && RenderText(st.command, vars) == Some(b.remote.shell)
    && b.display == (if st.sensitive then MASK else b.remote.shell)
    && b.content == if st.sensitive then Some(b.remote.shell + "\n") else None
  }

  ghost predicate Exported(vars: Vars, body: string, content: string) {
    exists names :: && Ascending(names) && (forall n :: n in names <==> n in vars)
                    && content == Quoting.ExportLines(names, vars) + body
  }

  ghost predicate ScriptBuilt(st: Step, vars: Vars, b: Built) {
    && b.remote.kind == Quoting.Script && b.remote.shell == "" && b.remote.dest == "" && b.remote.mode == ""
    && b.display == (if st.sensitive then MASK else "script " + st.script)
    && b.content.Some? && Exported(vars, st.scriptBody, b.content.value)
  }

  ghost predicate CopyBuilt(st: Step, c: Copy, vars: Vars, b: Built) {
    && b.remote.kind == Quoting.Copy && b.remote.shell == "" && b.remote.mode == ModeOf(c)
    && RenderText(c.dest, vars) == Some(b.remote.dest)
    && b.display == (if st.sensitive then MASK else CopyText(c.src, b.remote.dest, ModeOf(c)))
    && b.content.Some? && (if c.template then RenderText(c.body, vars) == b.content else b.content == Some(c.body))
  }

  function CopyText(src: string, dest: string, mode: string): string {
    "copy " + src + " -> " + dest + " (mode " + mode + ")"
  }

  ghost predicate IsBuilt(d: Defaults, st: Step, vars: Vars, s: Settings, b: Built)
    requires DefaultsOk(d) && RetriesOk(st) && OneKind(st)
  {
    && b.options == OptionsOf(d, st, s)
    && RenderTexts(st.expects.contains, vars) == Some(b.contains)
    && RenderTexts(st.expects.notContains, vars) == Some(b.notContains)
    && b.remote.sudo == (if st.sudo.Some? then st.sudo.value else d.sudo)
    && b.remote.content == b.content.Some? == b.options.content
    && b.remote.fireAndForget == st.fireAndForget
    && if st.command != "" then CommandBuilt(st, vars, b)
       else if st.script != "" then ScriptBuilt(st, vars, b)
       else CopyBuilt(st, st.copy.value, vars, b)
  }

  /** Every text of the step can be rendered. */
  ghost predicate Renders(st: Step, vars: Vars)
    requires OneKind(st)
  {
    && RenderTexts(st.expects.contains, vars).Some?
    && RenderTexts(st.expects.notContains, vars).Some?
    && PartRenders(st, vars)
  }

  ghost predicate PartRenders(st: Step, vars: Vars) {
    && (st.command != "" ==> RenderText(st.command, vars).Some?)
    && (st.copy.Some? ==> RenderText(st.copy.value.dest, vars).Some?)
    && (st.copy.Some? && st.copy.value.template ==> RenderText(st.copy.value.body, vars).Some?)
  }

  method BuildStep(d: Defaults, st: Step, vars: Vars, s: Settings) returns (r: Option<Built>)
    requires DefaultsOk(d) && RetriesOk(st) && OneKind(st)
    ensures r.Some? <==> Renders(st, vars)
    ensures r.Some? ==> IsBuilt(d, st, vars, s, r.value)
  {
    r := None;
    var contains := RenderAll(st.expects.contains, vars);
    var notContains := RenderAll(st.expects.notContains, vars);
    if contains.Some? && notContains.Some? {
      var part := BuildPart(st, vars);
      if part.Some? {
        var built := Finish(d, st, s, part.value, contains.value, notContains.value, vars);
        r := Some(built);
      }
    }
  }

  method Finish(
    d: Defaults, st: Step, s: Settings, p: Part, contains: seq<string>, notContains: seq<string>, ghost vars: Vars)
    returns (b: Built)
    requires DefaultsOk(d) && RetriesOk(st) && OneKind(st) && IsPart(st, vars, p)
    requires RenderTexts(st.expects.contains, vars) == Some(contains)
    requires RenderTexts(st.expects.notContains, vars) == Some(notContains)
    ensures IsBuilt(d, st, vars, s, b)
  {
    var options := ResolveOptions(d, st, s);
    var sudo := if st.sudo.Some? then st.sudo.value else d.sudo;
    var display, content := p.display, p.content;
    if st.sensitive {
      display := MASK;
      if p.kind == Quoting.Command {
        content := Some(p.shell + "\n");
      }
    }
    var remote := Quoting.Action(p.kind, content.Some?, p.shell, p.dest, p.mode, sudo, st.fireAndForget);
    b := Built(options, remote, display, content, contains, notContains);
  }

  /** What depends on the kind of the step, before anything is hidden. */
  datatype Part = Part(
    kind: Quoting.Kind, shell: string, dest: string, mode: string, display: string, content: Option<string>)

  ghost predicate IsPart(st: Step, vars: Vars, p: Part)
    requires OneKind(st)
  {
    if st.command != "" then
      && p.kind == Quoting.Command && p.dest == "" && p.mode == ""
      && RenderText(st.command, vars) == Some(p.shell) && p.display == p.shell && p.content.None?
    else if st.script != "" then
      && p.kind == Quoting.Script && p.shell == "" && p.dest == "" && p.mode == ""
      && p.display == "script " + st.script
      && p.content.Some? && Exported(vars, st.scriptBody, p.content.value)
    else
      var c := st.copy.value;
      && p.kind == Quoting.Copy && p.shell == "" && p.mode == ModeOf(c)
      && RenderText(c.dest, vars) == Some(p.dest) && p.display == CopyText(c.src, p.dest, ModeOf(c))
      && p.content.Some? && p.content == if c.template then RenderText(c.body, vars) else Some(c.body)
  }

  method BuildPart(st: Step, vars: Vars) returns (r: Option<Part>)
    requires OneKind(st)
    ensures r.Some? ==> IsPart(st, vars, r.value)
    ensures r.Some? <==> PartRenders(st, vars)
  {
    if st.command != "" {
      var rendered := Render(st.command, vars);
      if rendered.None? {
        return None;
      }
      return Some(Part(Quoting.Command, rendered.value, "", "", rendered.value, None));
    } else if st.script != "" {
      var exported := ScriptContent(vars, st.scriptBody);
      return Some(Part(Quoting.Script, "", "", "", "script " + st.script, Some(exported)));
    } else {
      r := BuildCopy(st.copy.value, vars);
    }
  }

  method BuildCopy(c: Copy, vars: Vars) returns (r: Option<Part>)
    ensures r.None? <==> RenderText(c.dest, vars).None? || (c.template && RenderText(c.body, vars).None?)
    ensures r.Some? ==>
              && r.value.kind == Quoting.Copy && r.value.shell == "" && r.value.mode == ModeOf(c)
              && RenderText(c.dest, vars) == Some(r.value.dest)
              && r.value.display == CopyText(c.src, r.value.dest, ModeOf(c))
              && r.value.content.Some?
              && r.value.content == if c.template then RenderText(c.body, vars) else Some(c.body)
  {
    var dest := Render(c.dest, vars);
    if dest.None? {
      return None;
    }
    var content := CopyContent(c, vars);
    if content.None? {
      return None;
    }
    var mode := ModeOf(c);
    return Some(Part(Quoting.Copy, "", dest.value, mode, CopyText(c.src, dest.value, mode), content));
  }

  method CopyContent(c: Copy, vars: Vars) returns (content: Option<string>)
    ensures if c.template then content == RenderText(c.body, vars) else content == Some(c.body)
  {
    content := Some(c.body);
    if c.template {
      content := Render(c.body, vars);
    }
  }

  method ScriptContent(vars: Vars, body: string) returns (content: string)
    ensures Exported(vars, body, content)
  {
    var text, names := Quoting.Exports(vars);
    content := text + body;
  }

  ghost predicate StepBuilt(j: Job, vars: Vars, s: Settings, i: nat, b: Built)
    requires i < |j.steps|
  {
    && DefaultsOk(j.defaults) && RetriesOk(j.steps[i]) && OneKind(j.steps[i])
    && IsBuilt(j.defaults, j.steps[i], vars, s, b)
  }

  ghost predicate StepRenders(j: Job, vars: Vars, i: nat)
    requires i < |j.steps|
  {
    OneKind(j.steps[i]) && Renders(j.steps[i], vars)
  }

  /** `Build`: one concrete step for each step of the job, or a template error. */
  method Build(j: Job, vars: Vars, s: Settings) returns (r: Option<seq<Built>>)
    requires Valid(j)
    ensures r.Some? <==> forall i :: 0 <= i < |j.steps| ==> StepRenders(j, vars, i)
    ensures r.Some? ==> |r.value| == |j.steps| && forall i :: 0 <= i < |j.steps| ==> StepBuilt(j, vars, s, i, r.value[i])
  {
    var out := [];
    for i := 0 to |j.steps|
      invariant |out| == i
      invariant forall k :: 0 <= k < i ==> StepRenders(j, vars, k) && StepBuilt(j, vars, s, k, out[k])
    {
      assert StepOk(j, i);
      var b := BuildStep(j.defaults, j.steps[i], vars, s);
      if b.None? {
        assert !StepRenders(j, vars, i);
        return None;
      }
      out := out + [b.value];
    }
    return Some(out);
  }

  // What a template error can be.

  ghost predicate Refers(st: Step, n: string) {
    || (exists t :: t in Texts(st) && RefersIn(t, n))
    || (st.copy.Some? && st.copy.value.template && RefersIn(st.copy.value.body, n))
  }

  ghost predicate RefersIn(t: string, n: string) {
    Template.Parse(t, 0).Some? && n in Template.Names(Template.Parse(t, 0).value)
  }

  lemma {:induction false} TextsRender(ts: seq<string>, vars: Vars)
    ensures RenderTexts(ts, vars).Some? <==> forall t :: t in ts ==> RenderText(t, vars).Some?
  {
    if ts != [] {
      TextsRender(ts[..|ts| - 1], vars);
      assert ts == ts[..|ts| - 1] + [ts[|ts| - 1]];
    }
  }

  lemma TextRenders(vs: Variables, t: string, allowed: bool, vars: Vars)
    requires RefsOk(vs, t, allowed)
    ensures RenderText(t, vars).Some? <==> forall n :: RefersIn(t, n) ==> n in vars
  {
    var names := Template.Names(Template.Parse(t, 0).value);
    assert forall n :: n in names <==> RefersIn(t, n);
  }

  /** Of a validated job, a step can be built exactly if every variable it refers to has a value. */
  lemma MissingVariablesOnly(j: Job, vars: Vars, i: nat)
    requires Valid(j) && i < |j.steps|
    ensures StepRenders(j, vars, i) <==> forall n :: Refers(j.steps[i], n) ==> n in vars
  {
    var st := j.steps[i];
    assert StepOk(j, i) && BodyOk(j.variables, st);
    forall t | t in Texts(st)
      ensures RenderText(t, vars).Some? <==> forall n :: RefersIn(t, n) ==> n in vars
    {
      TextRenders(j.variables, t, st.sensitive, vars);
    }
    if st.copy.Some? && st.copy.value.template {
      TextRenders(j.variables, st.copy.value.body, true, vars);
    }
    AllTextsRender(st, vars);
  }

  /** Whether a step renders is decided by its texts; an empty command renders to itself. */
  lemma AllTextsRender(st: Step, vars: Vars)
    requires OneKind(st)
    ensures Renders(st, vars) <==>
            && (forall t :: t in Texts(st) ==> RenderText(t, vars).Some?)
            && (st.copy.Some? && st.copy.value.template ==> RenderText(st.copy.value.body, vars).Some?)
  {
    TextsRender(st.expects.contains, vars);
    TextsRender(st.expects.notContains, vars);
    assert Template.Parse("", 0) == Some([]);
    assert RenderText("", vars).Some?;
    forall t
      ensures t in Texts(st) <==>
              || t == st.command || t in st.expects.contains || t in st.expects.notContains
              || (st.copy.Some? && t == st.copy.value.dest)
    {
    }
  }

  // Secrets.

  /** The two maps give the variables that are declared and not sensitive the same values. */
  ghost predicate Agree(vs: Variables, v: Vars, w: Vars) {
    forall n :: n in vs && !vs[n].sensitive ==> (n in v <==> n in w) && (n in v ==> v[n] == w[n])
  }

  lemma {:induction false} FillAgrees(ps: seq<Template.Piece>, v: Vars, w: Vars)
    requires forall n :: n in Template.Names(ps) ==> n in v && n in w && v[n] == w[n]
    ensures Template.Fill(ps, v) == Template.Fill(ps, w)
  {
    if ps != [] {
      assert forall n :: n in Template.Names(ps[1..]) ==> n in Template.Names(ps);
      FillAgrees(ps[1..], v, w);
      assert ps[0].Var? ==> ps[0].name in Template.Names(ps);
    }
  }

  lemma SameText(vs: Variables, t: string, v: Vars, w: Vars)
    requires RefsOk(vs, t, false) && Agree(vs, v, w)
    ensures RenderText(t, v) == RenderText(t, w)
  {
    var ps := Template.Parse(t, 0).value;
    if (forall n :: n in Template.Names(ps) ==> n in v) && (forall n :: n in Template.Names(ps) ==> n in w) {
      FillAgrees(ps, v, w);
    }
  }

  lemma {:induction false} SameTexts(vs: Variables, ts: seq<string>, v: Vars, w: Vars)
    requires (forall t :: t in ts ==> RefsOk(vs, t, false)) && Agree(vs, v, w)
    ensures RenderTexts(ts, v) == RenderTexts(ts, w)
  {
    if ts != [] {
      SameTexts(vs, ts[..|ts| - 1], v, w);
      SameText(vs, ts[|ts| - 1], v, w);
    }
  }

  /** A step that is not marked sensitive does not depend on sensitive variables, but for what it uploads. */
  lemma PlainStepsHoldNoSecret(j: Job, v: Vars, w: Vars, s: Settings, i: nat, b: Built, c: Built)
    requires Valid(j) && i < |j.steps| && !j.steps[i].sensitive && Agree(j.variables, v, w)
    requires StepBuilt(j, v, s, i, b) && StepBuilt(j, w, s, i, c)
    ensures c == b.(content := c.content)
  {
    var st := j.steps[i];
    assert StepOk(j, i);
    assert forall t :: t in st.expects.contains || t in st.expects.notContains ==> t in Texts(st);
    SameTexts(j.variables, st.expects.contains, v, w);
    SameTexts(j.variables, st.expects.notContains, v, w);
    assert st.command in Texts(st);
    SameText(j.variables, st.command, v, w);
    if st.copy.Some? {
      assert st.copy.value.dest in Texts(st);
      SameText(j.variables, st.copy.value.dest, v, w);
    }
  }

  /** What reports show of a step never depends on a sensitive variable. */
  lemma DisplayHoldsNoSecret(j: Job, v: Vars, w: Vars, s: Settings, i: nat, b: Built, c: Built)
    requires Valid(j) && i < |j.steps| && Agree(j.variables, v, w)
    requires StepBuilt(j, v, s, i, b) && StepBuilt(j, w, s, i, c)
    ensures b.display == c.display
  {
    if !j.steps[i].sensitive {
      PlainStepsHoldNoSecret(j, v, w, s, i, b, c);
    }
  }

  /** The step is a copy whose destination refers to a sensitive variable, as a sensitive step may. */
  ghost predicate SecretInDestination(j: Job, i: nat)
    requires i < |j.steps|
  {
    var st := j.steps[i];
    st.copy.Some? && exists n :: RefersIn(st.copy.value.dest, n) && n in j.variables && j.variables[n].sensitive
  }

  /** The command line sent for the step, which a remote process list shows, is the same for any values of the
      sensitive variables. */
  ghost predicate LineHoldsNoSecret(j: Job, s: Settings, i: nat)
    requires i < |j.steps|
  {
    forall v, w, b, c, tmp, password ::
      Agree(j.variables, v, w) && StepBuilt(j, v, s, i, b) && StepBuilt(j, w, s, i, c)
      ==> Quoting.Remote(b.remote, tmp, password) == Quoting.Remote(c.remote, tmp, password)
  }

  lemma SameLine(j: Job, v: Vars, w: Vars, s: Settings, i: nat, b: Built, c: Built, tmp: string, password: bool)
    requires Valid(j) && i < |j.steps| && Agree(j.variables, v, w) && !SecretInDestination(j, i)
    requires StepBuilt(j, v, s, i, b) && StepBuilt(j, w, s, i, c)
    ensures Quoting.Remote(b.remote, tmp, password) == Quoting.Remote(c.remote, tmp, password)
  {
    if !j.steps[i].sensitive {
      PlainStepsHoldNoSecret(j, v, w, s, i, b, c);
    } else if j.steps[i].copy.Some? {
      SameDestination(j, v, w, i);
      assert b.remote == c.remote;
    } else {
      SameUploaded(b.remote, c.remote, tmp, password);
    }
  }

  /** What is uploaded does not stand in the line. */
  lemma SameUploaded(a: Quoting.Action, b: Quoting.Action, tmp: string, password: bool)
    requires a.kind == Quoting.Script || (a.kind == Quoting.Command && a.content)
    requires b == a.(shell := b.shell)
    ensures Quoting.Remote(a, tmp, password) == Quoting.Remote(b, tmp, password)
  {
  }

  lemma SameDestination(j: Job, v: Vars, w: Vars, i: nat)
    requires Valid(j) && i < |j.steps| && Agree(j.variables, v, w) && !SecretInDestination(j, i)
    requires j.steps[i].copy.Some?
    ensures RenderText(j.steps[i].copy.value.dest, v) == RenderText(j.steps[i].copy.value.dest, w)
  {
    var dest := j.steps[i].copy.value.dest;
    assert StepOk(j, i) && dest in Texts(j.steps[i]);
    forall n | n in Template.Names(Template.Parse(dest, 0).value)
      ensures n in j.variables && !j.variables[n].sensitive
    {
      assert RefersIn(dest, n);
    }
    SameText(j.variables, dest, v, w);
  }

  /** Nothing anywhere, and the same with one value set. */
  function Blank(vs: Variables): Vars {
    map n | n in vs :: ""
  }

  lemma {:induction false} FillGrows(ps: seq<Template.Piece>, v: Vars, n: string)
    requires forall m :: m in Template.Names(ps) ==> m in v
    requires n in v && v[n] == ""
    ensures forall m :: m in Template.Names(ps) ==> m in v[n := "x"]
    ensures |Template.Fill(ps, v[n := "x"])| >= |Template.Fill(ps, v)|
    ensures n in Template.Names(ps) ==> |Template.Fill(ps, v[n := "x"])| > |Template.Fill(ps, v)|
  {
    if ps != [] {
      assert forall m :: m in Template.Names(ps[1..]) ==> m in Template.Names(ps);
      FillGrows(ps[1..], v, n);
      assert ps[0].Var? ==> ps[0].name in Template.Names(ps);
    }
  }

  /** Any step of a validated job can be built from values for all declared variables. */
  lemma CopyBuilds(j: Job, vars: Vars, s: Settings, i: nat) returns (b: Built)
    requires Valid(j) && i < |j.steps| && j.steps[i].copy.Some? && j.variables.Keys <= vars.Keys
    ensures StepBuilt(j, vars, s, i, b)
  {
    var st, c := j.steps[i], j.steps[i].copy.value;
    assert StepOk(j, i) && BodyOk(j.variables, st);
    DeclaredAreReferred(j, i);
    MissingVariablesOnly(j, vars, i);
    OptionsAreSafe(j, i, s);
    var dest := RenderText(c.dest, vars).value;
    var content := if c.template then RenderText(c.body, vars) else Some(c.body);
    var sudo := if st.sudo.Some? then st.sudo.value else j.defaults.sudo;
    b := Built(OptionsOf(j.defaults, st, s), Quoting.Action(Quoting.Copy, true, "", dest, ModeOf(c), sudo, st.fireAndForget),
               if st.sensitive then MASK else CopyText(c.src, dest, ModeOf(c)), content,
               RenderTexts(st.expects.contains, vars).value, RenderTexts(st.expects.notContains, vars).value);
  }

  lemma DeclaredAreReferred(j: Job, i: nat)
    requires Valid(j) && i < |j.steps|
    ensures forall n :: Refers(j.steps[i], n) ==> n in j.variables
  {
    assert StepOk(j, i) && BodyOk(j.variables, j.steps[i]);
  }

  /** The values that tell: two builds of the step whose lines differ. */
  lemma DestinationTells(j: Job, s: Settings, i: nat, n: string) returns (v: Vars, w: Vars, b: Built, c: Built)
    requires Valid(j) && i < |j.steps| && j.steps[i].copy.Some? && RefersIn(j.steps[i].copy.value.dest, n)
    requires n in j.variables && j.variables[n].sensitive
    ensures Agree(j.variables, v, w) && StepBuilt(j, v, s, i, b) && StepBuilt(j, w, s, i, c)
    ensures b.remote.dest != c.remote.dest && c.remote == b.remote.(dest := c.remote.dest)
    ensures b.remote.kind == Quoting.Copy && !b.remote.fireAndForget
  {
    var dest := j.steps[i].copy.value.dest;
    v := Blank(j.variables);
    w := v[n := "x"];
    b := CopyBuilds(j, v, s, i);
    c := CopyBuilds(j, w, s, i);
    assert StepOk(j, i) && dest in Texts(j.steps[i]);
    FillGrows(Template.Parse(dest, 0).value, v, n);
  }

  /** The line keeps every sensitive value to itself exactly if the step is no copy with one in its destination. */
  lemma LineHoldsNoSecretIff(j: Job, s: Settings, i: nat)
    requires Valid(j) && i < |j.steps|
    ensures LineHoldsNoSecret(j, s, i) <==> !SecretInDestination(j, i)
  {
    if SecretInDestination(j, i) {
      var n :| RefersIn(j.steps[i].copy.value.dest, n) && n in j.variables && j.variables[n].sensitive;
      var v, w, b, c := DestinationTells(j, s, i, n);
      if Quoting.Remote(b.remote, "", false) == Quoting.Remote(c.remote, "", false) {
        Quoting.CopyLineTells(b.remote, c.remote, "", false);
      }
    } else {
      forall v, w, b, c, tmp, password
        | Agree(j.variables, v, w) && StepBuilt(j, v, s, i, b) && StepBuilt(j, w, s, i, c)
        ensures Quoting.Remote(b.remote, tmp, password) == Quoting.Remote(c.remote, tmp, password)
      {
        SameLine(j, v, w, s, i, b, c, tmp, password);
      }
    }
  }
}
