/** Where a host's variables come from: the job's defaults, the inventory, the command line, the environment. */
module VariableSources {
  import opened Options
  import opened Jobs
  import opened Ordering
  import Building
  import Inventory
  import Quoting
  import Template

  type Vars = map<string, string>

  /** `jobEnv` names an environment variable for each job variable; `env` is the environment it is looked up in. */
  datatype Inputs = Inputs(host: Vars, job: Vars, jobEnv: map<string, string>, env: Vars)

  function DefaultsOf(vs: Variables): Vars {
    map n | n in vs && vs[n].default.Some? :: vs[n].default.value
  }

  function FromEnv(ins: Inputs): Vars {
    map k | k in ins.jobEnv && ins.jobEnv[k] in ins.env :: ins.env[ins.jobEnv[k]]
  }

  /** The environment goes before the command line's literals, those before the inventory, and that before the defaults. */
  function Merged(vs: Variables, ins: Inputs): Vars {
    DefaultsOf(vs) + ins.host + ins.job + FromEnv(ins)
  }

  predicate EnvOk(ins: Inputs) {
    forall k :: k in ins.jobEnv ==> ins.jobEnv[k] in ins.env
  }

  predicate ValueSet(vars: Vars, n: string) {
    n in vars && vars[n] != ""
  }

  predicate DeclarationOk(v: Variable, n: string, ins: Inputs, vars: Vars) {
    && (v.sensitive ==> n !in ins.job && n !in ins.host)
    && (v.required ==> ValueSet(vars, n))
  }

  predicate DeclarationsOk(vs: Variables, ins: Inputs, vars: Vars) {
    forall n :: n in vs ==> DeclarationOk(vs[n], n, ins, vars)
  }

  predicate Acceptable(vs: Variables, ins: Inputs) {
    EnvOk(ins) && Inventory.ValuesOk(Merged(vs, ins)) && DeclarationsOk(vs, ins, Merged(vs, ins))
  }

  ghost predicate IsSecret(vs: Variables, ins: Inputs, x: string) {
    || (exists k :: k in FromEnv(ins) && FromEnv(ins)[k] == x)
    || (exists n :: n in vs && SensitiveValue(vs, Merged(vs, ins), n, x))
  }

  predicate SensitiveValue(vs: Variables, vars: Vars, n: string, x: string)
    requires n in vs
  {
    vs[n].sensitive && ValueSet(vars, n) && vars[n] == x
  }

  // The loops. Each takes the entries of a map in whatever order they come.

  method AddDefaults(vs: Variables) returns (vars: Vars)
    ensures vars == DefaultsOf(vs)
  {
    vars := map[];
    var left := vs.Keys;
    while left != {}
      invariant left <= vs.Keys
      invariant vars == map n | n in vs && n !in left && vs[n].default.Some? :: vs[n].default.value
    {
      var n :| n in left;
      left := left - {n};
      if vs[n].default.Some? {
        vars := vars[n := vs[n].default.value];
      }
    }
  }

  method Override(base: Vars, over: Vars) returns (vars: Vars)
    ensures vars == base + over
  {
    vars := base;
    var left := over.Keys;
    while left != {}
      invariant left <= over.Keys
      invariant vars.Keys == base.Keys + (over.Keys - left)
      invariant forall k :: k in vars ==> vars[k] == if k in over && k !in left then over[k] else base[k]
    {
      var k :| k in left;
      left := left - {k};
      vars := vars[k := over[k]];
    }
  }

  ghost predicate SomeFromEnv(ins: Inputs, done: set<string>, x: string) {
    exists k :: k in done && k in FromEnv(ins) && FromEnv(ins)[k] == x
  }

  /** What the names in `done` get from the environment. */
  ghost function EnvPart(ins: Inputs, done: set<string>): Vars {
    map k | k in done && k in FromEnv(ins) :: FromEnv(ins)[k]
  }

  lemma EnvPartGrows(base: Vars, ins: Inputs, done: set<string>, k: string)
    requires k in ins.jobEnv
    ensures base + EnvPart(ins, done + {k}) ==
            if k in FromEnv(ins) then (base + EnvPart(ins, done))[k := FromEnv(ins)[k]] else base + EnvPart(ins, done)
  {
  }

  method AddEnv(base: Vars, ins: Inputs) returns (ok: bool, vars: Vars, secrets: seq<string>)
    ensures ok <==> EnvOk(ins)
    ensures vars == base + FromEnv(ins)
    ensures forall x :: x in secrets <==> SomeFromEnv(ins, ins.jobEnv.Keys, x)
  {
    ok, vars, secrets := true, base, [];
    var left := ins.jobEnv.Keys;
    ghost var done: set<string> := {};
    while left != {}
      invariant left <= ins.jobEnv.Keys && done == ins.jobEnv.Keys - left
      invariant ok <==> forall k :: k in done ==> ins.jobEnv[k] in ins.env
      invariant vars == base + EnvPart(ins, done)
      invariant forall x :: x in secrets <==> SomeFromEnv(ins, done, x)
    {
      var k :| k in left;
      left := left - {k};
      OneMoreFromEnv(ins, done, k);
      EnvPartGrows(base, ins, done, k);
      done := done + {k};
      if ins.jobEnv[k] in ins.env {
        var v := ins.env[ins.jobEnv[k]];
        vars := vars[k := v];
        secrets := secrets + [v];
      } else {
        ok := false;
      }
    }
    assert EnvPart(ins, done) == FromEnv(ins);
  }

  lemma OneMoreFromEnv(ins: Inputs, done: set<string>, k: string)
    requires k in ins.jobEnv
    ensures forall x :: SomeFromEnv(ins, done + {k}, x) <==>
                        SomeFromEnv(ins, done, x) || (k in FromEnv(ins) && FromEnv(ins)[k] == x)
  {
    forall x
      ensures SomeFromEnv(ins, done + {k}, x) <==>
              SomeFromEnv(ins, done, x) || (k in FromEnv(ins) && FromEnv(ins)[k] == x)
    {
      assert k in done + {k};
      if SomeFromEnv(ins, done, x) {
        var j :| j in done && j in FromEnv(ins) && FromEnv(ins)[j] == x;
        assert j in done + {k};
      }
    }
  }

  method CheckValues(vars: Vars) returns (ok: bool)
    ensures ok <==> Inventory.ValuesOk(vars)
  {
    ok := true;
    var left := vars.Keys;
    while left != {}
      invariant left <= vars.Keys
      invariant ok <==> forall k :: k in vars && k !in left ==> Inventory.ValueOk(vars[k])
    {
      var k :| k in left;
      left := left - {k};
      ok := ok && Inventory.ValueOk(vars[k]);
    }
  }

  ghost predicate SomeSensitive(vs: Variables, vars: Vars, done: set<string>, x: string) {
    exists n :: n in done && n in vs && SensitiveValue(vs, vars, n, x)
  }

  method CheckDeclarations(vs: Variables, ins: Inputs, vars: Vars) returns (ok: bool, secrets: seq<string>)
    ensures ok <==> DeclarationsOk(vs, ins, vars)
    ensures forall x :: x in secrets <==> SomeSensitive(vs, vars, vs.Keys, x)
  {
    ok, secrets := true, [];
    var left := vs.Keys;
    ghost var done: set<string> := {};
    while left != {}
      invariant left <= vs.Keys && done == vs.Keys - left
      invariant ok <==> forall n :: n in done ==> DeclarationOk(vs[n], n, ins, vars)
      invariant forall x :: x in secrets <==> SomeSensitive(vs, vars, done, x)
    {
      var n :| n in left;
      left := left - {n};
      OneMoreSensitive(vs, vars, done, n);
      done := done + {n};
      ok := ok && DeclarationOk(vs[n], n, ins, vars);
      if vs[n].sensitive && ValueSet(vars, n) {
        secrets := secrets + [vars[n]];
      }
    }
  }

  lemma OneMoreSensitive(vs: Variables, vars: Vars, done: set<string>, n: string)
    requires n in vs
    ensures forall x :: SomeSensitive(vs, vars, done + {n}, x) <==>
                        SomeSensitive(vs, vars, done, x) || SensitiveValue(vs, vars, n, x)
  {
    forall x
      ensures SomeSensitive(vs, vars, done + {n}, x) <==>
              SomeSensitive(vs, vars, done, x) || SensitiveValue(vs, vars, n, x)
    {
      assert n in done + {n};
      if SomeSensitive(vs, vars, done, x) {
        var m :| m in done && m in vs && SensitiveValue(vs, vars, m, x);
        assert m in done + {n};
      }
    }
  }

  /** `Resolve`: the values and what must be redacted do not depend on the order of any map, nor does its verdict. */
  method Resolve(vs: Variables, ins: Inputs) returns (ok: bool, vars: Vars, secrets: seq<string>)
    ensures ok <==> Acceptable(vs, ins)
    ensures ok ==> vars == Merged(vs, ins) && forall x :: x in secrets <==> IsSecret(vs, ins, x)
  {
    vars := AddDefaults(vs);
    vars := Override(vars, ins.host);
    vars := Override(vars, ins.job);
    var envOk, valuesOk, declarationsOk, sensitive;
    envOk, vars, secrets := AddEnv(vars, ins);
    valuesOk := CheckValues(vars);
    declarationsOk, sensitive := CheckDeclarations(vs, ins, vars);
    ok := envOk && valuesOk && declarationsOk;
    SecretsTogether(vs, ins);
    secrets := secrets + sensitive;
  }

  lemma SecretsTogether(vs: Variables, ins: Inputs)
    ensures forall x :: IsSecret(vs, ins, x) <==>
              SomeFromEnv(ins, ins.jobEnv.Keys, x) || SomeSensitive(vs, Merged(vs, ins), vs.Keys, x)
  {
  }

  /** Of a validated job, a sensitive variable can only have come from the environment, and is redacted. */
  lemma SensitiveFromEnvironment(vs: Variables, ins: Inputs, n: string)
    requires VariablesOk(vs) && Acceptable(vs, ins) && n in vs && vs[n].sensitive && n in Merged(vs, ins)
    ensures n in ins.jobEnv && ins.jobEnv[n] in ins.env && Merged(vs, ins)[n] == ins.env[ins.jobEnv[n]]
    ensures IsSecret(vs, ins, Merged(vs, ins)[n])
  {
    assert VariableOk(n, vs[n]) && DeclarationOk(vs[n], n, ins, Merged(vs, ins));
    assert n !in DefaultsOf(vs);
    assert n in FromEnv(ins);
  }

  /** A step of a validated job can be built if each variable it refers to is required or has a default: then
      an accepted set of inputs gives every one of them a value. */
  lemma RequiredMeansBuilt(j: Job, ins: Inputs, i: nat)
    requires Valid(j) && i < |j.steps| && Acceptable(j.variables, ins)
    requires forall n :: Building.Refers(j.steps[i], n) ==>
                           n in j.variables && (j.variables[n].required || j.variables[n].default.Some?)
    ensures Building.StepRenders(j, Merged(j.variables, ins), i)
  {
    var vars := Merged(j.variables, ins);
    forall n | Building.Refers(j.steps[i], n)
      ensures n in vars
    {
      assert DeclarationOk(j.variables[n], n, ins, vars);
      assert j.variables[n].default.Some? ==> n in DefaultsOf(j.variables);
    }
    Building.MissingVariablesOnly(j, vars, i);
  }

  /** The names a job declares are names to the shell. */
  lemma DeclaredNamesAreIdentifiers(vs: Variables, n: string)
    requires VariablesOk(vs) && n in vs
    ensures Quoting.Identifier(n)
  {
    assert VariableOk(n, vs[n]);
    forall i | 0 <= i < |n|
      ensures Quoting.IdentifierChar(n[i])
    {
      assert i > 0 ==> Template.NameChar(n[i]);
    }
  }

  /** So a script finds exactly its host's variables exactly if those no one declared have proper names as well. */
  lemma ScriptFindsItsVariables(vs: Variables, ins: Inputs, names: seq<string>)
    requires VariablesOk(vs) && Ascending(names) && forall n :: n in names <==> n in Merged(vs, ins)
    ensures Quoting.ReadBack(Quoting.ExportLines(names, Merged(vs, ins))) == Some(Merged(vs, ins))
            <==> forall n :: n in Merged(vs, ins) && n !in vs ==> Quoting.Identifier(n)
  {
    Quoting.ExportsReadBackIff(names, Merged(vs, ins));
    forall n | n in vs
      ensures Quoting.Identifier(n)
    {
      DeclaredNamesAreIdentifiers(vs, n);
    }
  }
}
