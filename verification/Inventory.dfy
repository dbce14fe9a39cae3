/** Resolving inventory entries into targets, and selecting them whatever order the group map yields. */
module Inventory {
  import opened Options
  import opened Ordering

  datatype Credential = Credential(kind: string, username: string, passwordEnv: string, keyFile: string)

  datatype Bastion = Bastion(address: string, port: int, username: string, credential: string)

  datatype Defaults = Defaults(
    port: int, username: string, credential: string, bastion: string, tags: seq<string>, variables: map<string, string>)

  datatype Host = Host(
    name: string, address: string, port: int, username: string, credential: string, bastion: string,
    tags: seq<string>, variables: map<string, string>)

  datatype Group = Group(defaults: Defaults, hosts: seq<Host>)

  datatype Inventory = Inventory(
    credentials: map<string, Credential>,
    bastions: map<string, Bastion>,
    defaults: Defaults,
    groups: map<string, Group>,
    hosts: seq<Host>)

  datatype Selector = Selector(groups: seq<string>, tags: seq<string>, hosts: seq<string>)

  datatype Endpoint = Endpoint(name: string, address: string, port: int, username: string, credential: string)

  datatype Target = Target(
    name: string, address: string, port: int, username: string, credential: string,
    group: string, tags: seq<string>, variables: map<string, string>, bastion: Option<Endpoint>)

  const NO_DEFAULTS := Defaults(0, "", "", "", [], map[])

  // Pieces of resolve.

  function First(vals: seq<string>): string {
    if vals == [] then "" else if vals[0] != "" then vals[0] else First(vals[1..])
  }

  function FirstPort(vals: seq<int>): int {
    if vals == [] then 0 else if vals[0] != 0 then vals[0] else FirstPort(vals[1..])
  }

  /** `CheckValue`: no control character but the tab. */
  predicate ValueOk(v: string) {
    forall i :: 0 <= i < |v| ==> (v[i] >= 32 as char || v[i] == '\t') && v[i] != 127 as char
  }

  predicate ValuesOk(m: map<string, string>) {
    forall k :: k in m ==> ValueOk(m[k])
  }

  /** A later map overrides an earlier one, and every value of each is checked, overridden or not. */
  method MergeVariables(maps: seq<map<string, string>>) returns (r: Option<map<string, string>>)
    ensures r.Some? <==> forall i :: 0 <= i < |maps| ==> ValuesOk(maps[i])
    ensures r.Some? ==> r.value == Overlay(maps)
  {
    var vars := map[];
    for i := 0 to |maps|
      invariant vars == Overlay(maps[..i])
      invariant forall j :: 0 <= j < i ==> ValuesOk(maps[j])
    {
      var merged := MergeOne(vars, maps[i]);
      if merged.None? {
        return None;
      }
      vars := merged.value;
      assert maps[..i + 1][..i] == maps[..i];
    }
    assert maps[..|maps|] == maps;
    return Some(vars);
  }

  method MergeOne(before: map<string, string>, m: map<string, string>) returns (r: Option<map<string, string>>)
    ensures r.Some? <==> ValuesOk(m)
    ensures r.Some? ==> r.value == before + m
  {
    var vars, left := before, m.Keys;
    while left != {}
      invariant left <= m.Keys
      invariant forall k :: k in m && k !in left ==> ValueOk(m[k])
      invariant vars.Keys == before.Keys + (m.Keys - left)
      invariant forall k :: k in vars ==> vars[k] == if k in m && k !in left then m[k] else before[k]
    {
      var k :| k in left;
      if !ValueOk(m[k]) {
        return None;
      }
      left := left - {k};
      vars := vars[k := m[k]];
    }
    return Some(vars);
  }

  function Overlay(maps: seq<map<string, string>>): map<string, string> {
    if maps == [] then map[] else Overlay(maps[..|maps| - 1]) + maps[|maps| - 1]
  }

  /** Where a value first occurs; the length of the list if it does not. */
  function IndexOf(xs: seq<string>, x: string): (i: nat)
    ensures i <= |xs| && (i < |xs| <==> x in xs)
    ensures i < |xs| ==> xs[i] == x && x !in xs[..i]
  {
    if xs == [] then 0 else if xs[0] == x then 0 else 1 + IndexOf(xs[1..], x)
  }

  /** Each element once, in the order of first occurrence. */
  ghost predicate FirstOccurrences(r: seq<string>, xs: seq<string>) {
    && (forall x :: x in r <==> x in xs)
    && (forall i, j :: 0 <= i < j < |r| ==> IndexOf(xs, r[i]) < IndexOf(xs, r[j]))
  }

  method Deduplicate(xs: seq<string>) returns (r: seq<string>)
    ensures FirstOccurrences(r, xs)
  {
    r := [];
    var seen: set<string> := {};
    for i := 0 to |xs|
      invariant forall x :: x in r <==> x in xs[..i]
      invariant forall x :: x in seen <==> x in r
      invariant forall a, b :: 0 <= a < b < |r| ==> IndexOf(xs, r[a]) < IndexOf(xs, r[b])
      invariant forall a :: 0 <= a < |r| ==> IndexOf(xs, r[a]) < i
    {
      assert xs[..i + 1] == xs[..i] + [xs[i]];
      if xs[i] !in seen {
        seen := seen + {xs[i]};
        assert IndexOf(xs, xs[i]) == i;
        r := r + [xs[i]];
      }
    }
    assert xs[..|xs|] == xs;
  }

  /** The order of first occurrence leaves no choice. */
  lemma {:induction false} FirstOccurrencesUnique(a: seq<string>, b: seq<string>, xs: seq<string>)
    requires FirstOccurrences(a, xs) && FirstOccurrences(b, xs)
    ensures a == b
  {
    RankedUnique(a, b, xs);
  }

  /** Two lists with the same elements, both ascending by first occurrence, are the same list. */
  lemma {:induction false} RankedUnique(a: seq<string>, b: seq<string>, xs: seq<string>)
    requires forall x :: x in a <==> x in b
    requires forall i, j :: 0 <= i < j < |a| ==> IndexOf(xs, a[i]) < IndexOf(xs, a[j])
    requires forall i, j :: 0 <= i < j < |b| ==> IndexOf(xs, b[i]) < IndexOf(xs, b[j])
    ensures a == b
  {
    assert |a| > 0 ==> a[0] in a;
    assert |b| > 0 ==> b[0] in b;
    if a != [] {
      assert a[0] == b[0];
      forall x
        ensures x in a[1..] <==> x in b[1..]
      {
        RankedTail(a, xs, x);
        RankedTail(b, xs, x);
      }
      RankedUnique(a[1..], b[1..], xs);
    }
  }

  lemma RankedTail(a: seq<string>, xs: seq<string>, x: string)
    requires a != [] && forall i, j :: 0 <= i < j < |a| ==> IndexOf(xs, a[i]) < IndexOf(xs, a[j])
    ensures x in a[1..] <==> x in a && x != a[0]
  {
    assert forall j :: 0 <= j < |a[1..]| ==> a[1..][j] == a[j + 1];
    assert a == [a[0]] + a[1..];
  }

  // resolve

  /** `credential`: the named one, if it carries what its kind needs. */
  function CredentialOf(inv: Inventory, name: string): Option<Credential> {
    if name == "" || name !in inv.credentials then None
    else
      var c := inv.credentials[name];
      if c.kind == "password" && c.passwordEnv != "" then Some(c)
      else if c.kind == "private_key" && c.keyFile != "" then Some(c)
      else None
  }

  /** The bastion a host uses: Some(None) if it uses none, None if what it names is not usable. */
  function BastionOf(inv: Inventory, name: string): Option<Option<Endpoint>> {
    if name == "" then Some(None)
    else if name !in inv.bastions then None
    else
      var b := inv.bastions[name];
      match CredentialOf(inv, b.credential)
      case None => None
      case Some(bc) =>
        var e := Endpoint(name, b.address, FirstPort([b.port, 22]), First([b.username, bc.username]), b.credential);
        if e.address == "" || e.username == "" then None else Some(Some(e))
  }

  ghost predicate ResolvesTo(inv: Inventory, group: string, gd: Defaults, h: Host, t: Target) {
    var d := inv.defaults;
    && t.name == h.name && t.group == group && t.address == h.address
    && t.port == FirstPort([h.port, gd.port, d.port, 22])
    && t.credential == First([h.credential, gd.credential, d.credential])
    && CredentialOf(inv, t.credential).Some?
    && t.username == First([h.username, gd.username, d.username, CredentialOf(inv, t.credential).value.username])
    && t.variables == d.variables + gd.variables + h.variables
    && FirstOccurrences(t.tags, d.tags + gd.tags + h.tags)
    && BastionOf(inv, First([h.bastion, gd.bastion, d.bastion])) == Some(t.bastion)
  }

  /** What a host needs to be resolved. */
  ghost predicate Resolvable(inv: Inventory, gd: Defaults, h: Host) {
    var d := inv.defaults;
    && h.address != ""
    && 1 <= FirstPort([h.port, gd.port, d.port, 22]) <= 65535
    && ValuesOk(d.variables) && ValuesOk(gd.variables) && ValuesOk(h.variables)
    && CredentialOf(inv, First([h.credential, gd.credential, d.credential])).Some?
    && First([h.username, gd.username, d.username,
              CredentialOf(inv, First([h.credential, gd.credential, d.credential])).value.username]) != ""
    && BastionOf(inv, First([h.bastion, gd.bastion, d.bastion])).Some?
  }

  method Resolve(inv: Inventory, group: string, gd: Defaults, h: Host) returns (r: Option<Target>)
    ensures r.Some? <==> Resolvable(inv, gd, h)
    ensures r.Some? ==> ResolvesTo(inv, group, gd, h, r.value)
  {
    var d := inv.defaults;
    var port := FirstPort([h.port, gd.port, d.port, 22]);
    if h.address == "" || port < 1 || port > 65535 {
      return None;
    }
    var variables := MergeVariables([d.variables, gd.variables, h.variables]);
    OverlayThree(d.variables, gd.variables, h.variables);
    if variables.None? {
      return None;
    }
    var tags := Deduplicate(d.tags + gd.tags + h.tags);
    var credential := First([h.credential, gd.credential, d.credential]);
    var c := CredentialOf(inv, credential);
    if c.None? {
      return None;
    }
    var username := First([h.username, gd.username, d.username, c.value.username]);
    if username == "" {
      return None;
    }
    var bastion := BastionOf(inv, First([h.bastion, gd.bastion, d.bastion]));
    if bastion.None? {
      return None;
    }
    return Some(Target(h.name, h.address, port, username, credential, group, tags, variables.value, bastion.value));
  }

  lemma OverlayThree(a: map<string, string>, b: map<string, string>, c: map<string, string>)
    ensures Overlay([a, b, c]) == a + b + c
    ensures (forall i :: 0 <= i < 3 ==> ValuesOk([a, b, c][i])) <==> ValuesOk(a) && ValuesOk(b) && ValuesOk(c)
  {
    assert [a, b, c][..2] == [a, b] && [a, b][..1] == [a] && [a][..0] == [];
    assert Overlay([a]) == a;
    assert [a, b, c][0] == a && [a, b, c][1] == b && [a, b, c][2] == c;
  }

  /** A host resolves to one target only. */
  lemma ResolvesToOne(inv: Inventory, group: string, gd: Defaults, h: Host, s: Target, t: Target)
    requires ResolvesTo(inv, group, gd, h, s) && ResolvesTo(inv, group, gd, h, t)
    ensures s == t
  {
    FirstOccurrencesUnique(s.tags, t.tags, inv.defaults.tags + gd.tags + h.tags);
  }

  // Select

  predicate NameChar(c: char) {
    'A' <= c <= 'Z' || 'a' <= c <= 'z' || '0' <= c <= '9'
  }

  /** The host name pattern. */
  predicate NameOk(n: string) {
    && 1 <= |n| <= 253
    && NameChar(n[0])
    && forall i :: 0 < i < |n| ==> NameChar(n[i]) || n[i] == '.' || n[i] == '_' || n[i] == ':' || n[i] == '-'
  }

  predicate AnyOf(want: seq<string>, have: seq<string>) {
    want == [] || exists i :: 0 <= i < |want| && want[i] in have
  }

  /** AND across the kinds of selector, OR within one; an empty kind selects all. */
  predicate Selected(sel: Selector, t: Target) {
    AnyOf(sel.groups, [t.group]) && AnyOf(sel.tags, t.tags) && AnyOf(sel.hosts, [t.name])
  }

  /** Where a host is written down. */
  datatype Place = InGroup(group: string, i: nat) | Top(i: nat)

  predicate IsPlace(inv: Inventory, p: Place) {
    match p
    case InGroup(g, i) => g in inv.groups && i < |inv.groups[g].hosts|
    case Top(i) => i < |inv.hosts|
  }

  function HostAt(inv: Inventory, p: Place): Host
    requires IsPlace(inv, p)
  {
    match p
    case InGroup(g, i) => inv.groups[g].hosts[i]
    case Top(i) => inv.hosts[i]
  }

  function GroupAt(inv: Inventory, p: Place): string {
    if p.InGroup? then p.group else ""
  }

  function DefaultsAt(inv: Inventory, p: Place): Defaults
    requires IsPlace(inv, p)
  {
    if p.InGroup? then inv.groups[p.group].defaults else NO_DEFAULTS
  }

  ghost predicate ResolvesAt(inv: Inventory, p: Place, t: Target)
    requires IsPlace(inv, p)
  {
    ResolvesTo(inv, GroupAt(inv, p), DefaultsAt(inv, p), HostAt(inv, p), t)
  }

  ghost predicate ResolvableAt(inv: Inventory, p: Place)
    requires IsPlace(inv, p)
  {
    Resolvable(inv, DefaultsAt(inv, p), HostAt(inv, p))
  }

  /** The inventory is sound, and the selector names only what exists. No iteration order is involved. */
  ghost predicate Acceptable(inv: Inventory, sel: Selector) {
    && (forall p :: IsPlace(inv, p) ==> NameOk(HostAt(inv, p).name) && ResolvableAt(inv, p))
    && (forall p, q :: IsPlace(inv, p) && IsPlace(inv, q) && p != q ==> HostAt(inv, p).name != HostAt(inv, q).name)
    && (forall g :: g in sel.groups ==> g in inv.groups)
    && (forall h :: h in sel.hosts ==> exists p :: IsPlace(inv, p) && HostAt(inv, p).name == h)
  }

  function Names(ts: seq<Target>): seq<string> {
    seq(|ts|, i requires 0 <= i < |ts| => ts[i].name)
  }

  /** The selected targets, each once, ascending by name. */
  ghost predicate Selection(inv: Inventory, sel: Selector, ts: seq<Target>) {
    && Ascending(Names(ts))
    && (forall t :: t in ts ==> Selected(sel, t) && exists p :: IsPlace(inv, p) && ResolvesAt(inv, p, t))
    && (forall p, t :: IsPlace(inv, p) && ResolvesAt(inv, p, t) && Selected(sel, t) ==> t in ts)
  }

  /** Only one list meets that description: the order of the group map can make no difference. */
  lemma SelectionUnique(inv: Inventory, sel: Selector, s: seq<Target>, t: seq<Target>)
    requires Selection(inv, sel, s) && Selection(inv, sel, t)
    ensures s == t
  {
    forall x
      ensures x in s <==> x in t
    {
    }
    SameTargets(s, t);
  }

  lemma SameTargets(s: seq<Target>, t: seq<Target>)
    requires Ascending(Names(s)) && Ascending(Names(t)) && forall x :: x in s <==> x in t
    ensures s == t
  {
    forall n
      ensures n in Names(s) <==> n in Names(t)
    {
      NameHasTarget(s, t, n);
      NameHasTarget(t, s, n);
    }
    AscendingUnique(Names(s), Names(t));
    forall i | 0 <= i < |s|
      ensures s[i] == t[i]
    {
      assert s[i] in t;
      var j :| 0 <= j < |t| && t[j] == s[i];
      assert Names(t)[j] == Names(s)[i] == Names(t)[i];
      LessIrreflexive(Names(t)[i]);
    }
  }

  lemma NameHasTarget(s: seq<Target>, t: seq<Target>, n: string)
    requires forall x :: x in s ==> x in t
    ensures n in Names(s) ==> n in Names(t)
  {
    if n in Names(s) {
      var i :| 0 <= i < |s| && Names(s)[i] == n;
      assert s[i] in t;
      var j :| 0 <= j < |t| && t[j] == s[i];
      assert Names(t)[j] == n;
    }
  }
}
