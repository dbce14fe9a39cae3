/** `Select` and `mergeInto`, run over maps whose iteration order is arbitrary. */
module Selection {
  import opened Options
  import opened Ordering
  import opened Inventory

  // Collecting.

  ghost predicate Places(inv: Inventory, done: set<Place>) {
    forall p :: p in done ==> IsPlace(inv, p)
  }

  ghost predicate Bad(inv: Inventory, p: Place)
    requires IsPlace(inv, p)
  {
    !NameOk(HostAt(inv, p).name) || !ResolvableAt(inv, p)
  }

  ghost predicate Twins(inv: Inventory, p: Place, q: Place)
    requires IsPlace(inv, p) && IsPlace(inv, q)
  {
    p != q && HostAt(inv, p).name == HostAt(inv, q).name
  }

  /** A bad host on its own, or two of one name. */
  ghost predicate Wrong(inv: Inventory, p: Place, q: Place)
    requires IsPlace(inv, p) && IsPlace(inv, q)
  {
    (p == q && Bad(inv, p)) || Twins(inv, p, q)
  }

  /** Something is wrong with the hosts looked at so far. */
  ghost predicate Flawed(inv: Inventory, done: set<Place>)
    requires Places(inv, done)
  {
    exists p, q :: p in done && q in done && Wrong(inv, p, q)
  }

  ghost predicate HasTwin(inv: Inventory, done: set<Place>, p: Place)
    requires Places(inv, done) && IsPlace(inv, p)
  {
    exists q :: q in done && Twins(inv, q, p)
  }

  /** The names taken so far. */
  ghost predicate SeenNames(inv: Inventory, done: set<Place>, seen: set<string>)
    requires Places(inv, done)
  {
    && (forall n :: n in seen ==> exists p :: p in done && HostAt(inv, p).name == n)
    && (forall p :: p in done && NameOk(HostAt(inv, p).name) ==> HostAt(inv, p).name in seen)
  }

  ghost predicate HasTarget(inv: Inventory, p: Place, all: seq<Target>)
    requires IsPlace(inv, p)
  {
    exists t :: t in all && ResolvesAt(inv, p, t)
  }

  ghost predicate HasPlace(inv: Inventory, t: Target, done: set<Place>)
    requires Places(inv, done)
  {
    exists p :: p in done && ResolvesAt(inv, p, t)
  }

  predicate DistinctNames(all: seq<Target>) {
    forall i, j :: 0 <= i < j < |all| ==> all[i].name != all[j].name
  }

  /** The targets built so far: one per host, as long as nothing was wrong. */
  ghost predicate Targets(inv: Inventory, done: set<Place>, errs: bool, all: seq<Target>)
    requires Places(inv, done)
  {
    && (forall t :: t in all ==> HasPlace(inv, t, done))
    && DistinctNames(all)
    && (!errs ==> forall p :: p in done ==> HasTarget(inv, p, all))
  }

  /** The variables of the loop, for the hosts looked at so far in some order. */
  ghost predicate Collected(inv: Inventory, done: set<Place>, errs: bool, seen: set<string>, all: seq<Target>) {
    && Places(inv, done)
    && SeenNames(inv, done, seen)
    && (errs <==> Flawed(inv, done))
    && Targets(inv, done, errs, all)
  }

  lemma FlawedStays(inv: Inventory, done: set<Place>, p: Place)
    requires Places(inv, done) && IsPlace(inv, p)
    ensures Flawed(inv, done) ==> Flawed(inv, done + {p})
  {
    if Flawed(inv, done) {
      var q, r :| q in done && r in done && Wrong(inv, q, r);
      assert q in done + {p} && r in done + {p};
    }
  }

  lemma FlawedByNew(inv: Inventory, done: set<Place>, p: Place)
    requires Places(inv, done) && IsPlace(inv, p)
    ensures Bad(inv, p) || (p !in done && HasTwin(inv, done, p)) ==> Flawed(inv, done + {p})
  {
    assert p in done + {p};
    if Bad(inv, p) {
      assert Wrong(inv, p, p);
    } else if p !in done && HasTwin(inv, done, p) {
      var q :| q in done && Twins(inv, q, p);
      assert q in done + {p} && Wrong(inv, q, p);
    }
  }

  lemma FlawedOnlyBy(inv: Inventory, done: set<Place>, p: Place)
    requires Places(inv, done) && IsPlace(inv, p) && Flawed(inv, done + {p})
    ensures Flawed(inv, done) || Bad(inv, p) || HasTwin(inv, done, p)
  {
    var q, r :| q in done + {p} && r in done + {p} && Wrong(inv, q, r);
    if q == p && r != p {
      assert Twins(inv, r, p);
    }
  }

  lemma FlawedGrows(inv: Inventory, done: set<Place>, p: Place)
    requires Places(inv, done) && IsPlace(inv, p) && p !in done
    ensures Flawed(inv, done + {p}) <==> Flawed(inv, done) || Bad(inv, p) || HasTwin(inv, done, p)
  {
    FlawedStays(inv, done, p);
    FlawedByNew(inv, done, p);
    if Flawed(inv, done + {p}) {
      FlawedOnlyBy(inv, done, p);
    }
  }

  /** A host that is not taken leaves the targets as they were. */
  lemma NotTaken(inv: Inventory, done: set<Place>, p: Place, errs: bool, all: seq<Target>)
    requires Places(inv, done) && IsPlace(inv, p) && Targets(inv, done, errs, all)
    ensures Places(inv, done + {p}) && Targets(inv, done + {p}, true, all)
  {
    forall t | t in all
      ensures HasPlace(inv, t, done + {p})
    {
      var q :| q in done && ResolvesAt(inv, q, t);
      assert q in done + {p};
    }
  }

  lemma PlaceKept(inv: Inventory, done: set<Place>, p: Place, t: Target)
    requires Places(inv, done) && IsPlace(inv, p) && (HasPlace(inv, t, done) || ResolvesAt(inv, p, t))
    ensures HasPlace(inv, t, done + {p})
  {
    assert p in done + {p};
    if HasPlace(inv, t, done) {
      var q :| q in done && ResolvesAt(inv, q, t);
      assert q in done + {p};
    }
  }

  lemma NewNameDistinct(inv: Inventory, done: set<Place>, all: seq<Target>, t: Target)
    requires Places(inv, done) && DistinctNames(all)
    requires forall u :: u in all ==> HasPlace(inv, u, done)
    requires forall q :: q in done ==> HostAt(inv, q).name != t.name
    ensures DistinctNames(all + [t])
  {
    forall i | 0 <= i < |all|
      ensures all[i].name != t.name
    {
      assert HasPlace(inv, all[i], done);
    }
  }

  lemma TargetKept(inv: Inventory, q: Place, all: seq<Target>, t: Target, p: Place)
    requires IsPlace(inv, q) && (if q == p then ResolvesAt(inv, p, t) else HasTarget(inv, q, all))
    ensures HasTarget(inv, q, all + [t])
  {
    assert t in all + [t];
    if q != p {
      var u :| u in all && ResolvesAt(inv, q, u);
      assert u in all + [t];
    }
  }

  lemma PlacesKept(inv: Inventory, done: set<Place>, p: Place, all: seq<Target>, t: Target)
    requires Places(inv, done) && IsPlace(inv, p) && ResolvesAt(inv, p, t)
    requires forall u :: u in all ==> HasPlace(inv, u, done)
    ensures Places(inv, done + {p}) && forall u :: u in all + [t] ==> HasPlace(inv, u, done + {p})
  {
    forall u | u in all + [t]
      ensures HasPlace(inv, u, done + {p})
    {
      PlaceKept(inv, done, p, u);
    }
  }

  lemma TargetsKept(inv: Inventory, done: set<Place>, p: Place, all: seq<Target>, t: Target)
    requires Places(inv, done) && IsPlace(inv, p) && ResolvesAt(inv, p, t)
    requires forall q :: q in done ==> HasTarget(inv, q, all)
    ensures Places(inv, done + {p}) && forall q :: q in done + {p} ==> HasTarget(inv, q, all + [t])
  {
    forall q | q in done + {p}
      ensures HasTarget(inv, q, all + [t])
    {
      TargetKept(inv, q, all, t, p);
    }
  }

  lemma Taken(inv: Inventory, done: set<Place>, p: Place, errs: bool, all: seq<Target>, t: Target)
    requires Places(inv, done) && IsPlace(inv, p) && Targets(inv, done, errs, all) && ResolvesAt(inv, p, t)
    requires forall q :: q in done ==> HostAt(inv, q).name != t.name
    ensures Places(inv, done + {p}) && Targets(inv, done + {p}, errs, all + [t])
  {
    PlacesKept(inv, done, p, all, t);
    NewNameDistinct(inv, done, all, t);
    if !errs {
      TargetsKept(inv, done, p, all, t);
    }
  }

  /** A name is taken exactly if an earlier host has it. */
  lemma SeenMeansTwin(inv: Inventory, done: set<Place>, p: Place, seen: set<string>)
    requires Places(inv, done) && IsPlace(inv, p) && p !in done && SeenNames(inv, done, seen)
    requires NameOk(HostAt(inv, p).name)
    ensures HostAt(inv, p).name in seen <==> HasTwin(inv, done, p)
  {
    if HostAt(inv, p).name in seen {
      var q :| q in done && HostAt(inv, q).name == HostAt(inv, p).name;
      assert Twins(inv, q, p);
    }
  }

  lemma SeenGrows(inv: Inventory, done: set<Place>, p: Place, seen: set<string>)
    requires Places(inv, done) && IsPlace(inv, p) && SeenNames(inv, done, seen)
    ensures Places(inv, done + {p})
    ensures SeenNames(inv, done + {p}, seen + {HostAt(inv, p).name})
    ensures !NameOk(HostAt(inv, p).name) || HostAt(inv, p).name in seen ==> SeenNames(inv, done + {p}, seen)
  {
    assert p in done + {p};
    forall n | n in seen
      ensures exists q :: q in done + {p} && HostAt(inv, q).name == n
    {
      var q :| q in done && HostAt(inv, q).name == n;
      assert q in done + {p};
    }
  }

  /** The closure `add` of the loops. */
  method AddHost(inv: Inventory, p: Place, ghost done: set<Place>, errs: bool, seen: set<string>, all: seq<Target>)
    returns (errs': bool, seen': set<string>, all': seq<Target>)
    requires IsPlace(inv, p) && p !in done && Collected(inv, done, errs, seen, all)
    ensures Collected(inv, done + {p}, errs', seen', all')
  {
    var h := HostAt(inv, p);
    FlawedGrows(inv, done, p);
    NotTaken(inv, done, p, errs, all);
    SeenGrows(inv, done, p, seen);
    if !NameOk(h.name) {
      return true, seen, all;
    }
    SeenMeansTwin(inv, done, p, seen);
    if h.name in seen {
      return true, seen, all;
    }
    var t := Resolve(inv, GroupAt(inv, p), DefaultsAt(inv, p), h);
    if t.None? {
      return true, seen + {h.name}, all;
    }
    Taken(inv, done, p, errs, all, t.value);
    return errs, seen + {h.name}, all + [t.value];
  }

  // Filtering and sorting.

  /** Adds a target where its name belongs. */
  function Placed(out: seq<Target>, t: Target): (r: seq<Target>)
    requires Ascending(Names(out)) && t.name !in Names(out)
    ensures Ascending(Names(r))
    ensures forall u :: u in r <==> u in out || u == t
  {
    var p := Position(Names(out), t.name);
    var r := out[..p] + [t] + out[p..];
    assert Names(r) == Names(out)[..p] + [t.name] + Names(out)[p..] == Insert(Names(out), t.name);
    assert out == out[..p] + out[p..];
    r
  }

  /** The selected targets, ascending by name. */
  method Filter(all: seq<Target>, sel: Selector) returns (out: seq<Target>)
    requires DistinctNames(all)
    ensures Ascending(Names(out))
    ensures forall t :: t in out <==> t in all && Selected(sel, t)
  {
    out := [];
    for i := 0 to |all|
      invariant Ascending(Names(out))
      invariant forall t :: t in out <==> t in all[..i] && Selected(sel, t)
    {
      assert all[..i + 1] == all[..i] + [all[i]];
      if Selected(sel, all[i]) {
        NotYet(all, i, out);
        out := Placed(out, all[i]);
      }
    }
    assert all[..|all|] == all;
  }

  lemma NotYet(all: seq<Target>, i: nat, out: seq<Target>)
    requires DistinctNames(all) && i < |all| && forall t :: t in out ==> t in all[..i]
    ensures all[i].name !in Names(out)
  {
    forall j | 0 <= j < |out|
      ensures Names(out)[j] != all[i].name
    {
      assert out[j] in all[..i];
    }
  }

  /** The hosts of one group, or those outside any group. */
  function Members(inv: Inventory, g: Option<string>): seq<Host>
    requires g.Some? ==> g.value in inv.groups
  {
    if g.Some? then inv.groups[g.value].hosts else inv.hosts
  }

  function PlaceIn(g: Option<string>, i: nat): Place {
    if g.Some? then InGroup(g.value, i) else Top(i)
  }

  ghost function PlacesIn(inv: Inventory, g: Option<string>, n: nat): set<Place>
    requires g.Some? ==> g.value in inv.groups
  {
    set i | 0 <= i < n :: PlaceIn(g, i)
  }

  /** The places of one list, as its loop moves on. */
  lemma PlacesGrow(inv: Inventory, g: Option<string>, done: set<Place>, i: nat)
    requires g.Some? ==> g.value in inv.groups
    requires i < |Members(inv, g)| && forall j: nat :: PlaceIn(g, j) !in done
    ensures IsPlace(inv, PlaceIn(g, i)) && PlaceIn(g, i) !in done + PlacesIn(inv, g, i)
    ensures done + PlacesIn(inv, g, i + 1) == (done + PlacesIn(inv, g, i)) + {PlaceIn(g, i)}
  {
    assert PlacesIn(inv, g, i + 1) == PlacesIn(inv, g, i) + {PlaceIn(g, i)};
  }

  method AddMember(
    inv: Inventory, g: Option<string>, i: nat, ghost done: set<Place>, errs: bool, seen: set<string>, all: seq<Target>)
    returns (errs': bool, seen': set<string>, all': seq<Target>)
    requires (g.Some? ==> g.value in inv.groups) && i < |Members(inv, g)|
    requires Collected(inv, done + PlacesIn(inv, g, i), errs, seen, all)
    requires forall j: nat :: PlaceIn(g, j) !in done
    ensures Collected(inv, done + PlacesIn(inv, g, i + 1), errs', seen', all')
  {
    PlacesGrow(inv, g, done, i);
    errs', seen', all' := AddHost(inv, PlaceIn(g, i), done + PlacesIn(inv, g, i), errs, seen, all);
  }

  /** One of the inner loops of `Select`. */
  method AddMembers(inv: Inventory, g: Option<string>, ghost done: set<Place>, errs: bool, seen: set<string>, all: seq<Target>)
    returns (errs': bool, seen': set<string>, all': seq<Target>)
    requires g.Some? ==> g.value in inv.groups
    requires Collected(inv, done, errs, seen, all)
    requires forall i: nat :: PlaceIn(g, i) !in done
    ensures Collected(inv, done + PlacesIn(inv, g, |Members(inv, g)|), errs', seen', all')
  {
    errs', seen', all' := errs, seen, all;
    assert done + PlacesIn(inv, g, 0) == done;
    for i := 0 to |Members(inv, g)|
      invariant Collected(inv, done + PlacesIn(inv, g, i), errs', seen', all')
    {
      errs', seen', all' := AddMember(inv, g, i, done, errs', seen', all');
    }
  }

  /** The hosts of the groups no longer to come have been looked at, and no others. */
  ghost predicate Visited(inv: Inventory, left: set<string>, done: set<Place>) {
    forall p :: p in done <==> IsPlace(inv, p) && p.InGroup? && p.group !in left
  }

  lemma VisitedGroup(inv: Inventory, left: set<string>, g: string, done: set<Place>)
    requires left <= inv.groups.Keys && g in left && Visited(inv, left, done)
    ensures forall j: nat :: PlaceIn(Some(g), j) !in done
    ensures Visited(inv, left - {g}, done + PlacesIn(inv, Some(g), |Members(inv, Some(g))|))
  {
    var members := PlacesIn(inv, Some(g), |Members(inv, Some(g))|);
    forall p
      ensures p in members <==> IsPlace(inv, p) && p.InGroup? && p.group == g
    {
      assert p.InGroup? && p.group == g ==> p == PlaceIn(Some(g), p.i);
    }
  }

  lemma VisitedAll(inv: Inventory, done: set<Place>)
    requires Visited(inv, {}, done)
    ensures forall j: nat :: PlaceIn(None, j) !in done
    ensures forall p :: p in done + PlacesIn(inv, None, |inv.hosts|) <==> IsPlace(inv, p)
  {
    forall p
      ensures p in PlacesIn(inv, None, |inv.hosts|) <==> IsPlace(inv, p) && p.Top?
    {
      assert p.Top? ==> p == PlaceIn(None, p.i);
    }
  }

  /** The hosts of all groups in arbitrary order, then those outside any group. */
  method CollectAll(inv: Inventory) returns (errs: bool, seen: set<string>, all: seq<Target>, ghost done: set<Place>)
    ensures Collected(inv, done, errs, seen, all)
    ensures forall p :: p in done <==> IsPlace(inv, p)
  {
    errs, seen, all, done := false, {}, [], {};
    var left := inv.groups.Keys;
    while left != {}
      invariant left <= inv.groups.Keys
      invariant Collected(inv, done, errs, seen, all) && Visited(inv, left, done)
    {
      var g :| g in left;
      VisitedGroup(inv, left, g, done);
      errs, seen, all := AddMembers(inv, Some(g), done, errs, seen, all);
      done := done + PlacesIn(inv, Some(g), |Members(inv, Some(g))|);
      left := left - {g};
    }
    VisitedAll(inv, done);
    errs, seen, all := AddMembers(inv, None, done, errs, seen, all);
    done := done + PlacesIn(inv, None, |inv.hosts|);
  }

  /** Some wanted name is unknown. */
  method Unknown(want: seq<string>, have: set<string>) returns (bad: bool)
    ensures bad <==> exists x :: x in want && x !in have
  {
    bad := false;
    for i := 0 to |want|
      invariant bad <==> exists x :: x in want[..i] && x !in have
    {
      assert want[..i + 1] == want[..i] + [want[i]];
      bad := bad || want[i] !in have;
    }
    assert want[..|want|] == want;
  }

  /** `Select`: it succeeds exactly on a sound inventory and a selector that names what exists, with the one
      list that meets the description of a selection. */
  method Select(inv: Inventory, sel: Selector) returns (r: Option<seq<Target>>)
    ensures r.Some? <==> Acceptable(inv, sel)
    ensures r.Some? ==> Selection(inv, sel, r.value)
  {
    var errs, seen, all, done := CollectAll(inv);
    var badGroup := Unknown(sel.groups, inv.groups.Keys);
    var badHost := Unknown(sel.hosts, seen);
    Verdict(inv, sel, done, seen, errs);
    if errs || badGroup || badHost {
      return None;
    }
    var out := Filter(all, sel);
    Found(inv, sel, done, all, out);
    return Some(out);
  }

  lemma AcceptableHosts(inv: Inventory, sel: Selector, done: set<Place>)
    requires forall p :: p in done <==> IsPlace(inv, p)
    requires Acceptable(inv, sel)
    ensures !Flawed(inv, done)
  {
    forall p, q | p in done && q in done
      ensures !Wrong(inv, p, q)
    {
    }
  }

  lemma SoundAt(inv: Inventory, done: set<Place>, p: Place, q: Place)
    requires Places(inv, done) && !Flawed(inv, done) && p in done && q in done
    ensures !Bad(inv, p) && !Twins(inv, p, q)
  {
    assert !Wrong(inv, p, p) && !Wrong(inv, p, q);
  }

  /** In a sound inventory the names taken are the names of its hosts. */
  lemma TakenNames(inv: Inventory, done: set<Place>, seen: set<string>, h: string)
    requires forall p :: p in done <==> IsPlace(inv, p)
    requires SeenNames(inv, done, seen) && forall p :: p in done ==> NameOk(HostAt(inv, p).name)
    ensures h in seen <==> exists p :: IsPlace(inv, p) && HostAt(inv, p).name == h
  {
  }

  lemma Verdict(inv: Inventory, sel: Selector, done: set<Place>, seen: set<string>, errs: bool)
    requires (forall p :: p in done <==> IsPlace(inv, p)) && SeenNames(inv, done, seen)
    requires errs <==> Flawed(inv, done)
    ensures Acceptable(inv, sel) <==> !errs && !(exists g :: g in sel.groups && g !in inv.groups.Keys)
                                      && !(exists h :: h in sel.hosts && h !in seen)
  {
    if Acceptable(inv, sel) {
      AcceptableHosts(inv, sel, done);
    }
    if !errs {
      forall p, q | IsPlace(inv, p) && IsPlace(inv, q)
        ensures NameOk(HostAt(inv, p).name) && ResolvableAt(inv, p)
        ensures p != q ==> HostAt(inv, p).name != HostAt(inv, q).name
      {
        SoundAt(inv, done, p, q);
      }
      forall h
        ensures h in seen <==> exists p :: IsPlace(inv, p) && HostAt(inv, p).name == h
      {
        TakenNames(inv, done, seen, h);
      }
    }
  }

  lemma Found(inv: Inventory, sel: Selector, done: set<Place>, all: seq<Target>, out: seq<Target>)
    requires (forall p :: p in done <==> IsPlace(inv, p)) && Targets(inv, done, false, all)
    requires Ascending(Names(out)) && forall t :: t in out <==> t in all && Selected(sel, t)
    ensures Selection(inv, sel, out)
  {
    forall p, t | IsPlace(inv, p) && ResolvesAt(inv, p, t) && Selected(sel, t)
      ensures t in out
    {
      assert HasTarget(inv, p, all);
      var u :| u in all && ResolvesAt(inv, p, u);
      ResolvesToOne(inv, GroupAt(inv, p), DefaultsAt(inv, p), HostAt(inv, p), t, u);
    }
    forall t | t in out
      ensures Selected(sel, t) && exists p :: IsPlace(inv, p) && ResolvesAt(inv, p, t)
    {
      assert HasPlace(inv, t, done);
    }
  }

  // Several inventory files.

  /** `mergeInto`, in whatever order the entries come: it fails exactly if a name is in both files. */
  method MergeInto<V>(dst: map<string, V>, src: map<string, V>) returns (r: Option<map<string, V>>)
    ensures r.Some? <==> dst.Keys !! src.Keys
    ensures r.Some? ==> r.value == dst + src
  {
    var out := dst;
    var left := src.Keys;
    while left != {}
      invariant left <= src.Keys && dst.Keys !! (src.Keys - left)
      invariant out.Keys == dst.Keys + (src.Keys - left)
      invariant forall k :: k in out ==> out[k] == if k in dst then dst[k] else src[k]
    {
      var k :| k in left;
      if k in out {
        return None;
      }
      left := left - {k};
      out := out[k := src[k]];
    }
    assert out == dst + src;
    return Some(out);
  }
}
