/** The shell registry's plugin table: registration, and the memoised depth-first search
    that decides whether a plugin's dependencies are all there. */
module PluginStatus {
  import opened Wrappers

  const MAX_PLUGINS: nat := 64

  datatype Dependency = Dependency(id: string, version: string)

  // `path` is present on ROUTE contributions only.
  datatype Contribution = Contribution(id: string, path: Option<string>)

  datatype Plugin = Plugin(
    id: string, version: string, enabled: bool,
    contributions: seq<Contribution>, dependencies: seq<Dependency>)

  type Plugins = map<string, Plugin>

  datatype Status = Registered | Disabled | MissingDependency | Denied

  // ---------------------------------------------------------------------------
  // The meaning of REGISTERED: derivable by finitely many uses of the rule "present,
  // enabled, and every dependency present in the exact version and itself REGISTERED".

  predicate Matches(ps: Plugins, d: Dependency) {
    d.id in ps && ps[d.id].version == d.version
  }

  predicate Derivable(ps: Plugins, id: string, n: nat)
    decreases n
  {
    n > 0 && id in ps && ps[id].enabled &&
    forall i :: 0 <= i < |ps[id].dependencies| ==>
      Matches(ps, ps[id].dependencies[i]) && Derivable(ps, ps[id].dependencies[i].id, n - 1)
  }

  ghost predicate IsRegistered(ps: Plugins, id: string) {
    exists n: nat :: Derivable(ps, id, n)
  }

  ghost predicate Supported(ps: Plugins, id: string) {
    id in ps && ps[id].enabled &&
    forall i :: 0 <= i < |ps[id].dependencies| ==>
      Matches(ps, ps[id].dependencies[i]) && IsRegistered(ps, ps[id].dependencies[i].id)
  }

  ghost function Exact(ps: Plugins, id: string): Status {
    if id !in ps then Denied
    else if !ps[id].enabled then Disabled
    else if IsRegistered(ps, id) then Registered
    else MissingDependency
  }

  lemma {:induction false} DerivableMore(ps: Plugins, id: string, n: nat, m: nat)
    requires Derivable(ps, id, n) && n <= m
    ensures Derivable(ps, id, m)
    decreases n
  {
    forall i | 0 <= i < |ps[id].dependencies|
      ensures Derivable(ps, ps[id].dependencies[i].id, m - 1)
    {
      DerivableMore(ps, ps[id].dependencies[i].id, n - 1, m - 1);
    }
  }

  /** One depth serves all of the first `k` dependencies. */
  lemma {:induction false} CommonDepth(ps: Plugins, id: string, k: nat) returns (n: nat)
    requires Supported(ps, id) && k <= |ps[id].dependencies|
    ensures forall i :: 0 <= i < k ==> Derivable(ps, ps[id].dependencies[i].id, n)
  {
    if k == 0 {
      n := 0;
    } else {
      var rest := CommonDepth(ps, id, k - 1);
      var last: nat :| Derivable(ps, ps[id].dependencies[k - 1].id, last);
      n := if rest < last then last else rest;
      forall i | 0 <= i < k ensures Derivable(ps, ps[id].dependencies[i].id, n) {
        DerivableMore(ps, ps[id].dependencies[i].id, if i < k - 1 then rest else last, n);
      }
    }
  }

  /** REGISTERED is a fixpoint of the rule. */
  lemma RegisteredIsFixpoint(ps: Plugins, id: string)
    ensures IsRegistered(ps, id) <==> Supported(ps, id)
  {
    if IsRegistered(ps, id) {
      var n: nat :| Derivable(ps, id, n);
      forall i | 0 <= i < |ps[id].dependencies|
        ensures IsRegistered(ps, ps[id].dependencies[i].id)
      {
        assert Derivable(ps, ps[id].dependencies[i].id, n - 1);
      }
    }
    if Supported(ps, id) {
      var n := CommonDepth(ps, id, |ps[id].dependencies|);
      assert Derivable(ps, id, n + 1);
    }
  }

  /** The other three answers: absent, present but disabled, or present and enabled with a
      dependency that is absent, of another version, or not REGISTERED itself. */
  lemma ExactMeans(ps: Plugins, id: string)
    ensures Exact(ps, id) == Denied <==> id !in ps
    ensures Exact(ps, id) == Disabled <==> id in ps && !ps[id].enabled
    ensures Exact(ps, id) == Registered <==> IsRegistered(ps, id)
    ensures Exact(ps, id) == MissingDependency <==>
            && id in ps && ps[id].enabled
            && exists i :: 0 <= i < |ps[id].dependencies| && Fails(ps, ps[id].dependencies[i])
  {
    RegisteredIsFixpoint(ps, id);
    if id in ps && ps[id].enabled {
      if Supported(ps, id) {
        assert forall i :: 0 <= i < |ps[id].dependencies| ==> !Fails(ps, ps[id].dependencies[i]);
      } else {
        var i :| 0 <= i < |ps[id].dependencies|
          && !(Matches(ps, ps[id].dependencies[i]) && IsRegistered(ps, ps[id].dependencies[i].id));
        assert Fails(ps, ps[id].dependencies[i]);
      }
    }
  }

  ghost predicate Fails(ps: Plugins, d: Dependency) {
    d.id !in ps || ps[d.id].version != d.version || Exact(ps, d.id) != Registered
  }

  ghost predicate RuleAdmits(ps: Plugins, closed: iset<string>, id: string) {
    id in ps && ps[id].enabled &&
    forall i :: 0 <= i < |ps[id].dependencies| ==>
      Matches(ps, ps[id].dependencies[i]) && ps[id].dependencies[i].id in closed
  }

  /** It is the least one: it lies inside every set closed under the rule. */
  lemma RegisteredIsLeast(ps: Plugins, closed: iset<string>, id: string)
    requires forall x :: RuleAdmits(ps, closed, x) ==> x in closed
    requires IsRegistered(ps, id)
    ensures id in closed
  {
    var n: nat :| Derivable(ps, id, n);
    DerivableInside(ps, closed, id, n);
  }

  lemma {:induction false} DerivableInside(ps: Plugins, closed: iset<string>, id: string, n: nat)
    requires forall x :: RuleAdmits(ps, closed, x) ==> x in closed
    requires Derivable(ps, id, n)
    ensures id in closed
    decreases n
  {
    forall i | 0 <= i < |ps[id].dependencies| ensures ps[id].dependencies[i].id in closed {
      DerivableInside(ps, closed, ps[id].dependencies[i].id, n - 1);
    }
    assert RuleAdmits(ps, closed, id);
  }

  // ---------------------------------------------------------------------------
  // Dependency paths.

  predicate Edge(ps: Plugins, a: string, b: string) {
    a in ps && exists i :: 0 <= i < |ps[a].dependencies| && ps[a].dependencies[i].id == b
  }

  ghost predicate ReachesIn(ps: Plugins, a: string, b: string, n: nat)
    decreases n
  {
    if n == 0 then a == b
    else exists c :: ReachesIn(ps, a, c, n - 1) && Edge(ps, c, b)
  }

  /** A dependency path of at least one edge. */
  ghost predicate Reaches(ps: Plugins, a: string, b: string) {
    exists n: nat :: n > 0 && ReachesIn(ps, a, b, n)
  }

  lemma ReachesStep(ps: Plugins, a: string, b: string, c: string)
    requires (a == b || Reaches(ps, a, b)) && Edge(ps, b, c)
    ensures Reaches(ps, a, c)
  {
    var n: nat :| if a == b then n == 0 else n > 0 && ReachesIn(ps, a, b, n);
    assert ReachesIn(ps, a, b, n);
    assert ReachesIn(ps, a, c, n + 1);
  }

  /** Along a path the derivation depth falls by one per edge. */
  lemma {:induction false} DepthFalls(ps: Plugins, a: string, b: string, n: nat, depth: nat)
    requires ReachesIn(ps, a, b, n) && Derivable(ps, a, depth)
    ensures n < depth && Derivable(ps, b, depth - n)
    decreases n
  {
    if n > 0 {
      var c :| ReachesIn(ps, a, c, n - 1) && Edge(ps, c, b);
      DepthFalls(ps, a, c, n - 1, depth);
    }
  }

  lemma {:induction false} NoDerivationOnCycle(ps: Plugins, id: string, n: nat, depth: nat)
    requires n > 0 && ReachesIn(ps, id, id, n)
    ensures !Derivable(ps, id, depth)
    decreases depth
  {
    if Derivable(ps, id, depth) {
      DepthFalls(ps, id, id, n, depth);
      NoDerivationOnCycle(ps, id, n, depth - n);
    }
  }

  lemma CycleIsNotRegistered(ps: Plugins, id: string)
    requires Reaches(ps, id, id)
    ensures !IsRegistered(ps, id)
  {
    var n: nat :| n > 0 && ReachesIn(ps, id, id, n);
    forall depth: nat ensures !Derivable(ps, id, depth) {
      NoDerivationOnCycle(ps, id, n, depth);
    }
  }

  predicate Sane(ps: Plugins, id: string) {
    id in ps && ps[id].enabled &&
    forall i :: 0 <= i < |ps[id].dependencies| ==> Matches(ps, ps[id].dependencies[i])
  }

  /** `id` and everything it reaches is sane, and no cycle can be reached. */
  ghost predicate SaneBelow(ps: Plugins, id: string) {
    && Sane(ps, id) && !Reaches(ps, id, id)
    && forall x :: Reaches(ps, id, x) ==> Sane(ps, x) && !Reaches(ps, x, x)
  }

  /** REGISTERED in the words of the graph: the plugin and everything it reaches are
      present, enabled and exactly versioned, and no cycle can be reached. */
  lemma RegisteredIffAcyclic(ps: Plugins, id: string)
    ensures IsRegistered(ps, id) <==> SaneBelow(ps, id)
  {
    if IsRegistered(ps, id) {
      var depth: nat :| Derivable(ps, id, depth);
      forall x | x == id || Reaches(ps, id, x) ensures Sane(ps, x) && !Reaches(ps, x, x) {
        var n: nat :| if x == id then n == 0 else n > 0 && ReachesIn(ps, id, x, n);
        DepthFalls(ps, id, x, n, depth);
        assert IsRegistered(ps, x);
        if Reaches(ps, x, x) {
          CycleIsNotRegistered(ps, x);
        }
      }
    }
    if SaneBelow(ps, id) {
      AcyclicIsRegistered(ps, id, id, {});
    }
  }

  lemma {:induction false} AcyclicIsRegistered(ps: Plugins, root: string, id: string, above: set<string>)
    requires SaneBelow(ps, root)
    requires id == root || Reaches(ps, root, id)
    requires above <= ps.Keys && forall v :: v in above ==> Reaches(ps, v, id)
    ensures IsRegistered(ps, id)
    decreases |ps.Keys - above|
  {
    hide Reaches, IsRegistered;
    assert Sane(ps, id);
    assert id in ps.Keys - above;
    SmallerSet(ps.Keys - (above + {id}), ps.Keys - above);
    forall i | 0 <= i < |ps[id].dependencies|
      ensures Matches(ps, ps[id].dependencies[i]) && IsRegistered(ps, ps[id].dependencies[i].id)
    {
      var d := ps[id].dependencies[i].id;
      assert Edge(ps, id, d);
      ReachesStep(ps, root, id, d);
      forall v | v in above + {id} ensures Reaches(ps, v, d) {
        ReachesStep(ps, v, id, d);
      }
      AcyclicIsRegistered(ps, root, d, above + {id});
    }
    RegisteredIsFixpoint(ps, id);
  }

  lemma {:induction false} SmallerSet(a: set<string>, b: set<string>)
    requires a < b
    ensures |a| < |b|
  {
    var x :| x in b && x !in a;
    if a == {} {
      assert |b| > 0;
    } else {
      var y :| y in a;
      SmallerSet(a - {y}, b - {y});
    }
  }

  // ---------------------------------------------------------------------------
  // The search.

  class StatusSearch {
    const plugins: Plugins
    var memo: map<string, Status>
    var visiting: set<string>

    constructor (plugins: Plugins)
      ensures this.plugins == plugins && Valid() && visiting == {}
    {
      this.plugins := plugins;
      memo, visiting := map[], {};
    }

    /** What is memoised is exact, even while ancestors are still being visited. */
    ghost predicate Valid()
      reads this
    {
      && visiting <= plugins.Keys
      && forall id :: id in memo ==> memo[id] == Exact(plugins, id)
    }

    method Visit(id: string) returns (state: Status)
      requires Valid()
      requires forall v :: v in visiting ==> Reaches(plugins, v, id)
      modifies this
      ensures Valid() && visiting == old(visiting)
      ensures state == Exact(plugins, id)
      decreases |plugins.Keys - visiting|
    {
      hide Reaches, IsRegistered;
      if id in memo {
        return memo[id];
      }
      if id !in plugins {
        return Denied;
      }
      var plugin := plugins[id];
      if !plugin.enabled {
        return Disabled;
      }
      if id in visiting {
        CycleIsNotRegistered(plugins, id);
        return MissingDependency;
      }
      assert id in plugins.Keys - visiting;
      SmallerSet(plugins.Keys - (visiting + {id}), plugins.Keys - visiting);
      RegisteredIsFixpoint(plugins, id);
      visiting := visiting + {id};
      state := Registered;
      var i := 0;
      while i < |plugin.dependencies| && state == Registered
        invariant 0 <= i <= |plugin.dependencies|
        invariant Valid() && visiting == old(visiting) + {id}
        invariant state == Registered ==>
          forall j :: 0 <= j < i ==>
            Matches(plugins, plugin.dependencies[j]) && IsRegistered(plugins, plugin.dependencies[j].id)
        invariant state == Registered || (state == MissingDependency && !IsRegistered(plugins, id))
      {
        var dependency := plugin.dependencies[i];
        if !(dependency.id in plugins && plugins[dependency.id].version == dependency.version) {
          state := MissingDependency;
        } else {
          assert Edge(plugins, id, dependency.id);
          forall v | v in visiting ensures Reaches(plugins, v, dependency.id) {
            ReachesStep(plugins, v, id, dependency.id);
          }
          var below := Visit(dependency.id);
          RegisteredIsFixpoint(plugins, dependency.id);
          if below != Registered {
            state := MissingDependency;
          }
        }
        i := i + 1;
      }
      visiting := visiting - {id};
      memo := memo[id := state];
    }
  }

  /** `status`: a fresh search, so the answer is exact for every plugin table. */
  method StatusOf(plugins: Plugins, id: string) returns (state: Status)
    ensures state == Exact(plugins, id)
  {
    var search := new StatusSearch(plugins);
    state := search.Visit(id);
  }

  // ---------------------------------------------------------------------------
  // Registration.

  /** Adding plugins never takes REGISTERED from another; removing never gives it. */
  lemma MorePluginsKeepRegistered(ps: Plugins, more: Plugins, id: string)
    requires forall x :: x in ps ==> x in more && more[x] == ps[x]
    requires IsRegistered(ps, id)
    ensures IsRegistered(more, id)
  {
    var n: nat :| Derivable(ps, id, n);
    DerivableInMore(ps, more, id, n);
  }

  lemma {:induction false} DerivableInMore(ps: Plugins, more: Plugins, id: string, n: nat)
    requires forall x :: x in ps ==> x in more && more[x] == ps[x]
    requires Derivable(ps, id, n)
    ensures Derivable(more, id, n)
    decreases n
  {
    forall i | 0 <= i < |ps[id].dependencies|
      ensures Matches(more, ps[id].dependencies[i]) && Derivable(more, ps[id].dependencies[i].id, n - 1)
    {
      DerivableInMore(ps, more, ps[id].dependencies[i].id, n - 1);
    }
  }

  /** What descriptor validation establishes within one plugin: distinct contribution ids,
      distinct paths. */
  predicate WellFormed(p: Plugin) {
    forall i, j :: 0 <= i < j < |p.contributions| ==> !Clash(p.contributions[i], p.contributions[j])
  }

  predicate Clash(a: Contribution, b: Contribution) {
    a.id == b.id || (a.path.Some? && a.path == b.path)
  }

  predicate PluginsClash(p: Plugin, q: Plugin) {
    exists i, j :: 0 <= i < |p.contributions| && 0 <= j < |q.contributions| &&
      Clash(p.contributions[i], q.contributions[j])
  }

  /** No conflict within or between plugins. */
  ghost predicate NoConflicts(ps: Plugins) {
    && (forall id :: id in ps ==> WellFormed(ps[id]))
    && (forall a, b :: a in ps && b in ps && a != b ==> !PluginsClash(ps[a], ps[b]))
  }

  predicate IsAt(ps: Plugins, id: string, i: nat, c: Contribution) {
    id in ps && i < |ps[id].contributions| && ps[id].contributions[i] == c
  }

  /** What that means: across the whole shell, a contribution id names one contribution of
      one plugin, and so does a path. */
  lemma NamesAreUnique(ps: Plugins, a: string, i: nat, c: Contribution, b: string, j: nat, e: Contribution)
    requires NoConflicts(ps) && IsAt(ps, a, i, c) && IsAt(ps, b, j, e)
    requires c.id == e.id || (c.path.Some? && e.path.Some? && c.path.value == e.path.value)
    ensures a == b && i == j
  {
    assert Clash(c, e) && Clash(e, c);
    if a != b {
      assert PluginsClash(ps[a], ps[b]);
    } else {
      assert WellFormed(ps[a]);
    }
  }

  class PluginTable {
    var plugins: Plugins

    /** Ids and paths are unique across the whole shell, so an id or path names one
        contribution of one plugin. */
    ghost predicate Valid()
      reads this
    {
      && |plugins| <= MAX_PLUGINS
      && (forall id :: id in plugins ==> plugins[id].id == id)
      && NoConflicts(plugins)
    }

    constructor ()
      ensures Valid() && plugins == map[]
    {
      plugins := map[];
    }

    /** A conflicting descriptor changes nothing; any other is added, takes REGISTERED from
        nobody, and gets its exact status. */
    method Register(descriptor: Plugin) returns (accepted: bool, state: Status)
      requires Valid() && WellFormed(descriptor)
      modifies this
      ensures Valid()
      ensures accepted <==>
        && descriptor.id !in old(plugins) && |old(plugins)| < MAX_PLUGINS
        && forall id :: id in old(plugins) ==> !PluginsClash(descriptor, old(plugins)[id])
      ensures plugins == if accepted then old(plugins)[descriptor.id := descriptor] else old(plugins)
      ensures state == if accepted then Exact(plugins, descriptor.id) else Denied
      ensures forall id :: IsRegistered(old(plugins), id) ==> IsRegistered(plugins, id)
    {
      var conflict := descriptor.id in plugins || |plugins| >= MAX_PLUGINS ||
                      exists id :: id in plugins && PluginsClash(descriptor, plugins[id]);
      if conflict {
        return false, Denied;
      }
      ghost var before := plugins;
      plugins := plugins[descriptor.id := descriptor];
      forall id | IsRegistered(before, id) ensures IsRegistered(plugins, id) {
        MorePluginsKeepRegistered(before, plugins, id);
      }
      forall a, b | a in plugins && b in plugins && a != b
        ensures !PluginsClash(plugins[a], plugins[b])
      {
        ClashIsSymmetric(plugins[a], plugins[b]);
      }
      state := StatusOf(plugins, descriptor.id);
      return true, state;
    }
  }

  lemma ClashIsSymmetric(p: Plugin, q: Plugin)
    ensures PluginsClash(p, q) <==> PluginsClash(q, p)
  {
    if PluginsClash(p, q) {
      var i, j :| 0 <= i < |p.contributions| && 0 <= j < |q.contributions| &&
        Clash(p.contributions[i], q.contributions[j]);
      assert Clash(q.contributions[j], p.contributions[i]);
    }
    if PluginsClash(q, p) {
      var i, j :| 0 <= i < |q.contributions| && 0 <= j < |p.contributions| &&
        Clash(q.contributions[i], p.contributions[j]);
      assert Clash(p.contributions[j], q.contributions[i]);
    }
  }
}
