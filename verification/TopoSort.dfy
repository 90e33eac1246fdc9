/** `topo_sort`: a depth-first topological sort over `depends_on` (`src/apps/app.cpp`). */
module TopoSort {
  import opened Compose

  /** Some service `a` depends on `b`. */
  ghost predicate Edge(services: seq<ComposeService>, a: string, b: string) {
    exists i :: 0 <= i < |services| && services[i].name == a && b in services[i].dependsOn
  }

  ghost predicate AllKnown(services: seq<ComposeService>) {
    forall i, dep :: 0 <= i < |services| && dep in services[i].dependsOn ==> dep in Names(services)
  }

  ghost predicate IsPath(services: seq<ComposeService>, p: seq<string>) {
    forall i :: 0 <= i < |p| - 1 ==> Edge(services, p[i], p[i + 1])
  }

  ghost predicate IsCycle(services: seq<ComposeService>, p: seq<string>) {
    |p| >= 2 && IsPath(services, p) && p[0] == p[|p| - 1]
  }

  ghost predicate Acyclic(services: seq<ComposeService>) {
    forall p :: !IsCycle(services, p)
  }

  /** Every dependency comes before the service that has it. */
  ghost predicate DependenciesFirst(out: seq<ComposeService>) {
    forall i, dep :: 0 <= i < |out| && dep in out[i].dependsOn ==> dep in Names(out[..i])
  }

  /** Why sorting failed. */
  datatype TopoError = NoError | DependencyCycle(name: string) | UnknownDependency(service: string, dep: string)

  ghost predicate Justified(services: seq<ComposeService>, err: TopoError) {
    match err
    case NoError => false
    case DependencyCycle(name) => exists p :: IsCycle(services, p) && p[0] == name
    case UnknownDependency(s, dep) => Edge(services, s, dep) && dep !in Names(services)
  }

  // ---- an ordering rules out cycles ----

  ghost function Position(out: seq<ComposeService>, name: string): (i: nat)
    requires name in Names(out)
    ensures i < |out| && out[i].name == name
  {
    var i :| 0 <= i < |out| && out[i].name == name;
    i
  }

  lemma EdgeGoesBack(out: seq<ComposeService>, a: string, b: string)
    requires DistinctNames(out) && DependenciesFirst(out) && Edge(out, a, b)
    ensures a in Names(out) && b in Names(out) && Position(out, b) < Position(out, a)
  {
    var i :| 0 <= i < |out| && out[i].name == a && b in out[i].dependsOn;
    assert b in Names(out[..i]);
    var j :| 0 <= j < |out[..i]| && out[..i][j].name == b;
    assert out[j].name == b;
    assert i == Position(out, a) && j == Position(out, b);
  }

  lemma {:induction false} PathGoesBack(out: seq<ComposeService>, p: seq<string>)
    requires DistinctNames(out) && DependenciesFirst(out) && IsPath(out, p) && |p| >= 2
    ensures p[0] in Names(out) && p[|p| - 1] in Names(out) && Position(out, p[|p| - 1]) < Position(out, p[0])
    decreases |p|
  {
    EdgeGoesBack(out, p[0], p[1]);
    if |p| > 2 {
      PathGoesBack(out, p[1..]);
    }
  }

  lemma SamePaths(services: seq<ComposeService>, out: seq<ComposeService>)
    requires multiset(out) == multiset(services)
    ensures Names(out) == Names(services)
    ensures forall a, b :: Edge(services, a, b) <==> Edge(out, a, b)
  {
    forall s ensures s in out <==> s in services {
      assert s in out <==> s in multiset(out);
      assert s in services <==> s in multiset(services);
    }
    forall a, b ensures Edge(services, a, b) <==> Edge(out, a, b) {
      if Edge(services, a, b) {
        var i :| 0 <= i < |services| && services[i].name == a && b in services[i].dependsOn;
        assert services[i] in out;
      }
      if Edge(out, a, b) {
        var i :| 0 <= i < |out| && out[i].name == a && b in out[i].dependsOn;
        assert out[i] in services;
      }
    }
    forall n ensures n in Names(out) <==> n in Names(services) {
      if n in Names(services) {
        var i :| 0 <= i < |services| && services[i].name == n;
        assert services[i] in out;
      }
      if n in Names(out) {
        var i :| 0 <= i < |out| && out[i].name == n;
        assert out[i] in services;
      }
    }
  }

  /** A permutation with dependencies first exists only when every dependency is known and nothing is cyclic. */
  lemma OrderMeansSortable(services: seq<ComposeService>, out: seq<ComposeService>)
    requires DistinctNames(out) && multiset(out) == multiset(services) && DependenciesFirst(out)
    ensures AllKnown(services) && Acyclic(services)
  {
    SamePaths(services, out);
    forall i, dep | 0 <= i < |services| && dep in services[i].dependsOn ensures dep in Names(services) {
      assert Edge(services, services[i].name, dep);
      EdgeGoesBack(out, services[i].name, dep);
    }
    forall p ensures !IsCycle(services, p) {
      if IsCycle(services, p) {
        assert IsPath(out, p);
        PathGoesBack(out, p);
      }
    }
  }

  /** A justified error rules sortability out. */
  lemma JustifiedMeansUnsortable(services: seq<ComposeService>, err: TopoError)
    requires Justified(services, err)
    ensures !(AllKnown(services) && Acyclic(services))
  {
    if err.UnknownDependency? {
      var i :| 0 <= i < |services| && services[i].name == err.service && err.dep in services[i].dependsOn;
    }
  }

  // ---- the visit ----

  datatype Mark = Visiting | Done

  type Marks = map<string, Mark>

  /** Whatever was known stays known, and what was done stays done. */
  ghost predicate DoneKept(before: Marks, now: Marks) {
    before.Keys <= now.Keys && forall n :: n in before && before[n] == Done ==> now[n] == Done
  }

  ghost predicate IsIndex(services: seq<ComposeService>, byName: map<string, ComposeService>) {
    && DistinctNames(services) && byName.Keys == Names(services)
    && forall n :: n in byName ==> byName[n].name == n && byName[n] in services
  }

  /** The services done are exactly the output, and those being visited are exactly the recursion path. */
  ghost predicate Sound(services: seq<ComposeService>, state: Marks, out: seq<ComposeService>, path: seq<string>) {
    && (forall i :: 0 <= i < |out| ==> out[i] in services)
    && DistinctNames(out) && DependenciesFirst(out) && IsPath(services, path)
    && state.Keys <= Names(services)
    && (forall n :: n in Names(out) <==> n in state && state[n] == Done)
    && (forall n :: n in path <==> n in state && state[n] == Visiting)
  }

  lemma EnterKeeps(services: seq<ComposeService>, state: Marks, out: seq<ComposeService>, path: seq<string>,
                   s: ComposeService)
    requires Sound(services, state, out, path) && s in services && s.name !in state
    requires path != [] ==> Edge(services, path[|path| - 1], s.name)
    ensures Sound(services, state[s.name := Visiting], out, path + [s.name])
  {
    InNames(services, s);
    var state', path' := state[s.name := Visiting], path + [s.name];
    forall n ensures n in path' <==> n in state' && state'[n] == Visiting {
      assert n in path' <==> n in path || n == s.name;
    }
  }

  lemma LeaveKeeps(services: seq<ComposeService>, state: Marks, out: seq<ComposeService>, path: seq<string>,
                   s: ComposeService)
    requires Sound(services, state, out, path + [s.name]) && s in services && s.name !in path
    requires forall dep :: dep in s.dependsOn ==> dep in state && state[dep] == Done
    ensures Sound(services, state[s.name := Done], out + [s], path)
  {
    var path' := path + [s.name];
    assert path'[|path|] == s.name;
    assert forall n :: n in path' <==> n in path || n == s.name;
    NamesSnoc(out, s);
    SnocKeepsOrder(out, s);
    assert forall i :: 0 <= i < |path| ==> path[i] == path'[i];
    forall i | 0 <= i < |path| - 1 ensures Edge(services, path[i], path[i + 1]) {
      assert Edge(services, path'[i], path'[i + 1]);
    }
    forall i, j | 0 <= i < j < |out + [s]| ensures (out + [s])[i].name != (out + [s])[j].name {
      if j == |out| { assert out[i].name in Names(out); }
    }
  }

  lemma VisitingIsOnPath(services: seq<ComposeService>, state: Marks, out: seq<ComposeService>, path: seq<string>,
                         name: string)
    requires Sound(services, state, out, path) && name in state && state[name] == Visiting
    requires path != [] ==> Edge(services, path[|path| - 1], name)
    ensures Justified(services, DependencyCycle(name))
  {
    ClosesCycle(services, path, name);
  }

  class Sorter {
    const services: seq<ComposeService>
    const byName: map<string, ComposeService>
    var state: map<string, Mark>
    var out: seq<ComposeService>
    var err: TopoError

    constructor (services: seq<ComposeService>)
      requires DistinctNames(services)
      ensures this.services == services && Indexed()
      ensures state == map[] && out == [] && err == NoError
    {
      var names: map<string, ComposeService> := map[];
      for i := 0 to |services|
        invariant names.Keys == Names(services[..i])
        invariant forall j :: 0 <= j < i ==> services[j].name in names && names[services[j].name] == services[j]
      {
        assert services[..i + 1] == services[..i] + [services[i]];
        NamesSnoc(services[..i], services[i]);
        names := names[services[i].name := services[i]];
      }
      assert services[..|services|] == services;
      this.services, byName := services, names;
      state, out, err := map[], [], NoError;
    }

    ghost predicate Indexed() {
      IsIndex(services, byName)
    }

    ghost predicate Inv(path: seq<string>)
      reads this
    {
      Indexed() && Sound(services, state, out, path)
    }

    /** The recursive visit; `path` is the chain of services whose visits are under way. */
    method Visit(s: ComposeService, ghost path: seq<string>) returns (ok: bool)
      requires Inv(path) && s in services
      requires path != [] ==> Edge(services, path[|path| - 1], s.name)
      modifies this
      ensures ok ==> Inv(path) && IsDone(s.name)
      ensures ok ==> DoneKept(old(state), state)
      ensures !ok ==> Justified(services, err)
      decreases Names(services) - state.Keys, 0
    {
      InNames(services, s);
      DoneKeptSame(state);
      hide Sound, Justified, Edge, IsIndex, Names, DoneKept;
      if s.name in state {
        if state[s.name] == Done {
          return true;
        }
        err := DependencyCycle(s.name);
        VisitingIsOnPath(services, state, out, path, s.name);
        return false;
      }
      EnterKeeps(services, state, out, path, s);
      NotOnPath(services, state, out, path, s.name);
      state := state[s.name := Visiting];
      FewerLeft(Names(services), old(state), state, s.name);
      ok := VisitDependencies(s, path + [s.name]);
      if !ok {
        return false;
      }
      LeaveKeeps(services, state, out, path, s);
      DoneKeptVisit(old(state), state, s.name);
      state := state[s.name := Done];
      out := out + [s];
      return true;
    }

    method VisitDependencies(s: ComposeService, ghost path: seq<string>) returns (ok: bool)
      requires Inv(path) && s in services && path != [] && path[|path| - 1] == s.name
      modifies this
      ensures ok ==> Inv(path) && forall dep :: dep in s.dependsOn ==> IsDone(dep)
      ensures ok ==> DoneKept(old(state), state)
      ensures !ok ==> Justified(services, err)
      decreases Names(services) - state.Keys, 1
    {
      DoneKeptSame(state);
      hide Sound, Justified, Edge, IsIndex, Names, DoneKept;
      for i := 0 to |s.dependsOn|
        invariant Inv(path) && DoneKept(old(state), state)
        invariant forall j :: 0 <= j < i ==> IsDone(s.dependsOn[j])
      {
        var dep := s.dependsOn[i];
        DependsIsEdge(services, byName, s, i);
        if dep !in byName {
          err := UnknownDependency(s.name, dep);
          UnknownIsJustified(services, s.name, dep);
          return false;
        }
        NoMoreLeft(Names(services), old(state), state);
        ghost var before := state;
        ok := Visit(byName[dep], path);
        if !ok {
          return false;
        }
        DoneKeptOn(old(state), before, state);
        DoneStays(before, state, s.dependsOn, i);
      }
      return true;
    }

    predicate IsDone(n: string)
      reads this`state
    {
      n in state && state[n] == Done
    }
  }

  /** `topo_sort`: it succeeds exactly on known, acyclic dependencies, with a permutation that puts them first. */
  method Sort(services: seq<ComposeService>) returns (ok: bool, out: seq<ComposeService>, err: TopoError)
    requires DistinctNames(services)
    ensures ok <==> AllKnown(services) && Acyclic(services)
    ensures ok ==> multiset(out) == multiset(services) && DistinctNames(out) && DependenciesFirst(out)
    ensures !ok ==> Justified(services, err)
  {
    var sorter := new Sorter(services);
    for i := 0 to |services|
      invariant fresh(sorter) && sorter.services == services && sorter.Inv([])
      invariant forall j :: 0 <= j < i ==> sorter.IsDone(services[j].name)
    {
      var fine := sorter.Visit(services[i], []);
      if !fine {
        JustifiedMeansUnsortable(services, sorter.err);
        return false, [], sorter.err;
      }
    }
    forall n | n in Names(services) ensures n in Names(sorter.out) {
      assert sorter.IsDone(n);
    }
    SameNamesIsPermutation(services, sorter.out);
    OrderMeansSortable(services, sorter.out);
    return true, sorter.out, NoError;
  }

  lemma DoneKeptSame(now: Marks)
    ensures DoneKept(now, now)
  {
  }

  lemma DoneKeptOn(a: Marks, b: Marks, c: Marks)
    requires DoneKept(a, b) && DoneKept(b, c)
    ensures DoneKept(a, c)
  {
  }

  /** Entering a service, going on, and leaving it. */
  lemma DoneKeptVisit(before: Marks, now: Marks, name: string)
    requires name !in before && DoneKept(before[name := Visiting], now)
    ensures DoneKept(before, now[name := Done])
  {
  }

  lemma DoneStays(before: Marks, now: Marks, deps: seq<string>, n: nat)
    requires DoneKept(before, now) && n <= |deps|
    requires forall j :: 0 <= j < n ==> deps[j] in before && before[deps[j]] == Done
    ensures forall j :: 0 <= j < n ==> deps[j] in now && now[deps[j]] == Done
  {
  }

  lemma FewerLeft(all: set<string>, before: Marks, now: Marks, name: string)
    requires now == before[name := Visiting] && name !in before && name in all
    ensures all - now.Keys < all - before.Keys
  {
    assert name in all - before.Keys && name !in all - now.Keys;
  }

  lemma NoMoreLeft(all: set<string>, before: Marks, now: Marks)
    requires DoneKept(before, now)
    ensures all - now.Keys == all - before.Keys || all - now.Keys < all - before.Keys
  {
  }

  lemma DependsIsEdge(services: seq<ComposeService>, byName: map<string, ComposeService>, s: ComposeService, i: nat)
    requires IsIndex(services, byName) && s in services && i < |s.dependsOn|
    ensures var dep := s.dependsOn[i];
      && Edge(services, s.name, dep) && (dep in byName <==> dep in Names(services))
      && (dep in byName ==> byName[dep] in services && byName[dep].name == dep)
  {
  }

  lemma NotOnPath(services: seq<ComposeService>, state: Marks, out: seq<ComposeService>, path: seq<string>,
                  name: string)
    requires Sound(services, state, out, path) && name !in state
    ensures name !in path
  {
  }

  lemma UnknownIsJustified(services: seq<ComposeService>, name: string, dep: string)
    requires Edge(services, name, dep) && dep !in Names(services)
    ensures Justified(services, UnknownDependency(name, dep))
  {
  }

  lemma InNames(services: seq<ComposeService>, s: ComposeService)
    requires s in services
    ensures s.name in Names(services)
  {
    var i :| 0 <= i < |services| && services[i] == s;
    assert services[i].name == s.name;
  }

  /** Coming back to a service on the recursion path closes a cycle. */
  lemma ClosesCycle(services: seq<ComposeService>, path: seq<string>, name: string)
    requires IsPath(services, path) && name in path && Edge(services, path[|path| - 1], name)
    ensures exists p :: IsCycle(services, p) && p[0] == name
  {
    var k :| 0 <= k < |path| && path[k] == name;
    var p := path[k..] + [name];
    forall i | 0 <= i < |p| - 1 ensures Edge(services, p[i], p[i + 1]) {
      assert p[i] == path[k + i];
      if i + 1 < |p| - 1 { assert p[i + 1] == path[k + i + 1]; }
    }
    assert IsCycle(services, p) && p[0] == name;
  }

  lemma SnocKeepsOrder(out: seq<ComposeService>, s: ComposeService)
    requires DependenciesFirst(out) && forall dep :: dep in s.dependsOn ==> dep in Names(out)
    ensures DependenciesFirst(out + [s])
  {
    var all := out + [s];
    forall i, dep | 0 <= i < |all| && dep in all[i].dependsOn ensures dep in Names(all[..i]) {
      assert i < |out| ==> all[..i] == out[..i];
      assert all[..|out|] == out;
    }
  }

  lemma {:induction false} DistinctMeansOnce(services: seq<ComposeService>, s: ComposeService)
    requires DistinctNames(services)
    ensures multiset(services)[s] == if s in services then 1 else 0
  {
    if services != [] {
      var front, last := services[..|services| - 1], services[|services| - 1];
      assert services == front + [last];
      DistinctMeansOnce(front, s);
    }
  }

  lemma SameNamesIsPermutation(services: seq<ComposeService>, out: seq<ComposeService>)
    requires DistinctNames(services) && DistinctNames(out)
    requires forall i :: 0 <= i < |out| ==> out[i] in services
    requires forall n :: n in Names(services) ==> n in Names(out)
    ensures multiset(out) == multiset(services)
  {
    forall s ensures multiset(out)[s] == multiset(services)[s] {
      DistinctMeansOnce(services, s);
      DistinctMeansOnce(out, s);
      if s in services {
        InNames(services, s);
        var i :| 0 <= i < |out| && out[i].name == s.name;
        assert out[i] in services;
      }
    }
  }

  lemma NamesSnoc(services: seq<ComposeService>, s: ComposeService)
    ensures Names(services + [s]) == Names(services) + {s.name}
  {
    var all := services + [s];
    forall n | n in Names(services) ensures n in Names(all) {
      var i :| 0 <= i < |services| && services[i].name == n;
      assert all[i].name == n;
    }
    assert all[|services|].name == s.name;
  }
}
