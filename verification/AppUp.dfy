/** `app_up` as a procedure on the container runtime and the state file (`src/apps/app.cpp`). */
module AppUp {
  import opened Options
  import opened Compose
  import opened TopoSort
  import opened Ports
  import opened Reconcile

  function RecordedIn(store: Option<AppState>): seq<Record> {
    if store.Some? then store.value.services else []
  }

  /** The containers of the machine, the app's state file, and the container commands issued so far. */
  class World {
    var runtime: Runtime
    var store: Option<AppState>
    var log: seq<Command>

    constructor (runtime: Runtime, store: Option<AppState>)
      ensures this.runtime == runtime && this.store == store && log == []
    {
      this.runtime, this.store, log := runtime, store, [];
    }

    method StartContainer(name: string, ok: bool)
      requires name in runtime
      modifies this`runtime, this`log
      ensures runtime == if ok then old(runtime)[name := old(runtime)[name].(running := true)] else old(runtime)
      ensures log == old(log) + [Start(name)]
    {
      log := log + [Start(name)];
      if ok {
        runtime := runtime[name := runtime[name].(running := true)];
      }
    }

    /** `stop`, then `rm -f`; neither outcome is looked at. */
    method DiscardContainer(name: string, luck: Luck)
      modifies this`runtime, this`log
      ensures runtime == Discard(name, luck, old(runtime)) && log == old(log) + [Stop(name), Rm(name)]
    {
      log := log + [Stop(name)];
      if luck.stopOk && name in runtime {
        runtime := runtime[name := runtime[name].(running := false)];
      }
      log := log + [Rm(name)];
      if luck.rmOk {
        runtime := runtime - {name};
      }
    }

    /** `run`, which the runtime refuses when the name is taken. */
    method RunContainer(name: string, made: Fingerprint, ports: seq<PortMapping>, luck: Luck) returns (ok: bool)
      modifies this`runtime, this`log
      ensures ok <==> luck.runOk && name !in old(runtime)
      ensures runtime == if ok then old(runtime)[name := Container(true, made)] else old(runtime)
      ensures log == old(log) + [Run(name, ports)]
    {
      log := log + [Run(name, ports)];
      ok := luck.runOk && name !in runtime;
      if ok {
        runtime := runtime[name := Container(true, made)];
      }
    }

    method DecideService(name: string, s: ComposeService, recorded: seq<Record>, luck: Luck) returns (needsRun: bool)
      modifies this`runtime, this`log
      ensures var d := Decide(name, s, recorded, luck, old(runtime));
        needsRun == d.needsRun && runtime == d.runtime && log == old(log) + d.log
    {
      needsRun := true;
      var fingerprint := FingerprintOf(s);
      for i := 0 to |recorded|
        invariant var d := Decide(name, s, recorded[..i], luck, old(runtime));
          needsRun == d.needsRun && runtime == d.runtime && log == old(log) + d.log
      {
        assert recorded[..i + 1][..i] == recorded[..i];
        if recorded[i].service != s.name {
          continue;
        }
        if recorded[i].hash == fingerprint {
          var running := luck.listOk && name in runtime && runtime[name].running;
          var exists_ := luck.listAllOk && name in runtime;
          if running {
            needsRun := false;
          } else if exists_ {
            needsRun := false;
            StartContainer(name, luck.startOk);
          }
        }
      }
      assert recorded[..|recorded|] == recorded;
    }

    /** One turn of the loop: decide, discard, pick ports, run, record. */
    method UpService(app: string, s: ComposeService, recorded: seq<Record>, luck: Luck, claimed: set<Port>,
                     records: seq<Record>,
                     ghost log0: seq<Command>)
      returns (ok: bool, claimed': set<Port>, records': seq<Record>)
      requires log0 <= log
      modifies this`runtime, this`log
      ensures log0 <= log
      ensures Progress(runtime, claimed', records', log[|log0|..], ok)
        == StepService(app, recorded, s, luck, Progress(old(runtime), claimed, records, old(log)[|log0|..], true))
    {
      hide Decide, Discard, Pick;
      var name := ContainerName(app, s.name);
      var needsRun := DecideService(name, s, recorded, luck);
      if needsRun {
        DiscardContainer(name, luck);
      }
      var ports;
      ports, claimed' := PickPorts(s.ports, luck.inUse, claimed);
      if needsRun {
        ok := RunContainer(name, FingerprintOf(s), ports, luck);
        if !ok {
          records' := records;
          return;
        }
      } else {
        ports := LastRecordedPorts(recorded, s.name, ports);
        ok := true;
      }
      records' := records + [Record(s.name, name, s.image, FingerprintOf(s), ports)];
    }

    /** The whole command; `sorted` is the topological order it worked through, if there was one. */
    method Up(app: string, composePath: string, services: seq<ComposeService>, lucks: seq<Luck>, saveOk: bool)
      returns (ok: bool, ghost sorted: Option<seq<ComposeService>>)
      requires DistinctNames(services) && |lucks| == |services|
      modifies this
      ensures sorted.Some? <==> AllKnown(services) && Acyclic(services)
      ensures sorted.None? ==> !ok && runtime == old(runtime) && store == old(store) && log == old(log)
      ensures sorted.Some? ==>
        && |sorted.value| == |services| && multiset(sorted.value) == multiset(services)
        && DistinctNames(sorted.value) && DependenciesFirst(sorted.value)
        && var u := UpAll(app, RecordedIn(old(store)), sorted.value, lucks, old(runtime));
           && ok == (u.ok && saveOk) && runtime == u.runtime && log == old(log) + u.log
           && store == if ok then Some(AppState(app, composePath, u.records)) else old(store)
    {
      hide StepService, AllKnown, Acyclic, DependenciesFirst, DistinctNames;
      var fine, ordered, err := Sort(services);
      if !fine {
        return false, None;
      }
      assert |ordered| == |multiset(ordered)| == |services|;
      sorted := Some(ordered);
      var recorded := RecordedIn(store);
      var claimed, records := {}, [];
      ok := true;
      var i := 0;
      while i < |ordered|
        invariant 0 <= i <= |ordered| && store == old(store) && old(log) <= log && ok
        invariant Progress(runtime, claimed, records, log[|old(log)|..], ok)
          == UpAll(app, recorded, ordered[..i], lucks[..i], old(runtime))
      {
        assert ordered[..i + 1] == ordered[..i] + [ordered[i]] && lucks[..i + 1] == lucks[..i] + [lucks[i]];
        UpAllSnoc(app, recorded, ordered[..i], lucks[..i], ordered[i], lucks[i], old(runtime));
        ok, claimed, records := UpService(app, ordered[i], recorded, lucks[i], claimed, records, old(log));
        i := i + 1;
        if !ok {
          FailureIsFinal(app, recorded, ordered, lucks, old(runtime), i);
          return;
        }
      }
      assert ordered[..|ordered|] == ordered && lucks[..|ordered|] == lucks;
      if !saveOk {
        return false, sorted;
      }
      store := Some(AppState(app, composePath, records));
    }
  }

  method LastRecordedPorts(recorded: seq<Record>, service: string, otherwise: seq<PortMapping>)
    returns (ports: seq<PortMapping>)
    ensures ports == RecordedPorts(recorded, service, otherwise)
  {
    ports := otherwise;
    for i := 0 to |recorded|
      invariant ports == RecordedPorts(recorded[..i], service, otherwise)
    {
      assert recorded[..i + 1][..i] == recorded[..i];
      if recorded[i].service == service {
        ports := recorded[i].ports;
      }
    }
    assert recorded[..|recorded|] == recorded;
  }
}
