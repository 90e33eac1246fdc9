/** The reconcile loop of `app_up` over a container runtime and a state file (`src/apps/app.cpp`). */
module Reconcile {
  import opened Compose
  import opened Ports

  /** What `config_fingerprint` hashes; the hash is taken to be injective. */
  datatype Fingerprint = Fingerprint(image: string, settings: string, ports: seq<PortMapping>)

  function FingerprintOf(s: ComposeService): Fingerprint {
    Fingerprint(s.image, s.settings, s.ports)
  }

  /** Configurations have the same fingerprint exactly if image, settings and ports agree. */
  lemma FingerprintTells(s: ComposeService, t: ComposeService)
    ensures FingerprintOf(s) == FingerprintOf(t)
      <==> s.image == t.image && s.settings == t.settings && s.ports == t.ports
  {
  }

  /** A container and the configuration it was created with. */
  datatype Container = Container(running: bool, made: Fingerprint)

  type Runtime = map<string, Container>

  /** One entry of the state file. */
  datatype Record = Record(
    service: string, container: string, image: string, hash: Fingerprint, ports: seq<PortMapping>)

  datatype AppState = AppState(name: string, composePath: string, services: seq<Record>)

  datatype Command =
    | Start(name: string)
    | Stop(name: string)
    | Rm(name: string)
    | Run(name: string, ports: seq<PortMapping>)

  /** How the calls made for one service turn out, and which ports were found in use meanwhile. */
  datatype Luck = Luck(listOk: bool, listAllOk: bool, startOk: bool, stopOk: bool, rmOk: bool, runOk: bool,
    inUse: set<Port>)

  function ContainerName(app: string, service: string): string {
    app + "-" + service
  }

  // ---- deciding whether to recreate ----

  datatype Decision = Decision(needsRun: bool, runtime: Runtime, log: seq<Command>)

  predicate Unchanged(r: Record, s: ComposeService) {
    r.service == s.name && r.hash == FingerprintOf(s)
  }

  /** The scan of the recorded services; a stopped container with an unchanged configuration is started. */
  function Decide(name: string, s: ComposeService, recorded: seq<Record>, luck: Luck, rt: Runtime): Decision
    decreases |recorded|
  {
    if recorded == [] then Decision(true, rt, [])
    else
      var d := Decide(name, s, recorded[..|recorded| - 1], luck, rt);
      if !Unchanged(recorded[|recorded| - 1], s) then d
      else if luck.listOk && name in d.runtime && d.runtime[name].running then d.(needsRun := false)
      else if luck.listAllOk && name in d.runtime then
        Decision(false,
                 if luck.startOk then d.runtime[name := d.runtime[name].(running := true)] else d.runtime,
                 d.log + [Start(name)])
      else d
  }

  /** `stop` and `rm -f` of the stale container; failures are ignored. */
  function Discard(name: string, luck: Luck, rt: Runtime): Runtime {
    if name !in rt then rt
    else if luck.rmOk then rt - {name}
    else if luck.stopOk then rt[name := rt[name].(running := false)]
    else rt
  }

  /** The ports recorded for a service, the last record counting. */
  function RecordedPorts(recorded: seq<Record>, service: string, otherwise: seq<PortMapping>): seq<PortMapping>
    decreases |recorded|
  {
    if recorded == [] then otherwise
    else if recorded[|recorded| - 1].service == service then recorded[|recorded| - 1].ports
    else RecordedPorts(recorded[..|recorded| - 1], service, otherwise)
  }

  // ---- one service, and all of them ----

  /** The run so far: the runtime, the ports claimed, the new state, the commands issued, and whether it goes on. */
  datatype Progress = Progress(runtime: Runtime, claimed: set<Port>, records: seq<Record>, log: seq<Command>, ok: bool)

  function StepService(app: string, recorded: seq<Record>, s: ComposeService, luck: Luck, u: Progress): Progress {
    var name := ContainerName(app, s.name);
    var d := Decide(name, s, recorded, luck, u.runtime);
    var (picked, claimed) := Pick(s.ports, luck.inUse, u.claimed);
    if !d.needsRun then
      var ports := RecordedPorts(recorded, s.name, picked);
      Progress(d.runtime, claimed, u.records + [Record(s.name, name, s.image, FingerprintOf(s), ports)], u.log + d.log,
        true)
    else
      var rt := Discard(name, luck, d.runtime);
      var log := u.log + d.log + [Stop(name), Rm(name), Run(name, picked)];
      if !luck.runOk || name in rt then Progress(rt, claimed, u.records, log, false)
      else
        Progress(rt[name := Container(true, FingerprintOf(s))], claimed,
           u.records + [Record(s.name, name, s.image, FingerprintOf(s), picked)], log, true)
  }

  /** The services in order, stopping at the first that cannot be started. */
  function UpAll(app: string, recorded: seq<Record>, services: seq<ComposeService>, lucks: seq<Luck>,
                 rt: Runtime): Progress
    requires |lucks| == |services|
    decreases |services|
  {
    if services == [] then Progress(rt, {}, [], [], true)
    else
      var n := |services| - 1;
      var u := UpAll(app, recorded, services[..n], lucks[..n], rt);
      if u.ok then StepService(app, recorded, services[n], lucks[n], u) else u
  }

  // ---- one decision ----

  /** The service keeps its container: some record has its configuration and the container is seen. */
  ghost predicate Keeps(name: string, s: ComposeService, recorded: seq<Record>, luck: Luck, rt: Runtime) {
    && (exists i :: 0 <= i < |recorded| && Unchanged(recorded[i], s))
    && name in rt && (luck.listAllOk || (luck.listOk && rt[name].running))
  }

  /** A container is recreated unless it exists with the recorded configuration; deciding starts containers, no more. */
  lemma {:induction false} DecideExact(name: string, s: ComposeService, recorded: seq<Record>, luck: Luck, rt: Runtime)
    ensures var d := Decide(name, s, recorded, luck, rt);
      && (d.needsRun <==> !Keeps(name, s, recorded, luck, rt))
      && d.runtime.Keys == rt.Keys
      && (forall n :: n in rt && n != name ==> d.runtime[n] == rt[n])
      && (name in rt ==> d.runtime[name].made == rt[name].made && (rt[name].running ==> d.runtime[name].running))
      && (d.needsRun ==> d.runtime == rt && d.log == [])
      && (forall i :: 0 <= i < |d.log| ==> d.log[i] == Start(name))
      && (Keeps(name, s, recorded, luck, rt) ==>
            && (d.runtime[name].running <==> rt[name].running || luck.startOk)
            && (d.log == [] <==> luck.listOk && rt[name].running))
    decreases |recorded|
  {
    if recorded != [] {
      var front, last := recorded[..|recorded| - 1], recorded[|recorded| - 1];
      DecideExact(name, s, front, luck, rt);
      assert forall i :: 0 <= i < |front| ==> front[i] == recorded[i];
      if Unchanged(last, s) {
        assert recorded[|front|] == last;
      } else {
        assert forall i :: 0 <= i < |recorded| && Unchanged(recorded[i], s) ==> i < |front|;
      }
    }
  }

  /** The last record of a service tells its ports. */
  lemma {:induction false} RecordedPortsFound(recorded: seq<Record>, i: nat, otherwise: seq<PortMapping>)
    requires i < |recorded| && forall j :: i < j < |recorded| ==> recorded[j].service != recorded[i].service
    ensures RecordedPorts(recorded, recorded[i].service, otherwise) == recorded[i].ports
    decreases |recorded|
  {
    if i < |recorded| - 1 {
      RecordedPortsFound(recorded[..|recorded| - 1], i, otherwise);
    }
  }

  // ---- convergence ----

  lemma ContainerNamesDiffer(app: string, a: string, b: string)
    requires a != b
    ensures ContainerName(app, a) != ContainerName(app, b)
  {
    var prefix := app + "-";
    assert ContainerName(app, a)[|prefix|..] == a && ContainerName(app, b)[|prefix|..] == b;
  }

  ghost predicate Has(rt: Runtime, name: string, made: Fingerprint) {
    name in rt && rt[name].made == made
  }

  /** No container but `name` differs. */
  ghost predicate SameExcept(rt: Runtime, rt': Runtime, name: string) {
    forall n :: n != name ==> (n in rt' <==> n in rt) && (n in rt ==> rt'[n] == rt[n])
  }

  /** What a successful run that found `rt` and left `rt'` did for one service: its record and its container. */
  ghost predicate Served(app: string, recorded: seq<Record>, s: ComposeService, luck: Luck, rt: Runtime, r: Record,
                         rt': Runtime) {
    var name := ContainerName(app, s.name);
    && r.service == s.name && r.container == name && r.image == s.image && r.hash == FingerprintOf(s)
    && Has(rt', name, if Keeps(name, s, recorded, luck, rt) then rt[name].made else FingerprintOf(s))
    && (rt'[name].running <==> (Keeps(name, s, recorded, luck, rt) ==> rt[name].running || luck.startOk))
  }

  lemma StepEffect(app: string, recorded: seq<Record>, s: ComposeService, luck: Luck, u: Progress)
    requires StepService(app, recorded, s, luck, u).ok
    ensures var u', n := StepService(app, recorded, s, luck, u), |u.records|;
      && |u'.records| == n + 1 && u'.records[..n] == u.records
      && Served(app, recorded, s, luck, u.runtime, u'.records[n], u'.runtime)
      && SameExcept(u.runtime, u'.runtime, ContainerName(app, s.name))
  {
    DecideExact(ContainerName(app, s.name), s, recorded, luck, u.runtime);
  }

  /** Containers of none of the services are as before. */
  ghost predicate OthersSpared(app: string, services: seq<ComposeService>, rt: Runtime, rt': Runtime) {
    forall n :: (forall i :: 0 <= i < |services| ==> n != ContainerName(app, services[i].name)) ==>
      (n in rt' <==> n in rt) && (n in rt ==> rt'[n] == rt[n])
  }

  /** Everything a successful run leaves behind, service by service. */
  ghost predicate Result(app: string, recorded: seq<Record>, services: seq<ComposeService>, lucks: seq<Luck>,
                         rt: Runtime, u: Progress)
    requires |lucks| == |services|
  {
    && |u.records| == |services|
    && AllServed(app, recorded, services, lucks, rt, u.records, u.runtime)
    && OthersSpared(app, services, rt, u.runtime)
  }

  ghost predicate AllServed(app: string, recorded: seq<Record>, services: seq<ComposeService>, lucks: seq<Luck>,
                            rt: Runtime,
                            records: seq<Record>, rt': Runtime)
    requires |lucks| == |services| == |records|
  {
    forall i :: 0 <= i < |services| ==> Served(app, recorded, services[i], lucks[i], rt, records[i], rt')
  }

  lemma UpAllSnoc(app: string, recorded: seq<Record>, services: seq<ComposeService>, lucks: seq<Luck>,
                  s: ComposeService, luck: Luck, rt: Runtime)
    requires |lucks| == |services|
    ensures var u := UpAll(app, recorded, services, lucks, rt);
      UpAll(app, recorded, services + [s], lucks + [luck], rt)
        == if u.ok then StepService(app, recorded, s, luck, u) else u
  {
    hide StepService;
    assert (services + [s])[..|services|] == services && (lucks + [luck])[..|lucks|] == lucks;
  }

  lemma FrontNames(services: seq<ComposeService>, s: ComposeService)
    requires DistinctNames(services + [s])
    ensures DistinctNames(services) && forall i :: 0 <= i < |services| ==> services[i].name != s.name
  {
    var all := services + [s];
    assert all[|services|] == s;
    forall i | 0 <= i < |services| ensures services[i].name == all[i].name {
    }
  }

  lemma NothingDone(app: string, recorded: seq<Record>, rt: Runtime)
    ensures Result(app, recorded, [], [], rt, UpAll(app, recorded, [], [], rt))
  {
  }

  lemma {:induction false} UpAllResult(app: string, recorded: seq<Record>, services: seq<ComposeService>,
                                       lucks: seq<Luck>, rt: Runtime)
    requires |lucks| == |services| && DistinctNames(services) && UpAll(app, recorded, services, lucks, rt).ok
    ensures Result(app, recorded, services, lucks, rt, UpAll(app, recorded, services, lucks, rt))
    decreases |services|
  {
    hide *;
    if services == [] {
      NothingDone(app, recorded, rt);
    } else {
      var n := |services| - 1;
      var front, s, lucks0, luck := services[..n], services[n], lucks[..n], lucks[n];
      assert services == front + [s] && lucks == lucks0 + [luck];
      UpAllSnoc(app, recorded, front, lucks0, s, luck, rt);
      FrontNames(front, s);
      UpAllResult(app, recorded, front, lucks0, rt);
      ResultGrows(app, recorded, front, lucks0, rt, s, luck, UpAll(app, recorded, front, lucks0, rt));
    }
  }

  lemma ServedStays(app: string, recorded: seq<Record>, s: ComposeService, luck: Luck, rt: Runtime, r: Record,
                    mid: Runtime, rt': Runtime, other: string)
    requires Served(app, recorded, s, luck, rt, r, mid) && SameExcept(mid, rt', ContainerName(app, other))
      && s.name != other
    ensures Served(app, recorded, s, luck, rt, r, rt')
  {
    ContainerNamesDiffer(app, s.name, other);
  }

  /** The services before it leave a service's container as the run found it. */
  lemma ServedFromStart(app: string, recorded: seq<Record>, services: seq<ComposeService>, s: ComposeService,
                        luck: Luck, rt: Runtime, mid: Runtime, r: Record, rt': Runtime)
    requires OthersSpared(app, services, rt, mid) && Served(app, recorded, s, luck, mid, r, rt')
    requires forall i :: 0 <= i < |services| ==> services[i].name != s.name
    ensures Served(app, recorded, s, luck, rt, r, rt')
  {
    var name := ContainerName(app, s.name);
    forall i | 0 <= i < |services| ensures name != ContainerName(app, services[i].name) {
      ContainerNamesDiffer(app, s.name, services[i].name);
    }
    hide ContainerName;
  }

  lemma OthersStaySpared(app: string, services: seq<ComposeService>, s: ComposeService, rt: Runtime, mid: Runtime,
                         rt': Runtime)
    requires OthersSpared(app, services, rt, mid) && SameExcept(mid, rt', ContainerName(app, s.name))
    ensures OthersSpared(app, services + [s], rt, rt')
  {
    hide ContainerName;
    var all := services + [s];
    forall n | forall i :: 0 <= i < |all| ==> n != ContainerName(app, all[i].name)
      ensures (n in rt' <==> n in rt) && (n in rt ==> rt'[n] == rt[n])
    {
      assert all[|services|] == s;
      forall i | 0 <= i < |services| ensures n != ContainerName(app, services[i].name) {
        assert all[i] == services[i];
      }
    }
  }

  lemma AllServedGrows(app: string, recorded: seq<Record>, services: seq<ComposeService>, lucks: seq<Luck>, rt: Runtime,
                       records: seq<Record>, s: ComposeService, luck: Luck, r: Record, mid: Runtime, rt': Runtime)
    requires |lucks| == |services| == |records| && AllServed(app, recorded, services, lucks, rt, records, mid)
    requires SameExcept(mid, rt', ContainerName(app, s.name)) && Served(app, recorded, s, luck, rt, r, rt')
    requires forall i :: 0 <= i < |services| ==> services[i].name != s.name
    ensures AllServed(app, recorded, services + [s], lucks + [luck], rt, records + [r], rt')
  {
    hide Served, SameExcept, ContainerName;
    forall i | 0 <= i < |services| ensures Served(app, recorded, services[i], lucks[i], rt, records[i], rt') {
      ServedStays(app, recorded, services[i], lucks[i], rt, records[i], mid, rt', s.name);
    }
  }

  lemma ResultGrows(app: string, recorded: seq<Record>, services: seq<ComposeService>, lucks: seq<Luck>, rt: Runtime,
                    s: ComposeService, luck: Luck, u: Progress)
    requires |lucks| == |services| && (forall i :: 0 <= i < |services| ==> services[i].name != s.name)
    requires Result(app, recorded, services, lucks, rt, u) && StepService(app, recorded, s, luck, u).ok
    ensures Result(app, recorded, services + [s], lucks + [luck], rt, StepService(app, recorded, s, luck, u))
  {
    var n, u' := |services|, StepService(app, recorded, s, luck, u);
    StepEffect(app, recorded, s, luck, u);
    hide StepService, Served, AllServed, SameExcept, OthersSpared, ContainerName;
    assert u'.records == u.records + [u'.records[n]];
    ServedFromStart(app, recorded, services, s, luck, rt, u.runtime, u'.records[n], u'.runtime);
    AllServedGrows(app, recorded, services, lucks, rt, u.records, s, luck, u'.records[n], u.runtime, u'.runtime);
    OthersStaySpared(app, services, s, rt, u.runtime, u'.runtime);
  }

  /** Each service's container has the service's configuration. */
  ghost predicate Converged(app: string, services: seq<ComposeService>, rt: Runtime) {
    forall i :: 0 <= i < |services| ==> Has(rt, ContainerName(app, services[i].name), FingerprintOf(services[i]))
  }

  /** The state file speaks of the containers that are there: an existing one has the configuration recorded for it. */
  ghost predicate InSync(app: string, recorded: seq<Record>, rt: Runtime) {
    forall i :: 0 <= i < |recorded| ==>
      var name := ContainerName(app, recorded[i].service);
      name in rt ==> rt[name].made == recorded[i].hash
  }

  /** A successful run converges exactly when the containers it kept were made with the current configuration. */
  lemma ConvergesExactly(app: string, recorded: seq<Record>, services: seq<ComposeService>, lucks: seq<Luck>,
                         rt: Runtime)
    requires |lucks| == |services| && DistinctNames(services) && UpAll(app, recorded, services, lucks, rt).ok
    ensures Converged(app, services, UpAll(app, recorded, services, lucks, rt).runtime) <==>
      forall i :: 0 <= i < |services| ==>
        var name := ContainerName(app, services[i].name);
        Keeps(name, services[i], recorded, lucks[i], rt) ==> Has(rt, name, FingerprintOf(services[i]))
  {
    UpAllResult(app, recorded, services, lucks, rt);
  }

  /** Each service's container runs. */
  ghost predicate AllRun(app: string, services: seq<ComposeService>, rt: Runtime) {
    forall i :: 0 <= i < |services| ==>
      var name := ContainerName(app, services[i].name); name in rt && rt[name].running
  }

  /**
   After a successful run all containers run exactly if each one kept was running or could be started: it is never
   left stopped without a start.
   */
  lemma AllRunExactly(app: string, recorded: seq<Record>, services: seq<ComposeService>, lucks: seq<Luck>, rt: Runtime)
    requires |lucks| == |services| && DistinctNames(services) && UpAll(app, recorded, services, lucks, rt).ok
    ensures AllRun(app, services, UpAll(app, recorded, services, lucks, rt).runtime) <==>
      forall i :: 0 <= i < |services| ==>
        var name := ContainerName(app, services[i].name);
        Keeps(name, services[i], recorded, lucks[i], rt) ==> rt[name].running || lucks[i].startOk
  {
    UpAllResult(app, recorded, services, lucks, rt);
    var u := UpAll(app, recorded, services, lucks, rt);
    hide UpAll, Keeps, OthersSpared;
    forall i | 0 <= i < |services| ensures Served(app, recorded, services[i], lucks[i], rt, u.records[i], u.runtime) {
    }
  }

  lemma SyncedConverges(app: string, recorded: seq<Record>, services: seq<ComposeService>, lucks: seq<Luck>,
                        rt: Runtime)
    requires |lucks| == |services| && DistinctNames(services) && UpAll(app, recorded, services, lucks, rt).ok
    requires InSync(app, recorded, rt)
    ensures Converged(app, services, UpAll(app, recorded, services, lucks, rt).runtime)
    ensures InSync(app, UpAll(app, recorded, services, lucks, rt).records,
      UpAll(app, recorded, services, lucks, rt).runtime)
  {
    UpAllResult(app, recorded, services, lucks, rt);
    forall i | 0 <= i < |services| && Keeps(ContainerName(app, services[i].name), services[i], recorded, lucks[i], rt)
      ensures Has(rt, ContainerName(app, services[i].name), FingerprintOf(services[i]))
    {
      var j :| 0 <= j < |recorded| && Unchanged(recorded[j], services[i]);
    }
  }

  const LUCKY := Luck(true, true, true, true, true, true, {})

  /** The service that a record was written for. */
  function ServiceOf(r: Record): ComposeService {
    ComposeService(r.service, r.hash.image, r.hash.settings, r.hash.ports, [])
  }

  /** Being in sync is exactly what it takes for every successful run to converge. */
  lemma SyncIsExact(app: string, recorded: seq<Record>, rt: Runtime)
    ensures InSync(app, recorded, rt) <==>
      forall services, lucks ::
        |lucks| == |services| && DistinctNames(services) && UpAll(app, recorded, services, lucks, rt).ok ==>
          Converged(app, services, UpAll(app, recorded, services, lucks, rt).runtime)
  {
    if InSync(app, recorded, rt) {
      forall services, lucks: seq<Luck> | |lucks| == |services| && DistinctNames(services)
        && UpAll(app, recorded, services, lucks, rt).ok
        ensures Converged(app, services, UpAll(app, recorded, services, lucks, rt).runtime)
      {
        SyncedConverges(app, recorded, services, lucks, rt);
      }
    } else {
      var i :| 0 <= i < |recorded| && ContainerName(app, recorded[i].service) in rt
        && rt[ContainerName(app, recorded[i].service)].made != recorded[i].hash;
      StaleIsKept(app, recorded, rt, i);
    }
  }

  lemma StaleIsKept(app: string, recorded: seq<Record>, rt: Runtime, i: nat)
    requires i < |recorded| && ContainerName(app, recorded[i].service) in rt
    requires rt[ContainerName(app, recorded[i].service)].made != recorded[i].hash
    ensures var services := [ServiceOf(recorded[i])];
      && DistinctNames(services) && UpAll(app, recorded, services, [LUCKY], rt).ok
      && !Converged(app, services, UpAll(app, recorded, services, [LUCKY], rt).runtime)
  {
    var s := ServiceOf(recorded[i]);
    var name := ContainerName(app, s.name);
    assert Unchanged(recorded[i], s);
    DecideExact(name, s, recorded, LUCKY, rt);
    var services, lucks := [s], [LUCKY];
    var start := UpAll(app, recorded, services[..0], lucks[..0], rt);
    assert start == Progress(rt, {}, [], [], true);
    assert UpAll(app, recorded, services, lucks, rt) == StepService(app, recorded, s, LUCKY, start);
    assert FingerprintOf(services[0]) == recorded[i].hash;
  }

  // ---- the second run ----

  ghost predicate OnlyStarts(log: seq<Command>) {
    forall i :: 0 <= i < |log| ==> log[i].Start?
  }

  ghost predicate SameContainers(rt: Runtime, rt': Runtime) {
    rt'.Keys == rt.Keys && forall n :: n in rt ==> rt'[n].made == rt[n].made
  }

  /** The records name the services in order, with their current configuration, and the containers exist. */
  ghost predicate Settled(app: string, recorded: seq<Record>, services: seq<ComposeService>, rt: Runtime) {
    && |recorded| == |services| && DistinctNames(services)
    && forall i :: 0 <= i < |services| ==>
         && recorded[i].service == services[i].name && recorded[i].hash == FingerprintOf(services[i])
         && recorded[i].container == ContainerName(app, services[i].name) && recorded[i].image == services[i].image
         && ContainerName(app, services[i].name) in rt
  }

  /** The container is listed as running, or found among all containers. */
  predicate Seen(name: string, luck: Luck, rt: Runtime) {
    name in rt && (luck.listAllOk || (luck.listOk && rt[name].running))
  }

  /** A container seen at first is still seen after others were started. */
  ghost predicate StartedFrom(rt: Runtime, rt': Runtime) {
    SameContainers(rt, rt') && forall n :: n in rt && rt[n].running ==> rt'[n].running
  }

  lemma StepOnSettled(app: string, recorded: seq<Record>, services: seq<ComposeService>, rt: Runtime, k: nat,
                      luck: Luck, u: Progress)
    requires Settled(app, recorded, services, rt) && k < |services|
      && Seen(ContainerName(app, services[k].name), luck, rt)
    requires StartedFrom(rt, u.runtime) && OnlyStarts(u.log)
    ensures var u' := StepService(app, recorded, services[k], luck, u);
      u'.ok && u'.records == u.records + [recorded[k]] && OnlyStarts(u'.log) && StartedFrom(rt, u'.runtime)
  {
    var s := services[k];
    var name := ContainerName(app, s.name);
    DecideExact(name, s, recorded, luck, u.runtime);
    assert Unchanged(recorded[k], s);
    RecordedPortsFound(recorded, k, Pick(s.ports, luck.inUse, u.claimed).0);
  }

  /** Nothing but starts so far, and the first `k` records again. */
  ghost predicate Quiet(u: Progress, recorded: seq<Record>, k: nat, rt: Runtime)
    requires k <= |recorded|
  {
    u.ok && u.records == recorded[..k] && OnlyStarts(u.log) && StartedFrom(rt, u.runtime)
  }

  lemma QuietStep(app: string, recorded: seq<Record>, services: seq<ComposeService>, rt: Runtime, k: nat, luck: Luck,
                  u: Progress)
    requires Settled(app, recorded, services, rt) && k < |services| == |recorded|
    requires Seen(ContainerName(app, services[k].name), luck, rt) && Quiet(u, recorded, k, rt)
    ensures Quiet(StepService(app, recorded, services[k], luck, u), recorded, k + 1, rt)
  {
    StepOnSettled(app, recorded, services, rt, k, luck, u);
    hide StepService, OnlyStarts, StartedFrom, Settled, Seen;
    assert recorded[..k + 1] == recorded[..k] + [recorded[k]];
  }

  lemma {:induction false} PrefixOnSettled(app: string, recorded: seq<Record>, services: seq<ComposeService>,
                                           lucks: seq<Luck>, rt: Runtime, k: nat)
    requires Settled(app, recorded, services, rt) && |lucks| == |services| == |recorded| && k <= |services|
    requires forall i :: 0 <= i < k ==> Seen(ContainerName(app, services[i].name), lucks[i], rt)
    ensures Quiet(UpAll(app, recorded, services[..k], lucks[..k], rt), recorded, k, rt)
    decreases k
  {
    hide *;
    if k == 0 {
      QuietAtFirst(app, recorded, services, lucks, rt);
    } else {
      var n := k - 1;
      PrefixOnSettled(app, recorded, services, lucks, rt, n);
      var u := UpAll(app, recorded, services[..n], lucks[..n], rt);
      QuietIsOk(u, recorded, n, rt);
      assert services[..k] == services[..n] + [services[n]] && lucks[..k] == lucks[..n] + [lucks[n]];
      UpAllSnoc(app, recorded, services[..n], lucks[..n], services[n], lucks[n], rt);
      QuietStep(app, recorded, services, rt, n, lucks[n], u);
    }
  }

  lemma QuietAtFirst(app: string, recorded: seq<Record>, services: seq<ComposeService>, lucks: seq<Luck>, rt: Runtime)
    requires |lucks| == |services|
    ensures Quiet(UpAll(app, recorded, services[..0], lucks[..0], rt), recorded, 0, rt)
  {
  }

  lemma QuietIsOk(u: Progress, recorded: seq<Record>, k: nat, rt: Runtime)
    requires k <= |recorded| && Quiet(u, recorded, k, rt)
    ensures u.ok && (k == |recorded| ==> u.records == recorded) && OnlyStarts(u.log) && StartedFrom(rt, u.runtime)
  {
  }

  lemma ResultSettles(app: string, recorded: seq<Record>, services: seq<ComposeService>, lucks: seq<Luck>, rt: Runtime,
                      u: Progress)
    requires |lucks| == |services| && DistinctNames(services) && Result(app, recorded, services, lucks, rt, u)
    ensures |u.records| == |services| && Settled(app, u.records, services, u.runtime)
  {
    hide Keeps, FingerprintOf, ContainerName;
    forall i | 0 <= i < |services| ensures Served(app, recorded, services[i], lucks[i], rt, u.records[i], u.runtime) {
    }
  }

  lemma UnseenIsRecreated(app: string, recorded: seq<Record>, services: seq<ComposeService>, rt: Runtime, k: nat,
                          luck: Luck, u: Progress)
    requires Settled(app, recorded, services, rt) && k < |services| && StartedFrom(rt, u.runtime)
    requires OnlyOwnStarts(app, services, k, rt, u.runtime) && !Seen(ContainerName(app, services[k].name), luck, rt)
    ensures !OnlyStarts(StepService(app, recorded, services[k], luck, u).log)
  {
    var name := ContainerName(app, services[k].name);
    DecideExact(name, services[k], recorded, luck, u.runtime);
    var u' := StepService(app, recorded, services[k], luck, u);
    var n := |u.log + Decide(name, services[k], recorded, luck, u.runtime).log|;
    assert u'.log[n] == Stop(name);
  }

  /** The containers of services from the `k`-th on are untouched. */
  ghost predicate OnlyOwnStarts(app: string, services: seq<ComposeService>, k: nat, rt: Runtime, rt': Runtime) {
    forall i :: k <= i < |services| ==>
      var name := ContainerName(app, services[i].name); name in rt && name in rt' && rt'[name] == rt[name]
  }

  lemma {:induction false} LaterUntouched(app: string, recorded: seq<Record>, services: seq<ComposeService>,
                                          lucks: seq<Luck>, rt: Runtime, k: nat)
    requires Settled(app, recorded, services, rt) && k <= |services| == |lucks|
    requires UpAll(app, recorded, services[..k], lucks[..k], rt).ok
    ensures OnlyOwnStarts(app, services, k, rt, UpAll(app, recorded, services[..k], lucks[..k], rt).runtime)
  {
    FrontNamesOf(services, k);
    UpAllResult(app, recorded, services[..k], lucks[..k], rt);
    var u := UpAll(app, recorded, services[..k], lucks[..k], rt);
    hide UpAll, AllServed;
    forall i | k <= i < |services|
      ensures var name := ContainerName(app, services[i].name); name in u.runtime && u.runtime[name] == rt[name]
    {
      forall j | 0 <= j < k ensures ContainerName(app, services[i].name) != ContainerName(app, services[..k][j].name) {
        ContainerNamesDiffer(app, services[i].name, services[j].name);
      }
    }
  }

  lemma FrontNamesOf(services: seq<ComposeService>, k: nat)
    requires DistinctNames(services) && k <= |services|
    ensures DistinctNames(services[..k])
  {
  }

  /** Commands are never taken back. */
  lemma {:induction false} LogGrows(app: string, recorded: seq<Record>, services: seq<ComposeService>, lucks: seq<Luck>,
                                    rt: Runtime, k: nat)
    requires k <= |services| == |lucks|
    ensures UpAll(app, recorded, services[..k], lucks[..k], rt).log <= UpAll(app, recorded, services, lucks, rt).log
    decreases |services|
  {
    if k == |services| {
      assert services[..k] == services && lucks[..k] == lucks;
    } else {
      var n := |services| - 1;
      assert services[..n][..k] == services[..k] && lucks[..n][..k] == lucks[..k];
      LogGrows(app, recorded, services[..n], lucks[..n], rt, k);
      var u := UpAll(app, recorded, services[..n], lucks[..n], rt);
      StepLogs(app, recorded, services[n], lucks[n], u);
      hide StepService;
    }
  }

  lemma StepLogs(app: string, recorded: seq<Record>, s: ComposeService, luck: Luck, u: Progress)
    ensures u.log <= StepService(app, recorded, s, luck, u).log
  {
  }

  /** A run over settled services that is not quiet: the first service not seen is recreated. */
  lemma NotQuiet(app: string, recorded: seq<Record>, services: seq<ComposeService>, lucks: seq<Luck>, rt: Runtime,
                 k: nat)
    requires Settled(app, recorded, services, rt) && |lucks| == |services| == |recorded| && k < |services|
    requires forall i :: 0 <= i < k ==> Seen(ContainerName(app, services[i].name), lucks[i], rt)
    requires !Seen(ContainerName(app, services[k].name), lucks[k], rt)
    ensures !OnlyStarts(UpAll(app, recorded, services, lucks, rt).log)
  {
    hide *;
    PrefixOnSettled(app, recorded, services, lucks, rt, k);
    var u := UpAll(app, recorded, services[..k], lucks[..k], rt);
    QuietIsOk(u, recorded, k, rt);
    LaterUntouched(app, recorded, services, lucks, rt, k);
    UnseenIsRecreated(app, recorded, services, rt, k, lucks[k], u);
    assert services[..k + 1] == services[..k] + [services[k]] && lucks[..k + 1] == lucks[..k] + [lucks[k]];
    UpAllSnoc(app, recorded, services[..k], lucks[..k], services[k], lucks[k], rt);
    LogGrows(app, recorded, services, lucks, rt, k + 1);
    var short := UpAll(app, recorded, services[..k + 1], lucks[..k + 1], rt);
    StartsOnlyBefore(short.log, UpAll(app, recorded, services, lucks, rt).log);
  }

  lemma StartsOnlyBefore(log: seq<Command>, more: seq<Command>)
    requires log <= more && !OnlyStarts(log)
    ensures !OnlyStarts(more)
  {
    var i :| 0 <= i < |log| && !log[i].Start?;
    assert more[i] == log[i];
  }

  /**
   After a successful run, the same run again stops, removes and creates nothing exactly if every container is seen;
   then it succeeds and records the same state.
   */
  lemma SecondUpIsQuiet(app: string, recorded: seq<Record>, services: seq<ComposeService>, lucks: seq<Luck>,
                        rt: Runtime, lucks': seq<Luck>)
    requires |lucks| == |services| == |lucks'| && DistinctNames(services)
    requires UpAll(app, recorded, services, lucks, rt).ok
    ensures var u := UpAll(app, recorded, services, lucks, rt);
      var u' := UpAll(app, u.records, services, lucks', u.runtime);
      var seen := forall i :: 0 <= i < |services| ==> Seen(ContainerName(app, services[i].name), lucks'[i], u.runtime);
      && (OnlyStarts(u'.log) <==> seen)
      && (seen ==> u'.ok && u'.records == u.records && StartedFrom(u.runtime, u'.runtime))
  {
    hide *;
    var u := UpAll(app, recorded, services, lucks, rt);
    UpAllResult(app, recorded, services, lucks, rt);
    ResultSettles(app, recorded, services, lucks, rt, u);
    if forall i :: 0 <= i < |services| ==> Seen(ContainerName(app, services[i].name), lucks'[i], u.runtime) {
      PrefixOnSettled(app, u.records, services, lucks', u.runtime, |services|);
      assert services[..|services|] == services && lucks'[..|services|] == lucks';
      QuietIsOk(UpAll(app, u.records, services, lucks', u.runtime), u.records, |services|, u.runtime);
    } else {
      var i :| 0 <= i < |services| && !Seen(ContainerName(app, services[i].name), lucks'[i], u.runtime);
      var k := FirstUnseen(app, services, lucks', u.runtime, i);
      NotQuiet(app, u.records, services, lucks', u.runtime, k);
    }
  }

  lemma {:induction false} FirstUnseen(app: string, services: seq<ComposeService>, lucks: seq<Luck>, rt: Runtime,
                                       i: nat) returns (k: nat)
    requires i < |services| == |lucks| && !Seen(ContainerName(app, services[i].name), lucks[i], rt)
    ensures k <= i && !Seen(ContainerName(app, services[k].name), lucks[k], rt)
    ensures forall j :: 0 <= j < k ==> Seen(ContainerName(app, services[j].name), lucks[j], rt)
    decreases i
  {
    if j :| 0 <= j < i && !Seen(ContainerName(app, services[j].name), lucks[j], rt) {
      k := FirstUnseen(app, services, lucks, rt, j);
    } else {
      k := i;
    }
  }

  // ---- ports ----

  /** The numeric host ports of the containers that a run creates. */
  function RunPorts(log: seq<Command>): seq<Port>
    decreases |log|
  {
    if log == [] then []
    else
      var last := log[|log| - 1];
      RunPorts(log[..|log| - 1]) + if last.Run? then HostPorts(last.ports) else []
  }

  lemma RunPortsSnoc(log: seq<Command>, c: Command)
    ensures RunPorts(log + [c]) == RunPorts(log) + if c.Run? then HostPorts(c.ports) else []
  {
    assert (log + [c])[..|log|] == log;
  }

  lemma {:induction false} StartsHaveNoPorts(log: seq<Command>, more: seq<Command>)
    requires OnlyStarts(more)
    ensures RunPorts(log + more) == RunPorts(log)
    decreases |more|
  {
    if more == [] {
      assert log + more == log;
    } else {
      var front, last := more[..|more| - 1], more[|more| - 1];
      StartsHaveNoPorts(log, front);
      RunPortsSnoc(log + front, last);
      assert log + more == (log + front) + [last];
    }
  }

  /** All ports handed to containers so far are distinct and claimed. */
  ghost predicate PortsApart(u: Progress) {
    Distinct(RunPorts(u.log)) && forall p :: p in RunPorts(u.log) ==> p in u.claimed
  }

  lemma RecreatePorts(log: seq<Command>, name: string, ports: seq<PortMapping>)
    ensures RunPorts(log + [Stop(name), Rm(name), Run(name, ports)]) == RunPorts(log) + HostPorts(ports)
  {
    RunPortsSnoc(log, Stop(name));
    RunPortsSnoc(log + [Stop(name)], Rm(name));
    RunPortsSnoc(log + [Stop(name)] + [Rm(name)], Run(name, ports));
    hide RunPorts, HostPorts;
    assert log + [Stop(name), Rm(name), Run(name, ports)] == log + [Stop(name)] + [Rm(name)] + [Run(name, ports)];
    assert RunPorts(log) + [] == RunPorts(log);
  }

  lemma StepKeepsPortsApart(app: string, recorded: seq<Record>, s: ComposeService, luck: Luck, u: Progress)
    requires PortsApart(u)
    ensures PortsApart(StepService(app, recorded, s, luck, u))
  {
    var name := ContainerName(app, s.name);
    var d := Decide(name, s, recorded, luck, u.runtime);
    DecideExact(name, s, recorded, luck, u.runtime);
    PickExact(s.ports, luck.inUse, u.claimed);
    StartsHaveNoPorts(u.log, d.log);
    hide Distinct, RunPorts, HostPorts, Pick, Decide, Discard, RecordedPorts, Keeps;
    var (picked, claimed) := Pick(s.ports, luck.inUse, u.claimed);
    if d.needsRun {
      RecreatePorts(u.log + d.log, name, picked);
      DistinctConcat(RunPorts(u.log), HostPorts(picked));
    }
  }

  lemma DistinctConcat(a: seq<Port>, b: seq<Port>)
    requires Distinct(a) && Distinct(b) && forall p :: p in b ==> p !in a
    ensures Distinct(a + b)
  {
    forall i, j | 0 <= i < j < |a + b| ensures (a + b)[i] != (a + b)[j] {
      if i < |a| <= j { assert b[j - |a|] in b && a[i] in a; }
    }
  }

  /** In one run, whether or not it succeeds, no two created containers are given the same host port. */
  lemma {:induction false} CreatedPortsAreDistinct(app: string, recorded: seq<Record>, services: seq<ComposeService>,
                                                   lucks: seq<Luck>, rt: Runtime)
    requires |lucks| == |services|
    ensures PortsApart(UpAll(app, recorded, services, lucks, rt))
    decreases |services|
  {
    if services != [] {
      var n := |services| - 1;
      CreatedPortsAreDistinct(app, recorded, services[..n], lucks[..n], rt);
      var u := UpAll(app, recorded, services[..n], lucks[..n], rt);
      StepKeepsPortsApart(app, recorded, services[n], lucks[n], u);
    }
  }

  /** A service that keeps its container keeps the ports last recorded for it. */
  lemma KeptPortsStay(app: string, recorded: seq<Record>, i: nat, s: ComposeService, luck: Luck, u: Progress)
    requires i < |recorded| && recorded[i].service == s.name
    requires forall j :: i < j < |recorded| ==> recorded[j].service != s.name
    requires Keeps(ContainerName(app, s.name), s, recorded, luck, u.runtime)
    ensures var u' := StepService(app, recorded, s, luck, u);
      u'.ok && u'.records
        == u.records + [Record(s.name, ContainerName(app, s.name), s.image, FingerprintOf(s), recorded[i].ports)]
  {
    DecideExact(ContainerName(app, s.name), s, recorded, luck, u.runtime);
    RecordedPortsFound(recorded, i, Pick(s.ports, luck.inUse, u.claimed).0);
  }

  // ---- failure ----

  /** A run that fails at some service is over: the later services change nothing. */
  lemma {:induction false} FailureIsFinal(app: string, recorded: seq<Record>, services: seq<ComposeService>,
                                          lucks: seq<Luck>, rt: Runtime, k: nat)
    requires |lucks| == |services| && k <= |services| && !UpAll(app, recorded, services[..k], lucks[..k], rt).ok
    ensures UpAll(app, recorded, services, lucks, rt) == UpAll(app, recorded, services[..k], lucks[..k], rt)
    decreases |services|
  {
    if k == |services| {
      assert services[..k] == services && lucks[..k] == lucks;
    } else {
      var n := |services| - 1;
      assert services[..n][..k] == services[..k] && lucks[..n][..k] == lucks[..k];
      FailureIsFinal(app, recorded, services[..n], lucks[..n], rt, k);
    }
  }

  /** The service was not kept although a record of it has another configuration. */
  ghost predicate Outdates(app: string, recorded: seq<Record>, s: ComposeService, luck: Luck, rt: Runtime, r: Record) {
    r.service == s.name && r.hash != FingerprintOf(s) && !Keeps(ContainerName(app, s.name), s, recorded, luck, rt)
  }

  /** Some of the first `n` services was recreated with a configuration that the state file does not have. */
  ghost predicate Recreated(app: string, recorded: seq<Record>, services: seq<ComposeService>, lucks: seq<Luck>,
                            rt: Runtime, n: nat)
    requires n <= |services| == |lucks|
  {
    exists i, j :: 0 <= i < n && 0 <= j < |recorded| && Outdates(app, recorded, services[i], lucks[i], rt, recorded[j])
  }

  /** One record against the runtime. */
  ghost predicate RecordInSync(app: string, r: Record, rt: Runtime) {
    var name := ContainerName(app, r.service);
    name in rt ==> rt[name].made == r.hash
  }

  lemma InSyncMeans(app: string, recorded: seq<Record>, rt: Runtime)
    ensures InSync(app, recorded, rt) <==> forall j :: 0 <= j < |recorded| ==> RecordInSync(app, recorded[j], rt)
  {
    if forall j :: 0 <= j < |recorded| ==> RecordInSync(app, recorded[j], rt) {
      forall j | 0 <= j < |recorded| && ContainerName(app, recorded[j].service) in rt
        ensures rt[ContainerName(app, recorded[j].service)].made == recorded[j].hash
      {
        assert RecordInSync(app, recorded[j], rt);
      }
    }
  }

  lemma ServedSync(app: string, recorded: seq<Record>, s: ComposeService, luck: Luck, rt: Runtime, made: Record,
                   rt': Runtime, r: Record)
    requires Served(app, recorded, s, luck, rt, made, rt') && RecordInSync(app, r, rt) && r.service == s.name
    ensures RecordInSync(app, r, rt') <==> !Outdates(app, recorded, s, luck, rt, r)
  {
  }

  lemma SparedSync(app: string, services: seq<ComposeService>, rt: Runtime, rt': Runtime, r: Record)
    requires OthersSpared(app, services, rt, rt') && RecordInSync(app, r, rt)
    requires forall i :: 0 <= i < |services| ==> services[i].name != r.service
    ensures RecordInSync(app, r, rt')
  {
    forall i | 0 <= i < |services| ensures ContainerName(app, r.service) != ContainerName(app, services[i].name) {
      ContainerNamesDiffer(app, r.service, services[i].name);
    }
  }

  /** A run without a failing service leaves the old records in sync unless it recreated something they describe. */
  lemma SyncAfterServices(app: string, recorded: seq<Record>, services: seq<ComposeService>, lucks: seq<Luck>,
                          rt: Runtime)
    requires |lucks| == |services| && DistinctNames(services) && InSync(app, recorded, rt)
    requires UpAll(app, recorded, services, lucks, rt).ok
    ensures InSync(app, recorded, UpAll(app, recorded, services, lucks, rt).runtime)
      <==> !Recreated(app, recorded, services, lucks, rt, |services|)
  {
    var u := UpAll(app, recorded, services, lucks, rt);
    UpAllResult(app, recorded, services, lucks, rt);
    InSyncMeans(app, recorded, rt);
    InSyncMeans(app, recorded, u.runtime);
    hide InSync, RecordInSync, UpAll, Outdates, Served, OthersSpared;
    forall j | 0 <= j < |recorded|
      ensures RecordInSync(app, recorded[j], u.runtime) <==>
        forall i :: 0 <= i < |services| ==> !Outdates(app, recorded, services[i], lucks[i], rt, recorded[j])
    {
      OneRecord(app, recorded, services, lucks, rt, u, j);
    }
  }

  lemma OneRecord(app: string, recorded: seq<Record>, services: seq<ComposeService>, lucks: seq<Luck>, rt: Runtime,
                  u: Progress, j: nat)
    requires |lucks| == |services| && DistinctNames(services) && Result(app, recorded, services, lucks, rt, u)
    requires j < |recorded| && RecordInSync(app, recorded[j], rt)
    ensures RecordInSync(app, recorded[j], u.runtime) <==>
      forall i :: 0 <= i < |services| ==> !Outdates(app, recorded, services[i], lucks[i], rt, recorded[j])
  {
    var r := recorded[j];
    forall i | 0 <= i < |services| && services[i].name != r.service
      ensures !Outdates(app, recorded, services[i], lucks[i], rt, r)
    {
    }
    if k :| 0 <= k < |services| && services[k].name == r.service {
      assert Served(app, recorded, services[k], lucks[k], rt, u.records[k], u.runtime);
      hide RecordInSync, Outdates, Served, OthersSpared;
      ServedSync(app, recorded, services[k], lucks[k], rt, u.records[k], u.runtime, r);
    } else {
      hide RecordInSync, Outdates, Served, OthersSpared;
      SparedSync(app, services, rt, u.runtime, r);
    }
  }

  /** Where a run failed. */
  lemma {:induction false} FirstFailure(app: string, recorded: seq<Record>, services: seq<ComposeService>,
                                        lucks: seq<Luck>, rt: Runtime)
    returns (k: nat)
    requires |lucks| == |services| && !UpAll(app, recorded, services, lucks, rt).ok
    ensures k < |services| && UpAll(app, recorded, services[..k], lucks[..k], rt).ok
    ensures var u := UpAll(app, recorded, services[..k], lucks[..k], rt);
      && !StepService(app, recorded, services[k], lucks[k], u).ok
      && UpAll(app, recorded, services, lucks, rt) == StepService(app, recorded, services[k], lucks[k], u)
    decreases |services|
  {
    hide StepService;
    var n := |services| - 1;
    if UpAll(app, recorded, services[..n], lucks[..n], rt).ok {
      k := n;
    } else {
      k := FirstFailure(app, recorded, services[..n], lucks[..n], rt);
      assert services[..n][..k] == services[..k] && lucks[..n][..k] == lucks[..k];
    }
  }

  /** A failing service changes at most its own container: it is gone, or still made as before. */
  lemma FailingStep(app: string, recorded: seq<Record>, s: ComposeService, luck: Luck, u: Progress, r: Record)
    requires !StepService(app, recorded, s, luck, u).ok
    requires r.service == s.name ==> RecordInSync(app, r, u.runtime)
    ensures var u' := StepService(app, recorded, s, luck, u);
      u'.records == u.records && (RecordInSync(app, r, u'.runtime) <==> RecordInSync(app, r, u.runtime))
  {
    if r.service != s.name { ContainerNamesDiffer(app, r.service, s.name); }
    DecideExact(ContainerName(app, s.name), s, recorded, luck, u.runtime);
  }

  // ---- which service fails, told beforehand ----

  /** The service is not kept, and its container cannot be run or the stale one not removed. */
  ghost predicate CannotStart(app: string, recorded: seq<Record>, s: ComposeService, luck: Luck, rt: Runtime) {
    var name := ContainerName(app, s.name);
    !Keeps(name, s, recorded, luck, rt) && (!luck.runOk || (!luck.rmOk && name in rt))
  }

  /** The number of services before the first that cannot be started. */
  ghost function Reached(app: string, recorded: seq<Record>, services: seq<ComposeService>, lucks: seq<Luck>,
                         rt: Runtime): (n: nat)
    requires |lucks| == |services|
    ensures n <= |services|
    ensures forall i :: 0 <= i < n ==> !CannotStart(app, recorded, services[i], lucks[i], rt)
    ensures n < |services| ==> CannotStart(app, recorded, services[n], lucks[n], rt)
    decreases |services|
  {
    if services == [] then 0
    else
      var k := |services| - 1;
      var n := Reached(app, recorded, services[..k], lucks[..k], rt);
      assert forall i :: 0 <= i < k ==> services[..k][i] == services[i] && lucks[..k][i] == lucks[i];
      if n < k || CannotStart(app, recorded, services[k], lucks[k], rt) then n else k + 1
  }

  lemma StepFailsExactly(app: string, recorded: seq<Record>, s: ComposeService, luck: Luck, u: Progress)
    ensures var u' := StepService(app, recorded, s, luck, u);
      && (u'.ok <==> !CannotStart(app, recorded, s, luck, u.runtime))
      && |u'.records| == |u.records| + if u'.ok then 1 else 0
  {
    DecideExact(ContainerName(app, s.name), s, recorded, luck, u.runtime);
    hide Decide, Pick, Keeps;
  }

  /**
   The services before it leave a service's container as the run found it, so what becomes of it is told beforehand.
   */
  lemma FoundFromStart(app: string, recorded: seq<Record>, services: seq<ComposeService>, lucks: seq<Luck>, rt: Runtime,
                       s: ComposeService, luck: Luck)
    requires |lucks| == |services| && DistinctNames(services + [s]) && UpAll(app, recorded, services, lucks, rt).ok
    ensures var u, name := UpAll(app, recorded, services, lucks, rt), ContainerName(app, s.name);
      && (name in u.runtime <==> name in rt) && (name in rt ==> u.runtime[name] == rt[name])
      && (Keeps(name, s, recorded, luck, u.runtime) <==> Keeps(name, s, recorded, luck, rt))
  {
    FrontNames(services, s);
    UpAllResult(app, recorded, services, lucks, rt);
    var name := ContainerName(app, s.name);
    forall i | 0 <= i < |services| ensures name != ContainerName(app, services[i].name) {
      ContainerNamesDiffer(app, s.name, services[i].name);
    }
    hide UpAll, AllServed, ContainerName;
  }

  /**
   A run succeeds exactly if no service is one that cannot start, and otherwise records those before the first such.
   */
  lemma {:induction false} RunReaches(app: string, recorded: seq<Record>, services: seq<ComposeService>,
                                      lucks: seq<Luck>, rt: Runtime)
    requires |lucks| == |services| && DistinctNames(services)
    ensures var u, n := UpAll(app, recorded, services, lucks, rt), Reached(app, recorded, services, lucks, rt);
      |u.records| == n && (u.ok <==> n == |services|)
    decreases |services|
  {
    if services != [] {
      hide StepService, CannotStart;
      var k := |services| - 1;
      var front, s, lucks0, luck := services[..k], services[k], lucks[..k], lucks[k];
      assert services == front + [s] && lucks == lucks0 + [luck];
      FrontNames(front, s);
      RunReaches(app, recorded, front, lucks0, rt);
      var u := UpAll(app, recorded, front, lucks0, rt);
      if u.ok {
        StepFailsExactly(app, recorded, s, luck, u);
        CannotStartFromStart(app, recorded, front, lucks0, rt, s, luck);
      }
    }
  }

  lemma CannotStartFromStart(app: string, recorded: seq<Record>, services: seq<ComposeService>, lucks: seq<Luck>,
                             rt: Runtime, s: ComposeService, luck: Luck)
    requires |lucks| == |services| && DistinctNames(services + [s]) && UpAll(app, recorded, services, lucks, rt).ok
    ensures CannotStart(app, recorded, s, luck, UpAll(app, recorded, services, lucks, rt).runtime)
      <==> CannotStart(app, recorded, s, luck, rt)
  {
    FoundFromStart(app, recorded, services, lucks, rt, s, luck);
    hide UpAll, Keeps;
  }

  /**
   What a run of `app_up` that is not recorded, because it failed or because the state file could not be written,
   does to a state file that was in sync: it stays in sync exactly if none of the services before the first that cannot
   start is recreated with a configuration that the file does not have.
   */
  lemma UnrecordedRunExactly(app: string, recorded: seq<Record>, services: seq<ComposeService>, lucks: seq<Luck>,
                             rt: Runtime)
    requires |lucks| == |services| && DistinctNames(services) && InSync(app, recorded, rt)
    ensures InSync(app, recorded, UpAll(app, recorded, services, lucks, rt).runtime)
      <==> !Recreated(app, recorded, services, lucks, rt, Reached(app, recorded, services, lucks, rt))
  {
    hide *;
    RunReaches(app, recorded, services, lucks, rt);
    UnrecordedRunCounted(app, recorded, services, lucks, rt);
  }

  lemma UnrecordedRunCounted(app: string, recorded: seq<Record>, services: seq<ComposeService>, lucks: seq<Luck>,
                             rt: Runtime)
    requires |lucks| == |services| && DistinctNames(services) && InSync(app, recorded, rt)
    ensures var u := UpAll(app, recorded, services, lucks, rt);
      && |u.records| <= |services|
      && (InSync(app, recorded, u.runtime) <==> !Recreated(app, recorded, services, lucks, rt, |u.records|))
  {
    var u := UpAll(app, recorded, services, lucks, rt);
    if u.ok {
      UpAllResult(app, recorded, services, lucks, rt);
      SyncAfterServices(app, recorded, services, lucks, rt);
    } else {
      var k := FirstFailure(app, recorded, services, lucks, rt);
      var before := UpAll(app, recorded, services[..k], lucks[..k], rt);
      FailedAt(app, recorded, services, lucks, rt, k, before);
    }
  }

  lemma FailedAt(app: string, recorded: seq<Record>, services: seq<ComposeService>, lucks: seq<Luck>, rt: Runtime,
                 k: nat, u: Progress)
    requires |lucks| == |services| && DistinctNames(services) && InSync(app, recorded, rt) && k < |services|
    requires u == UpAll(app, recorded, services[..k], lucks[..k], rt) && u.ok
    requires !StepService(app, recorded, services[k], lucks[k], u).ok
    ensures var u' := StepService(app, recorded, services[k], lucks[k], u);
      |u'.records| == k && (InSync(app, recorded, u'.runtime) <==> !Recreated(app, recorded, services, lucks, rt, k))
  {
    hide *;
    var s, u' := services[k], StepService(app, recorded, services[k], lucks[k], u);
    FrontOfDistinct(services, k);
    UpAllResult(app, recorded, services[..k], lucks[..k], rt);
    SyncAfterServices(app, recorded, services[..k], lucks[..k], rt);
    RecreatedPrefix(app, recorded, services, lucks, rt, k);
    FailingKeepsRecords(app, recorded, s, lucks[k], u);
    FailingKeepsSync(app, recorded, services[..k], lucks[..k], rt, s, lucks[k], u);
  }

  lemma FrontOfDistinct(services: seq<ComposeService>, k: nat)
    requires DistinctNames(services) && k < |services|
    ensures DistinctNames(services[..k]) && forall i :: 0 <= i < k ==> services[..k][i].name != services[k].name
  {
  }

  lemma RecreatedPrefix(app: string, recorded: seq<Record>, services: seq<ComposeService>, lucks: seq<Luck>,
                        rt: Runtime, k: nat)
    requires k <= |services| == |lucks|
    ensures Recreated(app, recorded, services[..k], lucks[..k], rt, k)
      <==> Recreated(app, recorded, services, lucks, rt, k)
  {
    hide Outdates;
    assert forall i :: 0 <= i < k ==> services[..k][i] == services[i] && lucks[..k][i] == lucks[i];
  }

  lemma FailingKeepsSync(app: string, recorded: seq<Record>, front: seq<ComposeService>, lucks: seq<Luck>, rt: Runtime,
                         s: ComposeService, luck: Luck, u: Progress)
    requires |lucks| == |front| && Result(app, recorded, front, lucks, rt, u) && InSync(app, recorded, rt)
    requires forall i :: 0 <= i < |front| ==> front[i].name != s.name
    requires !StepService(app, recorded, s, luck, u).ok
    ensures |u.records| == |front|
    ensures InSync(app, recorded, StepService(app, recorded, s, luck, u).runtime) <==> InSync(app, recorded, u.runtime)
  {
    var u' := StepService(app, recorded, s, luck, u);
    InSyncMeans(app, recorded, rt);
    InSyncMeans(app, recorded, u.runtime);
    InSyncMeans(app, recorded, u'.runtime);
    hide InSync, RecordInSync, StepService, OthersSpared, AllServed;
    forall j | 0 <= j < |recorded|
      ensures RecordInSync(app, recorded[j], u'.runtime) <==> RecordInSync(app, recorded[j], u.runtime)
    {
      if recorded[j].service == s.name { SparedSync(app, front, rt, u.runtime, recorded[j]); }
      FailingStep(app, recorded, s, luck, u, recorded[j]);
    }
  }

  lemma FailingKeepsRecords(app: string, recorded: seq<Record>, s: ComposeService, luck: Luck, u: Progress)
    requires !StepService(app, recorded, s, luck, u).ok
    ensures StepService(app, recorded, s, luck, u).records == u.records
  {
  }

  /**
   Whatever becomes of a run, the state file it leaves is in sync exactly when it was rewritten, which takes that every
   service can start, or nothing it describes was recreated.
   */
  lemma SyncAfterUp(app: string, recorded: seq<Record>, services: seq<ComposeService>, lucks: seq<Luck>, rt: Runtime,
                    saveOk: bool)
    requires |lucks| == |services| && DistinctNames(services) && InSync(app, recorded, rt)
    ensures var u, n := UpAll(app, recorded, services, lucks, rt), Reached(app, recorded, services, lucks, rt);
      var saved := n == |services| && saveOk;
      && saved == (u.ok && saveOk)
      && (InSync(app, if saved then u.records else recorded, u.runtime)
          <==> saved || !Recreated(app, recorded, services, lucks, rt, n))
  {
    hide *;
    RunReaches(app, recorded, services, lucks, rt);
    UnrecordedRunExactly(app, recorded, services, lucks, rt);
    if UpAll(app, recorded, services, lucks, rt).ok { SyncedConverges(app, recorded, services, lucks, rt); }
  }

  function Plain(name: string, image: string): ComposeService {
    ComposeService(name, image, "", [], [])
  }

  /** Of two services one is recreated with a new image and the other cannot be started: the old file is wrong. */
  lemma FailureLeavesStaleState()
    ensures var before, a, b := FingerprintOf(Plain("a", "old")), Plain("a", "new"), Plain("b", "new");
      var recorded := [Record("a", "x-a", "old", before, [])];
      var rt := map["x-a" := Container(true, before)];
      var u := UpAll("x", recorded, [a, b], [LUCKY, LUCKY.(runOk := false)], rt);
      InSync("x", recorded, rt) && !u.ok && !InSync("x", recorded, u.runtime)
  {
    var before, a, b := FingerprintOf(Plain("a", "old")), Plain("a", "new"), Plain("b", "new");
    var recorded := [Record("a", "x-a", "old", before, [])];
    var rt: Runtime := map["x-a" := Container(true, before)];
    assert "old"[0] != "new"[0] && "a"[0] != "b"[0];
    assert ContainerName("x", "a") == "x-a";
    hide StepService, Decide, InSync, UpAll, Keeps, Outdates, ContainerName;
    assert InSync("x", recorded, rt) by { OneRecordInSync("x", recorded, rt); }
    SecondFails("x", recorded, a, b, LUCKY.(runOk := false), rt);
    OutdatesFirst("x", recorded, a, b, LUCKY.(runOk := false), rt);
    UnrecordedRunCounted("x", recorded, [a, b], [LUCKY, LUCKY.(runOk := false)], rt);
  }

  lemma SecondFails(app: string, recorded: seq<Record>, a: ComposeService, b: ComposeService, luck: Luck, rt: Runtime)
    requires |recorded| == 1 && recorded[0].hash != FingerprintOf(a) && recorded[0].service != b.name
    requires ContainerName(app, a.name) in rt && !luck.runOk
    ensures var u := UpAll(app, recorded, [a, b], [LUCKY, luck], rt); !u.ok && |u.records| == 1
  {
    var start := Progress(rt, {}, [], [], true);
    assert UpAll(app, recorded, [], [], rt) == start;
    assert [a, b] == [a] + [b] && [LUCKY, luck] == [LUCKY] + [luck] && [] + [a] == [a] && [] + [LUCKY] == [LUCKY];
    UpAllSnoc(app, recorded, [], [], a, LUCKY, rt);
    UpAllSnoc(app, recorded, [a], [LUCKY], b, luck, rt);
    ChangedIsRecreated(app, recorded, a, start);
    RunFails(app, recorded, b, luck, StepService(app, recorded, a, LUCKY, start));
    hide StepService, UpAll;
  }

  /** With everything going well, a service whose configuration changed is recreated. */
  lemma ChangedIsRecreated(app: string, recorded: seq<Record>, s: ComposeService, u: Progress)
    requires forall i :: 0 <= i < |recorded| ==> !Unchanged(recorded[i], s)
    ensures var u' := StepService(app, recorded, s, LUCKY, u); u'.ok && |u'.records| == |u.records| + 1
  {
    DecideExact(ContainerName(app, s.name), s, recorded, LUCKY, u.runtime);
    hide Decide, Pick;
  }

  lemma OutdatesFirst(app: string, recorded: seq<Record>, a: ComposeService, b: ComposeService, luck: Luck, rt: Runtime)
    requires |recorded| == 1 && recorded[0].hash != FingerprintOf(a) && recorded[0].service == a.name
    ensures Recreated(app, recorded, [a, b], [LUCKY, luck], rt, 1)
  {
    assert Outdates(app, recorded, [a, b][0], [LUCKY, luck][0], rt, recorded[0]);
  }

  lemma OneRecordInSync(app: string, recorded: seq<Record>, rt: Runtime)
    requires |recorded| == 1 && RecordInSync(app, recorded[0], rt)
    ensures InSync(app, recorded, rt)
  {
  }

  lemma RunFails(app: string, recorded: seq<Record>, s: ComposeService, luck: Luck, u: Progress)
    requires !luck.runOk && forall i :: 0 <= i < |recorded| ==> recorded[i].service != s.name
    ensures !StepService(app, recorded, s, luck, u).ok && StepService(app, recorded, s, luck, u).records == u.records
  {
    DecideExact(ContainerName(app, s.name), s, recorded, luck, u.runtime);
  }
}
