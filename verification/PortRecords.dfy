/** The host ports that the state file records after `app_up` (`src/apps/app.cpp`). */
module PortRecords {
  import opened Compose
  import opened Ports
  import opened Reconcile

  /** The numeric host ports of all records. */
  function AllPorts(records: seq<Record>): seq<Port>
    decreases |records|
  {
    if records == [] then [] else AllPorts(records[..|records| - 1]) + HostPorts(records[|records| - 1].ports)
  }

  lemma AllPortsSnoc(records: seq<Record>, r: Record)
    ensures AllPorts(records + [r]) == AllPorts(records) + HostPorts(r.ports)
  {
    assert (records + [r])[..|records|] == records;
  }

  // ---- told beforehand ----

  /** The ports that the services claim: a fold of the picks over the wanted ports and the ports in use. */
  function Claims(services: seq<ComposeService>, lucks: seq<Luck>): set<Port>
    requires |lucks| == |services|
    decreases |services|
  {
    if services == [] then {}
    else
      var n := |services| - 1;
      Pick(services[n].ports, lucks[n].inUse, Claims(services[..n], lucks[..n])).1
  }

  /** What the service after these is given if it is created. */
  function PicksAfter(services: seq<ComposeService>, lucks: seq<Luck>, s: ComposeService, luck: Luck): seq<PortMapping>
    requires |lucks| == |services|
  {
    Pick(s.ports, luck.inUse, Claims(services, lucks)).0
  }

  ghost predicate KeptAtStart(app: string, recorded: seq<Record>, s: ComposeService, luck: Luck, rt: Runtime) {
    Keeps(ContainerName(app, s.name), s, recorded, luck, rt)
  }

  /** The ports of the services that will be created, from what is in use, recorded and running before the run. */
  ghost function Created(app: string, recorded: seq<Record>, services: seq<ComposeService>, lucks: seq<Luck>,
                         rt: Runtime): seq<Port>
    requires |lucks| == |services|
    decreases |services|
  {
    if services == [] then []
    else
      var n := |services| - 1;
      Created(app, recorded, services[..n], lucks[..n], rt) +
      if KeptAtStart(app, recorded, services[n], lucks[n], rt) then []
      else HostPorts(PicksAfter(services[..n], lucks[..n], services[n], lucks[n]))
  }

  /** The ports recorded, before the run, for the services that will be kept. */
  ghost function Held(app: string, recorded: seq<Record>, services: seq<ComposeService>, lucks: seq<Luck>,
                      rt: Runtime): seq<Port>
    requires |lucks| == |services|
    decreases |services|
  {
    if services == [] then []
    else
      var n := |services| - 1;
      var kept := KeptAtStart(app, recorded, services[n], lucks[n], rt);
      Held(app, recorded, services[..n], lucks[..n], rt) +
      if kept then HostPorts(RecordedPorts(recorded, services[n].name, [])) else []
  }

  lemma {:induction false} RecordedWhatever(recorded: seq<Record>, service: string, a: seq<PortMapping>,
                                            b: seq<PortMapping>)
    requires exists i :: 0 <= i < |recorded| && recorded[i].service == service
    ensures RecordedPorts(recorded, service, a) == RecordedPorts(recorded, service, b)
    decreases |recorded|
  {
    var n := |recorded| - 1;
    if recorded[n].service != service {
      var i :| 0 <= i < |recorded| && recorded[i].service == service;
      assert recorded[..n][i].service == service;
      RecordedWhatever(recorded[..n], service, a, b);
    }
  }

  ghost predicate Disjoint(a: seq<Port>, b: seq<Port>) {
    forall p :: p in a ==> p !in b
  }

  lemma Overlap(a: seq<Port>, b: seq<Port>, p: Port)
    requires p in a && p in b
    ensures !Distinct(a + b)
  {
    var i :| 0 <= i < |a| && a[i] == p;
    var j :| 0 <= j < |b| && b[j] == p;
    assert (a + b)[i] == (a + b)[|a| + j];
  }

  lemma ConcatExactly(a: seq<Port>, b: seq<Port>)
    ensures Distinct(a + b) <==> Distinct(a) && Distinct(b) && Disjoint(a, b)
  {
    if p :| p in a && p in b {
      Overlap(a, b, p);
    } else {
      forall i, j | 0 <= i < j < |a| ensures (a + b)[i] == a[i] && (a + b)[j] == a[j] {
      }
      forall i, j | 0 <= i < j < |b| ensures (a + b)[|a| + i] == b[i] && (a + b)[|a| + j] == b[j] {
      }
      if Distinct(a) && Distinct(b) { DistinctConcat(a, b); }
    }
  }

  /** All recorded ports are those kept and those of the containers created. */
  ghost predicate Parts(all: seq<Port>, kept: seq<Port>, created: seq<Port>) {
    && (forall p :: p in all <==> p in kept || p in created)
    && (Distinct(all) <==> Distinct(kept) && Distinct(created) && Disjoint(kept, created))
  }

  lemma PartsGrow(all: seq<Port>, kept: seq<Port>, created: seq<Port>, more: seq<Port>)
    requires Parts(all, kept, created)
    ensures Parts(all + more, kept + more, created) && Parts(all + more, kept, created + more)
  {
    hide Distinct;
    ConcatExactly(all, more);
    ConcatExactly(kept, more);
    ConcatExactly(created, more);
  }

  lemma StepRecords(app: string, recorded: seq<Record>, s: ComposeService, luck: Luck, u: Progress)
    requires StepService(app, recorded, s, luck, u).ok
    ensures var u' := StepService(app, recorded, s, luck, u);
      var (picked, claimed) := Pick(s.ports, luck.inUse, u.claimed);
      && u'.claimed == claimed
      && if Keeps(ContainerName(app, s.name), s, recorded, luck, u.runtime) then
           && AllPorts(u'.records) == AllPorts(u.records) + HostPorts(RecordedPorts(recorded, s.name, []))
           && RunPorts(u'.log) == RunPorts(u.log)
         else
           && AllPorts(u'.records) == AllPorts(u.records) + HostPorts(picked)
           && RunPorts(u'.log) == RunPorts(u.log) + HostPorts(picked)
  {
    var name := ContainerName(app, s.name);
    var d := Decide(name, s, recorded, luck, u.runtime);
    var picked := Pick(s.ports, luck.inUse, u.claimed).0;
    DecideExact(name, s, recorded, luck, u.runtime);
    if Keeps(name, s, recorded, luck, u.runtime) { RecordedWhatever(recorded, s.name, picked, []); }
    StartsHaveNoPorts(u.log, d.log);
    RecreatePorts(u.log + d.log, name, picked);
    AllPortsSnoc(u.records, StepService(app, recorded, s, luck, u).records[|u.records|]);
    hide Decide, Pick, RunPorts, HostPorts, AllPorts, Discard, RecordedPorts, Keeps;
  }

  lemma ClaimsSnoc(services: seq<ComposeService>, lucks: seq<Luck>, s: ComposeService, luck: Luck)
    requires |lucks| == |services|
    ensures Claims(services + [s], lucks + [luck]) == Pick(s.ports, luck.inUse, Claims(services, lucks)).1
  {
    hide Pick;
    assert (services + [s])[..|services|] == services && (lucks + [luck])[..|lucks|] == lucks;
  }

  lemma PortsSnoc(app: string, recorded: seq<Record>, services: seq<ComposeService>, lucks: seq<Luck>, rt: Runtime,
                  s: ComposeService, luck: Luck)
    requires |lucks| == |services|
    ensures var kept := KeptAtStart(app, recorded, s, luck, rt);
      && Created(app, recorded, services + [s], lucks + [luck], rt) == Created(app, recorded, services, lucks, rt)
         + (if kept then [] else HostPorts(PicksAfter(services, lucks, s, luck)))
      && Held(app, recorded, services + [s], lucks + [luck], rt) == Held(app, recorded, services, lucks, rt)
         + (if kept then HostPorts(RecordedPorts(recorded, s.name, [])) else [])
  {
    hide KeptAtStart, PicksAfter, HostPorts, RecordedPorts;
    assert (services + [s])[..|services|] == services && (lucks + [luck])[..|lucks|] == lucks;
  }

  /** What the run did with ports is what was told beforehand. */
  ghost predicate AsTold(app: string, recorded: seq<Record>, services: seq<ComposeService>, lucks: seq<Luck>,
                         rt: Runtime, u: Progress)
    requires |lucks| == |services|
  {
    var held, created := Held(app, recorded, services, lucks, rt), Created(app, recorded, services, lucks, rt);
    && u.claimed == Claims(services, lucks)
    && RunPorts(u.log) == created
    && Parts(AllPorts(u.records), held, created)
  }

  lemma AsToldStep(app: string, recorded: seq<Record>, services: seq<ComposeService>, lucks: seq<Luck>, rt: Runtime,
                   s: ComposeService, luck: Luck, u: Progress)
    requires |lucks| == |services| && AsTold(app, recorded, services, lucks, rt, u)
    requires StepService(app, recorded, s, luck, u).ok
    requires Keeps(ContainerName(app, s.name), s, recorded, luck, u.runtime)
      <==> KeptAtStart(app, recorded, s, luck, rt)
    ensures AsTold(app, recorded, services + [s], lucks + [luck], rt, StepService(app, recorded, s, luck, u))
  {
    StepRecords(app, recorded, s, luck, u);
    ClaimsSnoc(services, lucks, s, luck);
    PortsSnoc(app, recorded, services, lucks, rt, s, luck);
    hide StepService, Keeps, KeptAtStart, Pick, HostPorts, RunPorts, AllPorts, RecordedPorts, Parts, Claims, Created,
      Held, ContainerName;
    var held, created := Held(app, recorded, services, lucks, rt), Created(app, recorded, services, lucks, rt);
    if KeptAtStart(app, recorded, s, luck, rt) {
      PartsGrow(AllPorts(u.records), held, created, HostPorts(RecordedPorts(recorded, s.name, [])));
      assert created + [] == created;
    } else {
      PartsGrow(AllPorts(u.records), held, created, HostPorts(PicksAfter(services, lucks, s, luck)));
      assert held + [] == held;
    }
  }

  /** A successful run claims, creates and records just the ports told beforehand. */
  lemma {:induction false} PortsToldBeforehand(app: string, recorded: seq<Record>, services: seq<ComposeService>,
                                               lucks: seq<Luck>, rt: Runtime)
    requires |lucks| == |services| && DistinctNames(services) && UpAll(app, recorded, services, lucks, rt).ok
    ensures AsTold(app, recorded, services, lucks, rt, UpAll(app, recorded, services, lucks, rt))
    decreases |services|
  {
    hide *;
    if services == [] {
      NothingTold(app, recorded, rt);
    } else {
      var n := |services| - 1;
      var front, s, lucks0, luck := services[..n], services[n], lucks[..n], lucks[n];
      assert services == front + [s] && lucks == lucks0 + [luck];
      UpAllSnoc(app, recorded, front, lucks0, s, luck, rt);
      FrontNames(front, s);
      PortsToldBeforehand(app, recorded, front, lucks0, rt);
      FoundFromStart(app, recorded, front, lucks0, rt, s, luck);
      KeptMeans(app, recorded, s, luck, rt);
      AsToldStep(app, recorded, front, lucks0, rt, s, luck, UpAll(app, recorded, front, lucks0, rt));
    }
  }

  lemma KeptMeans(app: string, recorded: seq<Record>, s: ComposeService, luck: Luck, rt: Runtime)
    ensures KeptAtStart(app, recorded, s, luck, rt) <==> Keeps(ContainerName(app, s.name), s, recorded, luck, rt)
  {
  }

  lemma NothingTold(app: string, recorded: seq<Record>, rt: Runtime)
    ensures AsTold(app, recorded, [], [], rt, UpAll(app, recorded, [], [], rt))
  {
  }

  /**
   After a successful run the recorded ports are pairwise distinct exactly if the ports recorded before for the kept
   services are, and none of them is picked for a service that is created: both are known before the run, from the
   state file, the containers, the ports in use and the ports wanted.
   */
  lemma RecordedPortsDistinctExactly(app: string, recorded: seq<Record>, services: seq<ComposeService>,
                                     lucks: seq<Luck>, rt: Runtime)
    requires |lucks| == |services| && DistinctNames(services) && UpAll(app, recorded, services, lucks, rt).ok
    ensures var held, created := Held(app, recorded, services, lucks, rt), Created(app, recorded, services, lucks, rt);
      Distinct(AllPorts(UpAll(app, recorded, services, lucks, rt).records))
      <==> Distinct(held) && Disjoint(held, created)
  {
    hide UpAll, Held, Created, Distinct, Disjoint, AllPorts, RunPorts;
    PortsToldBeforehand(app, recorded, services, lucks, rt);
    CreatedPortsAreDistinct(app, recorded, services, lucks, rt);
  }

  // ---- the guard ----

  ghost predicate Avoids(held: set<Port>, ports: seq<PortMapping>, inUse: set<Port>, claimed: set<Port>) {
    held !! SetOf(HostPorts(Pick(ports, inUse, claimed).0))
  }

  /** Picking avoids some ports, whatever is wanted, exactly if they are all in use or claimed. */
  lemma PicksAvoidExactly(held: set<Port>, inUse: set<Port>, claimed: set<Port>)
    ensures (forall ports :: Avoids(held, ports, inUse, claimed)) <==> held <= inUse + claimed
  {
    if held <= inUse + claimed {
      forall ports ensures Avoids(held, ports, inUse, claimed) {
        PickExact(ports, inUse, claimed);
      }
    } else {
      var p :| p in held && p !in inUse + claimed;
      PickFree(p, inUse, claimed);
      OneHostPort(p);
      assert p in SetOf(HostPorts(Pick([PortMapping(Numeric(p), "80")], inUse, claimed).0));
      assert !Avoids(held, [PortMapping(Numeric(p), "80")], inUse, claimed);
    }
  }

  /** A service that no record names, wanting some ports. */
  function Wanting(s: ComposeService, ports: seq<PortMapping>): ComposeService {
    s.(ports := ports)
  }

  lemma UnrecordedIsCreated(app: string, recorded: seq<Record>, s: ComposeService, luck: Luck, rt: Runtime)
    requires forall i :: 0 <= i < |recorded| ==> recorded[i].service != s.name
    ensures !KeptAtStart(app, recorded, s, luck, rt)
  {
  }

  /** No port held is picked for a service that is created, the new one with these wanted ports included. */
  ghost predicate SafeWith(app: string, recorded: seq<Record>, services: seq<ComposeService>, lucks: seq<Luck>,
                           rt: Runtime, s: ComposeService, luck: Luck, ports: seq<PortMapping>)
    requires |lucks| == |services|
  {
    Disjoint(Held(app, recorded, services, lucks, rt),
      Created(app, recorded, services + [Wanting(s, ports)], lucks + [luck], rt))
  }

  lemma SafeWithExactly(app: string, recorded: seq<Record>, services: seq<ComposeService>, lucks: seq<Luck>,
                        rt: Runtime, s: ComposeService, luck: Luck, ports: seq<PortMapping>)
    requires |lucks| == |services| && forall i :: 0 <= i < |recorded| ==> recorded[i].service != s.name
    ensures var held, created := Held(app, recorded, services, lucks, rt), Created(app, recorded, services, lucks, rt);
      SafeWith(app, recorded, services, lucks, rt, s, luck, ports)
      <==> Disjoint(held, created) && Avoids(SetOf(held), ports, luck.inUse, Claims(services, lucks))
  {
    hide Held, Created, Claims, Pick, HostPorts, KeptAtStart, Disjoint;
    PortsSnoc(app, recorded, services, lucks, rt, Wanting(s, ports), luck);
    UnrecordedIsCreated(app, recorded, Wanting(s, ports), luck, rt);
    DisjointConcat(Held(app, recorded, services, lucks, rt), Created(app, recorded, services, lucks, rt),
      HostPorts(Pick(ports, luck.inUse, Claims(services, lucks)).0));
  }

  /**
   A new service, whatever ports it wants, is never given a port held by those before it exactly if every held port is
   in use or claimed when its turn comes.
   */
  lemma NewServiceIsSafeExactly(app: string, recorded: seq<Record>, services: seq<ComposeService>, lucks: seq<Luck>,
                                rt: Runtime, s: ComposeService, luck: Luck)
    requires |lucks| == |services| && forall i :: 0 <= i < |recorded| ==> recorded[i].service != s.name
    ensures var held, created := Held(app, recorded, services, lucks, rt), Created(app, recorded, services, lucks, rt);
      (forall ports :: SafeWith(app, recorded, services, lucks, rt, s, luck, ports))
      <==>
      Disjoint(held, created) && SetOf(held) <= luck.inUse + Claims(services, lucks)
  {
    hide *;
    var held, created := Held(app, recorded, services, lucks, rt), Created(app, recorded, services, lucks, rt);
    var claimed := Claims(services, lucks);
    PicksAvoidExactly(SetOf(held), luck.inUse, claimed);
    forall ports
      ensures SafeWith(app, recorded, services, lucks, rt, s, luck, ports)
        <==> Disjoint(held, created) && Avoids(SetOf(held), ports, luck.inUse, claimed)
    {
      SafeWithExactly(app, recorded, services, lucks, rt, s, luck, ports);
    }
    SafeWithExactly(app, recorded, services, lucks, rt, s, luck, []);
  }

  lemma DisjointConcat(a: seq<Port>, b: seq<Port>, c: seq<Port>)
    ensures Disjoint(a, b + c) <==> Disjoint(a, b) && SetOf(a) !! SetOf(c)
  {
    if SetOf(a) !! SetOf(c) {
      forall p | p in a ensures p !in c {
        assert p in SetOf(a);
      }
    }
  }

  /** A port in use is never picked, so kept services that listen all along are safe. */
  lemma PickedNotInUse(ports: seq<PortMapping>, inUse: set<Port>, claimed: set<Port>, p: Port)
    requires p in inUse
    ensures p !in HostPorts(Pick(ports, inUse, claimed).0)
  {
    PickExact(ports, inUse, claimed);
  }

  function Web(name: string, port: Port): ComposeService {
    ComposeService(name, "image", "", [PortMapping(Numeric(port), "80")], [])
  }

  /**
   A stopped service that wants port 80 and is recorded on 81 is started again, which claims 80; the new service that
   wants 81 is then given 81 as well.
   */
  lemma RecordedPortsClash()
    ensures var a, b := Web("a", 80), Web("b", 81);
      var recorded := [Record("a", "x-a", "image", FingerprintOf(a), [PortMapping(Numeric(81), "80")])];
      var rt := map["x-a" := Container(false, FingerprintOf(a))];
      var u := UpAll("x", recorded, [a, b], [LUCKY, LUCKY], rt);
      u.ok && |u.records| == 2 && HostPorts(u.records[0].ports) == HostPorts(u.records[1].ports) == [81]
  {
    var a, b := Web("a", 80), Web("b", 81);
    var recorded := [Record("a", "x-a", "image", FingerprintOf(a), [PortMapping(Numeric(81), "80")])];
    var rt: Runtime := map["x-a" := Container(false, FingerprintOf(a))];
    var start := Progress(rt, {}, [], [], true);
    assert ContainerName("x", "a") == "x-a" && ContainerName("x", "b") == "x-b";
    assert [a, b] == [a] + [b] && [LUCKY, LUCKY] == [LUCKY] + [LUCKY] && [a] == [] + [a] && [LUCKY] == [] + [LUCKY];
    UpAllSnoc("x", recorded, [], [], a, LUCKY, rt);
    UpAllSnoc("x", recorded, [a], [LUCKY], b, LUCKY, rt);
    FirstIsKept(recorded, a, rt, start);
    var u := StepService("x", recorded, a, LUCKY, start);
    hide StepService, Pick, Decide;
    SecondIsCreated(recorded, b, u);
    assert HostPorts([PortMapping(Numeric(81), "80")]) == [81] by { OneHostPort(81); }
  }

  lemma OneHostPort(p: Port)
    ensures HostPorts([PortMapping(Numeric(p), "80")]) == [p]
  {
    HostPortsSnoc([], PortMapping(Numeric(p), "80"));
    assert [] + [PortMapping(Numeric(p), "80")] == [PortMapping(Numeric(p), "80")];
  }

  /** A wanted port that is free is picked. */
  lemma PickFree(p: Port, inUse: set<Port>, claimed: set<Port>)
    requires p !in inUse + claimed
    ensures Pick([PortMapping(Numeric(p), "80")], inUse, claimed) == ([PortMapping(Numeric(p), "80")], claimed + {p})
  {
    var m := PortMapping(Numeric(p), "80");
    assert [m][..0] == [] && [] + [m] == [m];
    assert Pick([m][..0], inUse, claimed) == ([], claimed);
    LeastFreeIsUnique(inUse + claimed, p, p, FirstFree(inUse + claimed, p));
  }

  lemma FirstIsKept(recorded: seq<Record>, a: ComposeService, rt: Runtime, u: Progress)
    requires a == Web("a", 80) && ContainerName("x", "a") == "x-a"
    requires recorded == [Record("a", "x-a", "image", FingerprintOf(a), [PortMapping(Numeric(81), "80")])]
    requires rt == map["x-a" := Container(false, FingerprintOf(a))] && u == Progress(rt, {}, [], [], true)
    ensures var u' := StepService("x", recorded, a, LUCKY, u);
      && u'.ok && u'.claimed == {80} && u'.runtime.Keys == {"x-a"}
      && |u'.records| == 1 && u'.records[0].ports == [PortMapping(Numeric(81), "80")]
  {
    assert Unchanged(recorded[0], a);
    DecideExact("x-a", a, recorded, LUCKY, rt);
    PickFree(80, {}, {});
    RecordedPortsFound(recorded, 0, Pick(a.ports, {}, {}).0);
    hide Decide, Pick;
  }

  lemma SecondIsCreated(recorded: seq<Record>, b: ComposeService, u: Progress)
    requires b == Web("b", 81) && |recorded| == 1 && recorded[0].service == "a" && ContainerName("x", "b") == "x-b"
    requires u.ok && u.claimed == {80} && u.runtime.Keys == {"x-a"} && |u.records| == 1
    ensures var u' := StepService("x", recorded, b, LUCKY, u);
      && u'.ok && |u'.records| == 2 && u'.records[0] == u.records[0]
      && u'.records[1].ports == [PortMapping(Numeric(81), "80")]
  {
    assert "x-b"[2] != "x-a"[2];
    assert "b"[0] != "a"[0];
    DecideExact("x-b", b, recorded, LUCKY, u.runtime);
    PickFree(81, {}, {80});
    hide Decide, Pick;
  }
}
