/** The container commands that `app_up` issues, and what a failed service leaves (`src/apps/app.cpp`). */
module Commands {
  import opened Compose
  import opened Ports
  import opened Reconcile

  /** The commands about one container. */
  function About(log: seq<Command>, name: string): seq<Command> {
    if log == [] then []
    else
      var last := log[|log| - 1];
      About(log[..|log| - 1], name) + if last.name == name then [last] else []
  }

  lemma {:induction false} AboutConcat(a: seq<Command>, b: seq<Command>, name: string)
    ensures About(a + b, name) == About(a, name) + About(b, name)
    decreases |b|
  {
    if b == [] {
      assert a + b == a && About(a, name) + [] == About(a, name);
    } else {
      assert (a + b)[..|a + b| - 1] == a + b[..|b| - 1];
      AboutConcat(a, b[..|b| - 1], name);
    }
  }

  lemma {:induction false} AboutOne(log: seq<Command>, name: string, other: string)
    requires forall i :: 0 <= i < |log| ==> log[i].name == name
    ensures About(log, other) == if other == name then log else []
    decreases |log|
  {
    if log != [] { AboutOne(log[..|log| - 1], name, other); }
  }

  function Recreation(name: string, ports: seq<PortMapping>): seq<Command> {
    [Stop(name), Rm(name), Run(name, ports)]
  }

  /** A container kept is only ever started, unless it was listed as running; any other is stopped, removed and run. */
  ghost predicate Turn(app: string, recorded: seq<Record>, s: ComposeService, luck: Luck, rt: Runtime,
                       log: seq<Command>)
  {
    var name := ContainerName(app, s.name);
    if Keeps(name, s, recorded, luck, rt) then
      && (forall i :: 0 <= i < |log| ==> log[i] == Start(name))
      && (log == [] <==> luck.listOk && rt[name].running)
    else
      |log| == 3 && log[2].Run? && log == Recreation(name, log[2].ports)
  }

  /** The commands that one service adds. */
  lemma StepTurn(app: string, recorded: seq<Record>, s: ComposeService, luck: Luck, u: Progress)
    returns (more: seq<Command>)
    ensures StepService(app, recorded, s, luck, u).log == u.log + more
    ensures Turn(app, recorded, s, luck, u.runtime, more)
    ensures forall i :: 0 <= i < |more| ==> more[i].name == ContainerName(app, s.name)
  {
    var name := ContainerName(app, s.name);
    var d := Decide(name, s, recorded, luck, u.runtime);
    var picked := Pick(s.ports, luck.inUse, u.claimed).0;
    DecideExact(name, s, recorded, luck, u.runtime);
    more := if d.needsRun then Recreation(name, picked) else d.log;
    assert u.log + [] == u.log;
    hide Decide, Pick, Keeps, Discard, RecordedPorts;
  }

  /** Each service had its turn, and no other container was touched. */
  ghost predicate Turns(app: string, recorded: seq<Record>, services: seq<ComposeService>, lucks: seq<Luck>,
                        rt: Runtime, log: seq<Command>)
    requires |lucks| == |services|
  {
    && (forall i :: 0 <= i < |services| ==>
          Turn(app, recorded, services[i], lucks[i], rt, About(log, ContainerName(app, services[i].name))))
    && Untouched(app, services, log)
  }

  ghost predicate Untouched(app: string, services: seq<ComposeService>, log: seq<Command>) {
    forall n :: (forall i :: 0 <= i < |services| ==> n != ContainerName(app, services[i].name)) ==> About(log, n) == []
  }

  lemma UntouchedGrows(app: string, services: seq<ComposeService>, log: seq<Command>, s: ComposeService,
                       more: seq<Command>)
    requires Untouched(app, services, log)
    requires forall i :: 0 <= i < |more| ==> more[i].name == ContainerName(app, s.name)
    ensures Untouched(app, services + [s], log + more)
  {
    hide ContainerName, About;
    var all := services + [s];
    forall n | forall i :: 0 <= i < |all| ==> n != ContainerName(app, all[i].name) ensures About(log + more, n) == [] {
      assert all[|services|] == s;
      forall i | 0 <= i < |services| ensures n != ContainerName(app, services[i].name) {
        assert all[i] == services[i];
      }
      AboutConcat(log, more, n);
      AboutOne(more, ContainerName(app, s.name), n);
    }
  }

  lemma OwnCommands(app: string, services: seq<ComposeService>, log: seq<Command>, s: ComposeService,
                    more: seq<Command>)
    requires Untouched(app, services, log) && forall i :: 0 <= i < |services| ==> services[i].name != s.name
    requires forall i :: 0 <= i < |more| ==> more[i].name == ContainerName(app, s.name)
    ensures About(log + more, ContainerName(app, s.name)) == more
  {
    var name := ContainerName(app, s.name);
    forall i | 0 <= i < |services| ensures name != ContainerName(app, services[i].name) {
      ContainerNamesDiffer(app, s.name, services[i].name);
    }
    hide ContainerName, About;
    AboutConcat(log, more, name);
    AboutOne(more, name, name);
    assert About(log, name) == [] && [] + more == more;
  }

  lemma OldCommands(app: string, log: seq<Command>, other: string, s: ComposeService, more: seq<Command>)
    requires other != s.name && forall i :: 0 <= i < |more| ==> more[i].name == ContainerName(app, s.name)
    ensures About(log + more, ContainerName(app, other)) == About(log, ContainerName(app, other))
  {
    ContainerNamesDiffer(app, other, s.name);
    hide ContainerName, About;
    AboutConcat(log, more, ContainerName(app, other));
    AboutOne(more, ContainerName(app, s.name), ContainerName(app, other));
  }

  lemma TurnsGrow(app: string, recorded: seq<Record>, services: seq<ComposeService>, lucks: seq<Luck>, rt: Runtime,
                  log: seq<Command>, s: ComposeService, luck: Luck, more: seq<Command>)
    requires |lucks| == |services| && Turns(app, recorded, services, lucks, rt, log)
    requires forall i :: 0 <= i < |services| ==> services[i].name != s.name
    requires Turn(app, recorded, s, luck, rt, more)
    requires forall i :: 0 <= i < |more| ==> more[i].name == ContainerName(app, s.name)
    ensures Turns(app, recorded, services + [s], lucks + [luck], rt, log + more)
  {
    hide Turn, ContainerName, About;
    var all, allLucks := services + [s], lucks + [luck];
    UntouchedGrows(app, services, log, s, more);
    OwnCommands(app, services, log, s, more);
    hide Untouched;
    forall i | 0 <= i < |all|
      ensures Turn(app, recorded, all[i], allLucks[i], rt, About(log + more, ContainerName(app, all[i].name)))
    {
      if i < |services| { OldCommands(app, log, services[i].name, s, more); }
    }
  }

  lemma NothingIssued(app: string, recorded: seq<Record>, rt: Runtime)
    ensures Turns(app, recorded, [], [], rt, UpAll(app, recorded, [], [], rt).log)
  {
  }

  /**
   The commands of a successful run, container by container: one kept is started unless it was listed as running, one
   recreated is stopped, removed and run, in this order, and no other is touched.
   */
  lemma {:induction false} CommandsExactly(app: string, recorded: seq<Record>, services: seq<ComposeService>,
                                           lucks: seq<Luck>, rt: Runtime)
    requires |lucks| == |services| && DistinctNames(services) && UpAll(app, recorded, services, lucks, rt).ok
    ensures Turns(app, recorded, services, lucks, rt, UpAll(app, recorded, services, lucks, rt).log)
    decreases |services|
  {
    hide *;
    if services == [] {
      NothingIssued(app, recorded, rt);
    } else {
      var n := |services| - 1;
      var front, s, lucks0, luck := services[..n], services[n], lucks[..n], lucks[n];
      assert services == front + [s] && lucks == lucks0 + [luck];
      UpAllSnoc(app, recorded, front, lucks0, s, luck, rt);
      FrontNames(front, s);
      CommandsExactly(app, recorded, front, lucks0, rt);
      var u := UpAll(app, recorded, front, lucks0, rt);
      var more := StepTurn(app, recorded, s, luck, u);
      FoundFromStart(app, recorded, front, lucks0, rt, s, luck);
      TurnFromStart(app, recorded, s, luck, rt, u.runtime, more);
      TurnsGrow(app, recorded, front, lucks0, rt, u.log, s, luck, more);
    }
  }

  lemma TurnFromStart(app: string, recorded: seq<Record>, s: ComposeService, luck: Luck, rt: Runtime, mid: Runtime,
                      log: seq<Command>)
    requires Turn(app, recorded, s, luck, mid, log)
    requires var name := ContainerName(app, s.name);
      && (name in mid <==> name in rt) && (name in rt ==> mid[name] == rt[name])
      && (Keeps(name, s, recorded, luck, mid) <==> Keeps(name, s, recorded, luck, rt))
    ensures Turn(app, recorded, s, luck, rt, log)
  {
  }

  /**
   A service that cannot start leaves no other container changed, and of its own: nothing if it was removed, else the
   old one, stopped if that worked.
   */
  lemma FailureLeaves(app: string, recorded: seq<Record>, s: ComposeService, luck: Luck, u: Progress)
    requires CannotStart(app, recorded, s, luck, u.runtime)
    ensures var rt, rt', name := u.runtime, StepService(app, recorded, s, luck, u).runtime, ContainerName(app, s.name);
      && SameExcept(rt, rt', name)
      && (name in rt' <==> name in rt && !luck.rmOk)
      && (name in rt' ==> rt'[name] == rt[name].(running := rt[name].running && !luck.stopOk))
  {
    DecideExact(ContainerName(app, s.name), s, recorded, luck, u.runtime);
    hide Decide, Pick;
  }
}
