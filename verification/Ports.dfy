/** Picking host ports (`src/apps/app.cpp`, the port loop of `app_up`). */
module Ports {
  import opened Compose

  ghost predicate IsLeastFree(taken: set<Port>, wanted: Port, port: Port) {
    port >= wanted && port !in taken && forall p: Port :: wanted <= p < port ==> p in taken
  }

  function AtLeast(taken: set<Port>, from: Port): set<Port> {
    set p | p in taken && p >= from
  }

  /** The first port from `from` up that is not taken; there is one because the taken set is finite. */
  function FirstFree(taken: set<Port>, from: Port): (port: Port)
    ensures IsLeastFree(taken, from, port)
    decreases AtLeast(taken, from)
  {
    if from !in taken then from
    else
      assert from in AtLeast(taken, from) && from !in AtLeast(taken, from + 1);
      FirstFree(taken, from + 1)
  }

  lemma LeastFreeIsUnique(taken: set<Port>, wanted: Port, p: Port, q: Port)
    requires IsLeastFree(taken, wanted, p) && IsLeastFree(taken, wanted, q)
    ensures p == q
  {
  }

  /** The ports picked for a service's mappings, and the claims afterwards. */
  function Pick(ports: seq<PortMapping>, inUse: set<Port>, claimed: set<Port>): (seq<PortMapping>, set<Port>)
    decreases |ports|
  {
    if ports == [] then ([], claimed)
    else
      var (picked, claimed') := Pick(ports[..|ports| - 1], inUse, claimed);
      var last := ports[|ports| - 1];
      match last.host
      case Verbatim(_) => (picked + [last], claimed')
      case Numeric(wanted) =>
        var port := FirstFree(inUse + claimed', wanted);
        (picked + [PortMapping(Numeric(port), last.container)], claimed' + {port})
  }

  /** The numeric host ports among some mappings. */
  function HostPorts(ports: seq<PortMapping>): seq<Port> {
    if ports == [] then []
    else
      var last := ports[|ports| - 1];
      HostPorts(ports[..|ports| - 1]) + if last.host.Numeric? then [last.host.port] else []
  }

  ghost predicate Distinct(s: seq<Port>) {
    forall i, j :: 0 <= i < j < |s| ==> s[i] != s[j]
  }

  lemma HostPortsSnoc(ports: seq<PortMapping>, p: PortMapping)
    ensures HostPorts(ports + [p]) == HostPorts(ports) + if p.host.Numeric? then [p.host.port] else []
  {
    assert (ports + [p])[..|ports|] == ports;
  }

  function SetOf(ports: seq<Port>): set<Port> {
    set p | p in ports
  }

  /** The `i`-th pick: the container port and any text are kept, and a number becomes the least one still free. */
  ghost predicate PickedRight(ports: seq<PortMapping>, picked: seq<PortMapping>, inUse: set<Port>, claimed: set<Port>,
                              i: nat)
    requires i < |ports| == |picked|
  {
    && picked[i].container == ports[i].container
    && match ports[i].host
       case Verbatim(_) => picked[i].host == ports[i].host
       case Numeric(wanted) =>
         && picked[i].host.Numeric?
         && IsLeastFree(inUse + claimed + SetOf(HostPorts(picked[..i])), wanted, picked[i].host.port)
  }

  /** Picked ports are distinct, unclaimed before, claimed after, not in use, and the least ones possible. */
  ghost predicate PickedAll(ports: seq<PortMapping>, picked: seq<PortMapping>, inUse: set<Port>, claimed: set<Port>,
                            claimed': set<Port>) {
    && |picked| == |ports| && Distinct(HostPorts(picked))
    && claimed' == claimed + SetOf(HostPorts(picked))
    && (forall p :: p in HostPorts(picked) ==> p !in claimed && p !in inUse)
    && forall i :: 0 <= i < |ports| ==> PickedRight(ports, picked, inUse, claimed, i)
  }

  lemma {:induction false} PickExact(ports: seq<PortMapping>, inUse: set<Port>, claimed: set<Port>)
    ensures var (picked, claimed') := Pick(ports, inUse, claimed); PickedAll(ports, picked, inUse, claimed, claimed')
    decreases |ports|
  {
    if ports != [] {
      hide PickedAll, FirstFree;
      var n := |ports| - 1;
      PickExact(ports[..n], inUse, claimed);
      var (before, claimed0) := Pick(ports[..n], inUse, claimed);
      assert ports == ports[..n] + [ports[n]];
      match ports[n].host
      case Verbatim(_) =>
        PickedText(ports[..n], ports[n], before, inUse, claimed, claimed0);
      case Numeric(wanted) =>
        PickedNumber(ports[..n], ports[n], before, inUse, claimed, claimed0);
    }
  }

  /** The earlier picks stay right when one more mapping is picked. */
  lemma EarlierStayRight(ports: seq<PortMapping>, p: PortMapping, before: seq<PortMapping>, q: PortMapping,
                         inUse: set<Port>, claimed: set<Port>, i: nat)
    requires i < |ports| == |before| && PickedRight(ports, before, inUse, claimed, i)
    ensures PickedRight(ports + [p], before + [q], inUse, claimed, i)
  {
    assert (before + [q])[..i] == before[..i];
  }

  lemma PickedText(ports: seq<PortMapping>, p: PortMapping, before: seq<PortMapping>, inUse: set<Port>,
                   claimed: set<Port>, claimed0: set<Port>)
    requires PickedAll(ports, before, inUse, claimed, claimed0) && p.host.Verbatim?
    ensures PickedAll(ports + [p], before + [p], inUse, claimed, claimed0)
  {
    hide HostPorts, IsLeastFree;
    HostPortsSnoc(before, p);
    assert HostPorts(before + [p]) == HostPorts(before);
    forall i | 0 <= i < |ports| ensures PickedRight(ports + [p], before + [p], inUse, claimed, i) {
      EarlierStayRight(ports, p, before, p, inUse, claimed, i);
    }
  }

  lemma PickedNumber(ports: seq<PortMapping>, p: PortMapping, before: seq<PortMapping>, inUse: set<Port>,
                     claimed: set<Port>, claimed0: set<Port>)
    requires PickedAll(ports, before, inUse, claimed, claimed0) && p.host.Numeric?
    ensures var port := FirstFree(inUse + claimed0, p.host.port);
      PickedAll(ports + [p], before + [PortMapping(Numeric(port), p.container)], inUse, claimed, claimed0 + {port})
  {
    var port := FirstFree(inUse + claimed0, p.host.port);
    assert port !in inUse + claimed0;
    hide HostPorts, IsLeastFree, FirstFree;
    var q := PortMapping(Numeric(port), p.container);
    HostPortsSnoc(before, q);
    forall i | 0 <= i < |ports| ensures PickedRight(ports + [p], before + [q], inUse, claimed, i) {
      EarlierStayRight(ports, p, before, q, inUse, claimed, i);
    }
    assert (before + [q])[..|ports|] == before;
    assert inUse + claimed0 == inUse + claimed + SetOf(HostPorts(before));
  }

  /** The port loop of `app_up`. */
  method PickPorts(ports: seq<PortMapping>, inUse: set<Port>, claimed: set<Port>)
    returns (picked: seq<PortMapping>, claimed': set<Port>)
    ensures (picked, claimed') == Pick(ports, inUse, claimed)
  {
    picked, claimed' := [], claimed;
    for i := 0 to |ports|
      invariant (picked, claimed') == Pick(ports[..i], inUse, claimed)
    {
      assert ports[..i + 1][..i] == ports[..i];
      match ports[i].host {
        case Verbatim(_) =>
          picked := picked + [ports[i]];
        case Numeric(wanted) =>
          var actual: Port := wanted;
          if wanted in inUse || wanted in claimed' {
            actual := wanted + 1;
            while actual in inUse || actual in claimed'
              invariant actual > wanted && forall p: Port :: wanted <= p < actual ==> p in inUse + claimed'
              decreases AtLeast(inUse + claimed', actual)
            {
              assert actual in AtLeast(inUse + claimed', actual) && actual !in AtLeast(inUse + claimed', actual + 1);
              actual := actual + 1;
            }
          }
          LeastFreeIsUnique(inUse + claimed', wanted, actual, FirstFree(inUse + claimed', wanted));
          claimed' := claimed' + {actual};
          picked := picked + [PortMapping(Numeric(actual), ports[i].container)];
      }
    }
    assert ports[..|ports|] == ports;
  }
}
