/** A service of a compose file, as far as launching it goes (`src/apps/compose.hpp`). */
module Compose {
  type Port = p: int | p > 0 witness 1

  /** A host port: a positive number, or any other text, which is passed through as it is. */
  datatype HostPort = Numeric(port: Port) | Verbatim(text: string)

  datatype PortMapping = PortMapping(host: HostPort, container: string)

  /** `settings` stands for the environment (with host names rewritten), volumes, command, dns and memory limit. */
  datatype ComposeService = ComposeService(
    name: string, image: string, settings: string, ports: seq<PortMapping>, dependsOn: seq<string>)

  function Names(services: seq<ComposeService>): set<string> {
    set i | 0 <= i < |services| :: services[i].name
  }

  /** `load_compose` reads the services out of a map, so their names are distinct. */
  ghost predicate DistinctNames(services: seq<ComposeService>) {
    forall i, j :: 0 <= i < j < |services| ==> services[i].name != services[j].name
  }
}
