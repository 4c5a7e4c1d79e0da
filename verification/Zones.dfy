/** A routing rule as the user wrote it (config.go). */
module Zones {
  import opened Wrappers
  import opened Text

  datatype Zone = Zone(
    waiting: bool,
    name: string,
    tunnelID: string,
    fallbacks: seq<string>,
    order: int,
    route: string,
    mode: string,
    domains: seq<string>,
    includeSubdomains: Option<bool>,
    ips: seq<string>,
    sourceIPs: seq<string>,
    enabled: bool)
  {
    /** The direction of the rule, read from the old Mode field when Route is not set. */
    function RouteValue(): string {
      if route == "tunnel" || route == "direct" then route
      else if mode == "exclude" then "direct"
      else "tunnel"
    }

    /** The rule names everything. */
    predicate IsCatchAll() {
      || (exists i :: 0 <= i < |domains| && TrimSpace(domains[i]) == "*")
      || (exists i :: 0 <= i < |ips| && TrimSpace(ips[i]) in ["0.0.0.0/0", "::/0"])
    }

    /** The rule takes part in routing. */
    predicate Live() {
      enabled && !waiting
    }

    predicate SourceBound() {
      sourceIPs != []
    }
  }
}
