/** The resolved service descriptors that scheduling and network policy work on. */
module Plans {
  import opened Options

  /** A tonin service, by name and namespace. */
  datatype ServiceRef = ServiceRef(name: string, namespace: string)

  /** One resolved `[depends_on]` entry. */
  datatype DependencyRef = DependencyRef(name: string, namespace: string, ports: seq<nat>)

  /** Where a caller's traffic comes from. */
  datatype CallerSource =
    | Service(service: ServiceRef)
    | Pods(namespace: Option<string>, labels: map<string, string>)

  /** One resolved `[callers]` entry; no ports means the default port set. */
  datatype Caller = Caller(name: string, source: CallerSource, ports: seq<nat>)

  /** The part of a service's plan that deploy waves and ingress are computed from. */
  datatype Plan = Plan(name: string, namespace: string, dependsOn: seq<DependencyRef>, callers: seq<Caller>)

  predicate HasDependency(plan: Plan, name: string) {
    exists k | 0 <= k < |plan.dependsOn| :: plan.dependsOn[k].name == name
  }

  /** Plan names are unique in a workspace; the scheduler relies on it without checking. */
  predicate UniqueNames(plans: seq<Plan>) {
    forall i, j | 0 <= i < j < |plans| :: plans[i].name != plans[j].name
  }

  /** Dependency names are the keys of a TOML table, so a plan lists each at most once. */
  predicate UniqueDependencies(plan: Plan) {
    forall a, b | 0 <= a < b < |plan.dependsOn| :: plan.dependsOn[a].name != plan.dependsOn[b].name
  }
}
