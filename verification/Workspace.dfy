/** Loading a workspace: every service's ingress is completed from the other services' egress. */
module Workspace {
  import opened Options
  import opened Plans
  import opened Sorting

  function RefOf(plan: Plan): ServiceRef {
    ServiceRef(plan.name, plan.namespace)
  }

  function FromService(service: ServiceRef): Caller {
    Caller(service.name, Service(service), [])
  }

  /** The tonin service behind a caller, if it is one. */
  function ServiceOf(caller: Caller): Option<ServiceRef> {
    match caller.source case Service(s) => Some(s) case Pods(_, _) => None
  }

  /** p declares q in its [depends_on]. */
  predicate DependsOn(p: Plan, q: Plan) {
    exists k | 0 <= k < |p.dependsOn| :: p.dependsOn[k].name == q.name && p.dependsOn[k].namespace == q.namespace
  }

  predicate Calls(callers: seq<Caller>, service: ServiceRef) {
    exists k | 0 <= k < |callers| :: ServiceOf(callers[k]) == Some(service)
  }

  /** Some loaded service under this name and namespace depends on q. */
  predicate HasDependent(loaded: seq<Plan>, q: Plan, service: ServiceRef) {
    exists j | 0 <= j < |loaded| :: RefOf(loaded[j]) == service && DependsOn(loaded[j], q)
  }

  /** Exactly the callers that the others' egress adds to q's explicit ones: one for each dependent that is not
      listed yet, on the default ports. */
  ghost predicate IsDerived(loaded: seq<Plan>, q: Plan, added: seq<Caller>) {
    && (forall k | 0 <= k < |added| ::
          ServiceOf(added[k]).Some? && added[k] == FromService(ServiceOf(added[k]).value))
    && (forall k, l | 0 <= k < l < |added| :: added[k] != added[l])
    && (forall service: ServiceRef :: Calls(added, service)
          <==> HasDependent(loaded, q, service) && !Calls(q.callers, service))
  }

  lemma CallsAppend(a: seq<Caller>, b: seq<Caller>, service: ServiceRef)
    ensures Calls(a + b, service) <==> Calls(a, service) || Calls(b, service)
  {
    var c := a + b;
    forall k | 0 <= k < |a| && ServiceOf(a[k]) == Some(service) ensures Calls(c, service) { assert c[k] == a[k]; }
    forall k | 0 <= k < |b| && ServiceOf(b[k]) == Some(service) ensures Calls(c, service) {
      assert c[|a| + k] == b[k];
    }
  }

  lemma OneCalls(service: ServiceRef, other: ServiceRef)
    ensures Calls([FromService(service)], other) <==> service == other
  {
    assert ServiceOf([FromService(service)][0]) == Some(service);
  }

  lemma NextDerived(loaded: seq<Plan>, i: nat, q: Plan, added: seq<Caller>)
    requires i < |loaded| && IsDerived(loaded[..i], q, added)
    ensures DependsOn(loaded[i], q) && !Calls(q.callers + added, RefOf(loaded[i])) ==>
              IsDerived(loaded[..i + 1], q, added + [FromService(RefOf(loaded[i]))])
    ensures !(DependsOn(loaded[i], q) && !Calls(q.callers + added, RefOf(loaded[i]))) ==>
              IsDerived(loaded[..i + 1], q, added)
  {
    var caller := FromService(RefOf(loaded[i]));
    CallsAppend(q.callers, added, RefOf(loaded[i]));
    forall service: ServiceRef
      ensures HasDependent(loaded[..i + 1], q, service)
         <==> HasDependent(loaded[..i], q, service) || (RefOf(loaded[i]) == service && DependsOn(loaded[i], q))
      ensures Calls(added + [caller], service) <==> Calls(added, service) || service == RefOf(loaded[i])
    {
      CallsAppend(added, [caller], service);
      OneCalls(RefOf(loaded[i]), service);
    }
    if !Calls(added, RefOf(loaded[i])) {
      forall k | 0 <= k < |added| ensures added[k] != caller {
        assert ServiceOf(caller) == Some(RefOf(loaded[i]));
      }
    }
  }

  /** The callers of q, completed from the [depends_on] of every loaded service. */
  method CompleteCallers(q: Plan, loaded: seq<Plan>) returns (callers: seq<Caller>, ghost added: seq<Caller>)
    ensures callers == q.callers + added
    ensures IsDerived(loaded, q, added)
  {
    callers := q.callers;
    added := [];
    for i := 0 to |loaded|
      invariant callers == q.callers + added
      invariant IsDerived(loaded[..i], q, added)
    {
      NextDerived(loaded, i, q, added);
      if DependsOn(loaded[i], q) && !Calls(callers, RefOf(loaded[i])) {
        callers := callers + [FromService(RefOf(loaded[i]))];
        added := added + [FromService(RefOf(loaded[i]))];
      }
    }
    assert loaded[..|loaded|] == loaded;
  }

  /** The plan with callers derived from the loaded workspace added to its own, all sorted. */
  ghost predicate Completes(loaded: seq<Plan>, q: Plan, completed: Plan, before: (Caller, Caller) -> bool) {
    && completed == q.(callers := completed.callers) && Sorted(completed.callers, before)
    && exists added: seq<Caller> :: AddsTo(loaded, q, added, completed.callers)
  }

  ghost predicate AddsTo(loaded: seq<Plan>, q: Plan, added: seq<Caller>, callers: seq<Caller>) {
    IsDerived(loaded, q, added) && multiset(callers) == multiset(q.callers + added)
  }

  /** Completes every plan in place. The egress is read from the plans as they were loaded. */
  method DeriveCallers(plans: array<Plan>, before: (Caller, Caller) -> bool)
    requires IsOrder(before)
    modifies plans
    ensures forall i | 0 <= i < plans.Length :: Completes(old(plans[..]), old(plans[i]), plans[i], before)
  {
    var snapshot := plans[..];
    for i := 0 to plans.Length
      invariant forall j | 0 <= j < i :: Completes(snapshot, snapshot[j], plans[j], before)
      invariant forall j | i <= j < plans.Length :: plans[j] == snapshot[j]
    {
      var callers, added := CompleteCallers(plans[i], snapshot);
      SortSorted(callers, before);
      assert AddsTo(snapshot, snapshot[i], added, Sort(callers, before));
      plans[i] := plans[i].(callers := Sort(callers, before));
    }
  }

  // ---------- ingress is the transpose of egress ----------

  lemma CallsSame(a: seq<Caller>, b: seq<Caller>, service: ServiceRef)
    requires multiset(a) == multiset(b)
    ensures Calls(a, service) ==> Calls(b, service)
  {
    if Calls(a, service) {
      var k :| 0 <= k < |a| && ServiceOf(a[k]) == Some(service);
      SameElements(a, b, a[k]);
    }
  }

  /** The list has a caller for the service. */
  ghost predicate Admits(callers: seq<Caller>, service: ServiceRef) {
    exists caller | caller in callers :: caller.source == Service(service)
  }

  /** A service that was loaded under this name and namespace declares that it depends on q. */
  ghost predicate Declares(loaded: seq<Plan>, q: Plan, service: ServiceRef) {
    exists p, d | p in loaded && d in p.dependsOn ::
      ServiceRef(p.name, p.namespace) == service && d.name == q.name && d.namespace == q.namespace
  }

  lemma CallsIsAdmits(callers: seq<Caller>, service: ServiceRef)
    ensures Calls(callers, service) <==> Admits(callers, service)
  {
    if caller :| caller in callers && caller.source == Service(service) {
      var k :| 0 <= k < |callers| && callers[k] == caller;
      assert ServiceOf(callers[k]) == Some(service);
    }
  }

  lemma DependentDeclares(loaded: seq<Plan>, q: Plan, service: ServiceRef)
    ensures HasDependent(loaded, q, service) <==> Declares(loaded, q, service)
  {
    if HasDependent(loaded, q, service) {
      var j :| 0 <= j < |loaded| && RefOf(loaded[j]) == service && DependsOn(loaded[j], q);
      var k :| 0 <= k < |loaded[j].dependsOn| && loaded[j].dependsOn[k].name == q.name
               && loaded[j].dependsOn[k].namespace == q.namespace;
      assert loaded[j] in loaded && loaded[j].dependsOn[k] in loaded[j].dependsOn;
    }
    if Declares(loaded, q, service) {
      var p, d :| p in loaded && d in p.dependsOn && ServiceRef(p.name, p.namespace) == service
                  && d.name == q.name && d.namespace == q.namespace;
      var j :| 0 <= j < |loaded| && loaded[j] == p;
      var k :| 0 <= k < |p.dependsOn| && p.dependsOn[k] == d;
      assert DependsOn(loaded[j], q);
    }
  }

  /** In the completed workspace a service may call q exactly when it depends on q or q listed it itself. */
  lemma IngressIsTransposeOfEgress(loaded: seq<Plan>, q: Plan, completed: Plan, before: (Caller, Caller) -> bool,
                                   service: ServiceRef)
    requires Completes(loaded, q, completed, before)
    ensures Admits(completed.callers, service)
       <==> Admits(q.callers, service) || Declares(loaded, q, service)
  {
    var added: seq<Caller> :| AddsTo(loaded, q, added, completed.callers);
    CallsSame(completed.callers, q.callers + added, service);
    CallsSame(q.callers + added, completed.callers, service);
    CallsAppend(q.callers, added, service);
    CallsIsAdmits(completed.callers, service);
    CallsIsAdmits(q.callers, service);
    DependentDeclares(loaded, q, service);
  }

  lemma {:induction false} DistinctOnce(added: seq<Caller>, caller: Caller)
    requires forall k, l | 0 <= k < l < |added| :: added[k] != added[l]
    ensures multiset(added)[caller] == if caller in added then 1 else 0
  {
    if added != [] {
      var last := |added| - 1;
      DistinctOnce(added[..last], caller);
      assert added == added[..last] + [added[last]];
    }
  }

  lemma NotListed(callers: seq<Caller>, caller: Caller, service: ServiceRef)
    requires ServiceOf(caller) == Some(service) && !Calls(callers, service)
    ensures multiset(callers)[caller] == 0
  {
    assert caller !in callers;
  }

  /** Explicit entries win and keep their ports: they stay the only callers for their service. A dependent that was
      not listed gets exactly one caller, on the default ports; nobody else gets any. */
  lemma ExplicitWinsElseOnce(loaded: seq<Plan>, q: Plan, completed: Plan, before: (Caller, Caller) -> bool,
                             service: ServiceRef, caller: Caller)
    requires Completes(loaded, q, completed, before) && caller.source == Service(service)
    ensures multiset(completed.callers)[caller]
         == if Admits(q.callers, service) then multiset(q.callers)[caller]
            else if Declares(loaded, q, service) && caller.name == service.name && caller.ports == [] then 1
            else 0
  {
    CallsIsAdmits(q.callers, service);
    DependentDeclares(loaded, q, service);
    assert caller.name == service.name && caller.ports == [] <==> caller == FromService(service);
    var added: seq<Caller> :| AddsTo(loaded, q, added, completed.callers);
    DistinctOnce(added, caller);
    if Calls(q.callers, service) {
      NotListed(added, caller, service);
    } else {
      NotListed(q.callers, caller, service);
      if Calls(added, service) {
        var k :| 0 <= k < |added| && ServiceOf(added[k]) == Some(service);
        assert added[k] == FromService(service);
      } else {
        NotListed(added, caller, service);
      }
    }
  }

  // ---------- the order of the workspace ----------

  function NameOf(): Plan -> string {
    (plan: Plan) => plan.name
  }

  /** Loads a workspace from the plans found in it: callers completed and sorted, plans by name. */
  method LoadWorkspace(loaded: seq<Plan>, before: (Caller, Caller) -> bool)
    returns (plans: seq<Plan>, ghost completed: seq<Plan>)
    requires IsOrder(before)
    ensures |completed| == |loaded|
    ensures forall i | 0 <= i < |loaded| :: Completes(loaded, loaded[i], completed[i], before)
    ensures multiset(plans) == multiset(completed) && Sorted(plans, ByKey(NameOf()))
  {
    var found := new Plan[|loaded|](i requires 0 <= i < |loaded| => loaded[i]);
    assert found[..] == loaded;
    DeriveCallers(found, before);
    completed := found[..];
    ByKeyOrder(NameOf());
    SortSorted(completed, ByKey(NameOf()));
    plans := Sort(found[..], ByKey(NameOf()));
  }
}
