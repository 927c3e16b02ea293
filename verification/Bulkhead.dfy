/** Per-org resolvers: the registry and the fail-fast concurrency bound (pkg/resolver/registry.go). */
module Bulkhead {
  import opened FreshIds

  datatype Breaker = Breaker(failureThreshold: nat, openDuration: int, halfOpenProbes: nat)

  /** A resolver's configuration; a change of any field makes `For` build a new instance. */
  datatype Config = Config(url: string, timeout: int, maxConcurrency: nat, breaker: Breaker)

  /** A resolver instance: its org and configuration, and how many slots of its semaphore channel are taken. */
  datatype Instance = Instance(org: string, cfg: Config, taken: nat)

  /** A ResolveUser call on an instance. It holds a token from admission until it returns. */
  datatype CallState =
    | Admitted(instance: nat)
    | Executing(instance: nat)
    | Rejected(instance: nat)
    | Returned(instance: nat)

  datatype Entry = Entry(cfg: Config, instance: nat)

  /** `invoked` collects the calls that reached the circuit breaker. */
  datatype World = World(entries: map<string, Entry>, instances: map<nat, Instance>, calls: map<nat, CallState>,
                         invoked: set<nat>)

  datatype Step =
    | For(org: string, cfg: Config, built: nat)
    | Enter(call: nat, target: nat)
    | Execute(call: nat)
    | Leave(call: nat)

  /** A caller may still use an instance that a configuration change has replaced. */
  predicate Possible(w: World, s: Step) {
    match s
    case For(_, _, built) => built !in w.instances
    case Enter(call, target) => call !in w.calls && target in w.instances
    case Execute(call) => call in w.calls && w.calls[call].Admitted?
    case Leave(call) => call in w.calls && w.calls[call].Executing? && w.calls[call].instance in w.instances
  }

  /** Whether `For` returns the instance it has. */
  predicate Keeps(w: World, org: string, cfg: Config) {
    org in w.entries && w.entries[org].cfg == cfg
  }

  function After(w: World, s: Step): World
    requires Possible(w, s)
  {
    match s
    case For(org, cfg, built) =>
      if Keeps(w, org, cfg) then w
      else w.(entries := w.entries[org := Entry(cfg, built)], instances := w.instances[built := Instance(org, cfg, 0)])
    case Enter(call, target) =>
      var r := w.instances[target];
      if r.taken < r.cfg.maxConcurrency then
        w.(instances := w.instances[target := r.(taken := r.taken + 1)], calls := w.calls[call := Admitted(target)])
      else w.(calls := w.calls[call := Rejected(target)])
    case Execute(call) =>
      w.(calls := w.calls[call := Executing(w.calls[call].instance)], invoked := w.invoked + {call})
    case Leave(call) =>
      var target := w.calls[call].instance;
      var r := w.instances[target];
      w.(instances := w.instances[target := r.(taken := if r.taken > 0 then r.taken - 1 else 0)],
         calls := w.calls[call := Returned(target)])
  }

  const Idle := World(map[], map[], map[], {})

  ghost predicate Reachable(w: World, steps: seq<Step>)
    decreases |steps|
  {
    if steps == [] then w == Idle
    else
      var n := |steps| - 1;
      exists before :: Reachable(before, steps[..n]) && Possible(before, steps[n]) && w == After(before, steps[n])
  }

  predicate Inside(c: CallState) {
    c.Admitted? || c.Executing?
  }

  /** The calls in flight on an instance. */
  function InFlight(w: World, instance: nat): set<nat> {
    set c | c in w.calls && Inside(w.calls[c]) && w.calls[c].instance == instance
  }

  ghost predicate Inv(w: World) {
    && (forall i :: i in w.instances ==>
          w.instances[i].taken == |InFlight(w, i)| && w.instances[i].taken <= w.instances[i].cfg.maxConcurrency)
    && (forall c :: c in w.calls ==> w.calls[c].instance in w.instances)
    && (forall c :: c in w.invoked ==> c in w.calls && (w.calls[c].Executing? || w.calls[c].Returned?))
    && (forall o :: o in w.entries ==>
          && w.entries[o].instance in w.instances
          && w.instances[w.entries[o].instance].org == o && w.instances[w.entries[o].instance].cfg == w.entries[o].cfg)
  }

  lemma FlightAfterEnter(w: World, s: Step, i: nat)
    requires Possible(w, s) && s.Enter?
    ensures InFlight(After(w, s), i)
         == InFlight(w, i) + if i == s.target && After(w, s).calls[s.call].Admitted? then {s.call} else {}
    ensures s.call !in InFlight(w, i)
  {
  }

  lemma EnterSlots(w: World, s: Step, i: nat)
    requires Inv(w) && Possible(w, s) && s.Enter? && i in After(w, s).instances
    ensures After(w, s).instances[i].taken == |InFlight(After(w, s), i)|
    ensures After(w, s).instances[i].taken <= After(w, s).instances[i].cfg.maxConcurrency
  {
    assert w.instances[i].taken == |InFlight(w, i)| && w.instances[i].taken <= w.instances[i].cfg.maxConcurrency;
    hide Inv, InFlight;
    FlightAfterEnter(w, s, i);
  }

  lemma EnterInv(w: World, s: Step)
    requires Inv(w) && Possible(w, s) && s.Enter?
    ensures Inv(After(w, s))
  {
    hide InFlight;
    var v := After(w, s);
    forall i | i in v.instances
      ensures v.instances[i].taken == |InFlight(v, i)| && v.instances[i].taken <= v.instances[i].cfg.maxConcurrency
    {
      EnterSlots(w, s, i);
    }
  }

  lemma LeaveInv(w: World, s: Step)
    requires Inv(w) && Possible(w, s) && s.Leave?
    ensures Inv(After(w, s))
  {
    var v := After(w, s);
    forall i | i in v.instances
      ensures v.instances[i].taken == |InFlight(v, i)| && v.instances[i].taken <= v.instances[i].cfg.maxConcurrency
    {
      if i == w.calls[s.call].instance {
        assert InFlight(v, i) == InFlight(w, i) - {s.call};
        assert s.call in InFlight(w, i);
      } else {
        assert InFlight(v, i) == InFlight(w, i);
      }
    }
  }

  lemma OtherInv(w: World, s: Step)
    requires Inv(w) && Possible(w, s) && (s.For? || s.Execute?)
    ensures Inv(After(w, s))
  {
    var v := After(w, s);
    forall i | i in v.instances ensures v.instances[i].taken == |InFlight(v, i)| {
      if i in w.instances {
        assert InFlight(v, i) == InFlight(w, i);
      } else {
        assert InFlight(v, i) == {};
      }
    }
  }

  /**
   * The bulkhead, in every reachable state of concurrent calls and configuration rebuilds: the
   * calls in flight on an instance are exactly the tokens taken from it and never exceed its
   * concurrency bound, and a rejected call never reaches the circuit breaker.
   */
  lemma {:induction false} Bulkhead(w: World, steps: seq<Step>)
    requires Reachable(w, steps)
    ensures forall i :: i in w.instances ==>
      w.instances[i].taken == |InFlight(w, i)| && w.instances[i].taken <= w.instances[i].cfg.maxConcurrency
    ensures forall c :: c in w.calls && w.calls[c].Rejected? ==> c !in w.invoked
    ensures Inv(w)
    decreases |steps|
  {
    hide After, Possible, InFlight;
    if steps != [] {
      var n := |steps| - 1;
      var before :| Reachable(before, steps[..n]) && Possible(before, steps[n]) && w == After(before, steps[n]);
      Bulkhead(before, steps[..n]);
      match steps[n]
      case Enter(_, _) => EnterInv(before, steps[n]);
      case Leave(_) => LeaveInv(before, steps[n]);
      case _ => OtherInv(before, steps[n]);
    }
  }

  /** A returning call frees one slot of the very instance that admitted it, and of no other. */
  lemma TokenGoesBack(w: World, steps: seq<Step>, s: Step)
    requires Reachable(w, steps) && Possible(w, s) && s.Leave?
    ensures var i := w.calls[s.call].instance;
      && After(w, s).instances[i].taken == w.instances[i].taken - 1
      && forall j :: j in w.instances && j != i ==> After(w, s).instances[j] == w.instances[j]
  {
    Bulkhead(w, steps);
    assert s.call in InFlight(w, w.calls[s.call].instance);
  }

  /** A call is admitted exactly while fewer calls than the bound are in flight on its instance. */
  lemma AdmittedExactly(w: World, steps: seq<Step>, call: nat, target: nat)
    requires Reachable(w, steps) && call !in w.calls && target in w.instances
    ensures var v := After(w, Enter(call, target));
      && call in v.calls && (v.calls[call] == Admitted(target) || v.calls[call] == Rejected(target))
      && (v.calls[call] == Admitted(target) <==> |InFlight(w, target)| < w.instances[target].cfg.maxConcurrency)
  {
    Bulkhead(w, steps);
    hide InFlight;
  }

  /* The bound per org */

  /** The calls in flight for an org, on its present instance or on replaced ones. */
  function OrgFlight(w: World, org: string): set<nat> {
    set c | c in w.calls && Inside(w.calls[c]) && w.calls[c].instance in w.instances
            && w.instances[w.calls[c].instance].org == org
  }

  /** Those on replaced instances. */
  function StaleFlight(w: World, org: string): set<nat>
    requires org in w.entries
  {
    set c | c in OrgFlight(w, org) && w.calls[c].instance != w.entries[org].instance
  }

  lemma FlightSplits(w: World, org: string)
    requires Inv(w) && org in w.entries
    ensures |OrgFlight(w, org)| == |InFlight(w, w.entries[org].instance)| + |StaleFlight(w, org)|
  {
    assert OrgFlight(w, org) == InFlight(w, w.entries[org].instance) + StaleFlight(w, org);
  }

  /** `v` comes of `w` by new calls on one instance. */
  ghost predicate Entered(w: World, v: World, calls: seq<nat>, target: nat)
    decreases |calls|
  {
    if calls == [] then v == w
    else Possible(w, Enter(calls[0], target)) && Entered(After(w, Enter(calls[0], target)), v, calls[1..], target)
  }

  lemma EnterKeeps(w: World, call: nat, org: string)
    requires Inv(w) && org in w.entries && Possible(w, Enter(call, w.entries[org].instance))
    ensures var v := After(w, Enter(call, w.entries[org].instance));
      && Inv(v) && v.entries == w.entries && StaleFlight(v, org) == StaleFlight(w, org)
      && v.instances.Keys == w.instances.Keys
      && (var i := w.entries[org].instance;
          w.instances[i].taken < w.instances[i].cfg.maxConcurrency ==> v.instances[i].taken == w.instances[i].taken + 1)
  {
    EnterInv(w, Enter(call, w.entries[org].instance));
    EnterStale(w, call, org);
    hide Inv, StaleFlight;
  }

  lemma EnterStale(w: World, call: nat, org: string)
    requires org in w.entries && Possible(w, Enter(call, w.entries[org].instance))
    ensures var v := After(w, Enter(call, w.entries[org].instance));
      v.entries == w.entries && StaleFlight(v, org) == StaleFlight(w, org)
  {
    var v := After(w, Enter(call, w.entries[org].instance));
    assert forall i :: i in v.instances <==> i in w.instances;
    assert forall i :: i in w.instances ==> v.instances[i].org == w.instances[i].org;
  }

  lemma {:induction false} EnteredKeeps(w: World, v: World, calls: seq<nat>, org: string)
    requires Inv(w) && org in w.entries && Entered(w, v, calls, w.entries[org].instance)
    ensures Inv(v) && v.entries == w.entries && StaleFlight(v, org) == StaleFlight(w, org)
    decreases |calls|
  {
    hide Inv, After, Possible, StaleFlight;
    if calls != [] {
      EnterKeeps(w, calls[0], org);
      EnteredKeeps(After(w, Enter(calls[0], w.entries[org].instance)), v, calls[1..], org);
    }
  }

  /** New calls can fill an instance up. */
  lemma FillUp(w: World, org: string) returns (v: World, calls: seq<nat>)
    requires Inv(w) && org in w.entries
    ensures Entered(w, v, calls, w.entries[org].instance) && Inv(v) && v.entries == w.entries
    ensures StaleFlight(v, org) == StaleFlight(w, org)
    ensures |InFlight(v, w.entries[org].instance)| == w.entries[org].cfg.maxConcurrency
    decreases var i := w.entries[org].instance; w.entries[org].cfg.maxConcurrency - w.instances[i].taken
  {
    var i := w.entries[org].instance;
    assert w.instances[i].taken == |InFlight(w, i)| && w.instances[i].cfg == w.entries[org].cfg;
    if w.instances[i].taken == w.instances[i].cfg.maxConcurrency {
      v, calls := w, [];
    } else {
      var c := AboveAll(w.calls.Keys);
      EnterKeeps(w, c, org);
      var n := After(w, Enter(c, i));
      assert n.instances[i].cfg == w.instances[i].cfg;
      hide Inv, InFlight, StaleFlight;
      var rest: seq<nat>;
      v, rest := FillUp(n, org);
      calls := [c] + rest;
      assert calls[1..] == rest;
    }
  }

  /**
   * Exactly when an org stays within its bound, whatever calls its present instance gets: when no call
   * is in flight on an instance that a configuration change has replaced.
   */
  lemma OrgBoundExactly(w: World, steps: seq<Step>, org: string)
    requires Reachable(w, steps) && org in w.entries
    ensures (forall v, calls :: Entered(w, v, calls, w.entries[org].instance) ==>
               |OrgFlight(v, org)| <= w.entries[org].cfg.maxConcurrency)
            <==> StaleFlight(w, org) == {}
  {
    Bulkhead(w, steps);
    if StaleFlight(w, org) == {} {
      forall v, calls | Entered(w, v, calls, w.entries[org].instance)
        ensures |OrgFlight(v, org)| <= w.entries[org].cfg.maxConcurrency
      {
        EnteredKeeps(w, v, calls, org);
        FlightSplits(v, org);
      }
    } else {
      var v, calls := FillUp(w, org);
      FlightSplits(v, org);
      assert |StaleFlight(w, org)| > 0;
    }
  }

  /** A rebuild with a call in flight: two calls for an org whose bound is, and always was, one. */
  function Rebuild(org: string, a: Config, b: Config): seq<Step> {
    [For(org, a, 0), Enter(0, 0), For(org, b, 1), Enter(1, 1)]
  }

  lemma RebuildExceedsOrgBound(org: string, a: Config, b: Config) returns (w: World)
    requires a != b && a.maxConcurrency == 1 && b.maxConcurrency == 1
    ensures Reachable(w, Rebuild(org, a, b)) && org in w.entries && w.entries[org].cfg == b
    ensures OrgFlight(w, org) == {0, 1}
  {
    var steps := Rebuild(org, a, b);
    var w1 := After(Idle, steps[0]);
    var w2 := After(w1, steps[1]);
    var w3 := After(w2, steps[2]);
    w := After(w3, steps[3]);
    assert w1.instances == map[0 := Instance(org, a, 0)] && w1.calls == map[];
    assert w2.instances == map[0 := Instance(org, a, 1)] && w2.calls == map[0 := Admitted(0)];
    assert w3.instances == map[0 := Instance(org, a, 1), 1 := Instance(org, b, 0)] && w3.calls == w2.calls;
    assert w.instances == map[0 := Instance(org, a, 1), 1 := Instance(org, b, 1)];
    assert w.calls == map[0 := Admitted(0), 1 := Admitted(1)];
    hide After, Reachable, OrgFlight;
    ReachStart(steps);
    ReachOne(Idle, steps, 0);
    ReachOne(w1, steps, 1);
    ReachOne(w2, steps, 2);
    ReachOne(w3, steps, 3);
    assert steps[..4] == steps;
    TwoInFlight(w, org, a, b);
  }

  lemma ReachStart(steps: seq<Step>)
    ensures Reachable(Idle, steps[..0])
  {
  }

  lemma TwoInFlight(w: World, org: string, a: Config, b: Config)
    requires w.instances == map[0 := Instance(org, a, 1), 1 := Instance(org, b, 1)]
    requires w.calls == map[0 := Admitted(0), 1 := Admitted(1)]
    ensures OrgFlight(w, org) == {0, 1}
  {
  }

  lemma ReachOne(w: World, steps: seq<Step>, n: nat)
    requires n < |steps| && Reachable(w, steps[..n]) && Possible(w, steps[n])
    ensures Reachable(After(w, steps[n]), steps[..n + 1])
  {
    hide After, Possible;
    assert steps[..n + 1][..n] == steps[..n];
  }

  class Registry {
    var entries: map<string, Entry>
    var instances: map<nat, Instance>

    constructor ()
      ensures entries == map[] && instances == map[]
    {
      entries, instances := map[], map[];
    }

    /** `For`: the org's instance, rebuilt when its configuration changed; other orgs keep theirs. */
    method For(org: string, cfg: Config, built: nat) returns (instance: nat)
      requires built !in instances
      modifies this
      ensures var w := World(old(entries), old(instances), map[], {});
        World(entries, instances, map[], {}) == After(w, Step.For(org, cfg, built))
      ensures org in entries && entries[org] == Entry(cfg, instance)
      ensures if org in old(entries) && old(entries)[org].cfg == cfg then
          instance == old(entries)[org].instance && instances == old(instances)
        else instance == built && instances == old(instances)[built := Instance(org, cfg, 0)]
      ensures forall o :: o != org ==> (o in entries <==> o in old(entries)) && (o in entries ==> entries[o] == old(entries)[o])
    {
      if org in entries && entries[org].cfg == cfg {
        return entries[org].instance;
      }
      instances := instances[built := Instance(org, cfg, 0)];
      entries := entries[org := Entry(cfg, built)];
      return built;
    }
  }
}
