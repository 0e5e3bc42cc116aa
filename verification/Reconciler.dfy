/** `TailpostAgentReconciler` at work on the API server, each operation proved to do what
    `ReconcileSpec` says to the objects of the one agent it was called for, and nothing to others.
 */
module Reconciler {
  import opened Lines
  import opened Resources
  import opened Conditions
  import opened ReconcileSpec

  datatype Store = Store(
    agents: map<Key, Agent>, configMaps: map<Key, ConfigMap>,
    statefulSets: map<Key, StatefulSet>, services: map<Key, Service>)

  function At<T>(m: map<Key, T>, key: Key): Option<T> {
    if key in m then Some(m[key]) else None
  }

  function With<T>(m: map<Key, T>, key: Key, v: Option<T>): map<Key, T> {
    if v.Some? then m[key := v.value] else m - {key}
  }

  /** The objects that belong to the agent named `key`. */
  function SliceOf(s: Store, key: Key): Slice {
    Slice(At(s.agents, key), At(s.configMaps, ConfigMapKey(key)),
          At(s.statefulSets, StatefulSetKey(key)), At(s.services, ServiceKey(key)))
  }

  function Put(s: Store, key: Key, slice: Slice): Store {
    Store(With(s.agents, key, slice.agent), With(s.configMaps, ConfigMapKey(key), slice.configMap),
          With(s.statefulSets, StatefulSetKey(key), slice.statefulSet),
          With(s.services, ServiceKey(key), slice.service))
  }

  /** Objects are stored under their own names, and every StatefulSet has a container. */
  ghost predicate WellFormed(s: Store) {
    && (forall k :: k in s.agents ==> s.agents[k].key == k)
    && (forall k :: k in s.configMaps ==> s.configMaps[k].meta.key == k)
    && (forall k :: k in s.statefulSets ==>
          s.statefulSets[k].meta.key == k && |s.statefulSets[k].spec.template.containers| > 0)
    && (forall k :: k in s.services ==> s.services[k].meta.key == k)
  }

  // ----- Non-interference -----

  /** What one pass meets: the environment, the number of API calls before it, the writes logged before
      it, and the order in which the configuration map is visited. */
  datatype Circumstances = Circumstances(env: Env, calls: nat, log: seq<Write>, order: seq<string>)

  /** The pass for the agent named `key` once the agent was read. */
  function PassFor(s: Store, key: Key, c: Circumstances): (Work, Outcome)
    requires key in s.agents && Admitted(SliceOf(s, key))
  {
    Pass(Work(SliceOf(s, key), s.agents[key], c.calls + 1, c.log), c.env, c.order)
  }

  /** The whole pass on the store. */
  function PassOnStore(s: Store, key: Key, c: Circumstances): (Store, Outcome)
    requires Admitted(SliceOf(s, key))
  {
    if c.env.fails(c.calls) then (s, ReadFailed)
    else if key !in s.agents then (s, ReconcileSpec.NotFound)
    else
      var (t, outcome) := PassFor(s, key, c);
      (Put(s, key, t.slice), outcome)
  }

  lemma PutElsewhere(s: Store, a: Key, slice: Slice, b: Key)
    requires a != b
    ensures SliceOf(Put(s, a, slice), b) == SliceOf(s, b)
  {
    DerivedNamesInjective(a, b);
  }

  lemma WithsCommute<T>(m: map<Key, T>, a: Key, x: Option<T>, b: Key, y: Option<T>)
    requires a != b
    ensures With(With(m, a, x), b, y) == With(With(m, b, y), a, x)
  {
  }

  lemma PutsCommute(s: Store, a: Key, x: Slice, b: Key, y: Slice)
    requires a != b
    ensures Put(Put(s, a, x), b, y) == Put(Put(s, b, y), a, x)
  {
    hide With;
    DerivedNamesInjective(a, b);
    WithsCommute(s.agents, a, x.agent, b, y.agent);
    WithsCommute(s.configMaps, ConfigMapKey(a), x.configMap, ConfigMapKey(b), y.configMap);
    WithsCommute(s.statefulSets, StatefulSetKey(a), x.statefulSet, StatefulSetKey(b), y.statefulSet);
    WithsCommute(s.services, ServiceKey(a), x.service, ServiceKey(b), y.service);
  }

  /** Non-interference: passes for two different agents touch disjoint objects, so neither sees the other
      and their effects commute, whatever each of them meets. */
  lemma PassesCommute(s: Store, a: Key, x: Circumstances, b: Key, y: Circumstances)
    requires a != b && Admitted(SliceOf(s, a)) && Admitted(SliceOf(s, b))
    ensures var (sa, outA) := PassOnStore(s, a, x);
            var (sb, outB) := PassOnStore(s, b, y);
            && SliceOf(sa, b) == SliceOf(s, b) && SliceOf(sb, a) == SliceOf(s, a)
            && PassOnStore(sa, b, y).1 == outB && PassOnStore(sb, a, x).1 == outA
            && PassOnStore(sa, b, y).0 == PassOnStore(sb, a, x).0
  {
    var runsA, runsB := !x.env.fails(x.calls) && a in s.agents, !y.env.fails(y.calls) && b in s.agents;
    if runsA {
      PutElsewhere(s, a, PassFor(s, a, x).0.slice, b);
      SamePass(s, PassOnStore(s, a, x).0, b, y);
    }
    if runsB {
      PutElsewhere(s, b, PassFor(s, b, y).0.slice, a);
      SamePass(s, PassOnStore(s, b, y).0, a, x);
    }
    if runsA && runsB {
      hide PassFor, Put, SliceOf;
      PutsCommute(s, a, PassFor(s, a, x).0.slice, b, PassFor(s, b, y).0.slice);
    }
  }

  /** A pass depends on the store only through the objects of its agent. */
  lemma SamePass(s: Store, s': Store, key: Key, c: Circumstances)
    requires SliceOf(s, key) == SliceOf(s', key) && Admitted(SliceOf(s, key))
    ensures PassOnStore(s, key, c).1 == PassOnStore(s', key, c).1
    ensures key in s.agents <==> key in s'.agents
    ensures key in s.agents ==> PassFor(s, key, c) == PassFor(s', key, c)
  {
    hide Pass;
    assert At(s.agents, key) == At(s'.agents, key);
  }

  /** Quiescence on the store. */
  lemma TwoPasses(s: Store, key: Key, c: Circumstances, c2: Circumstances)
    requires Admitted(SliceOf(s, key)) && NoFailures(c2.env, c2.calls) && key in s.agents
    requires s.agents[key].spec.image != "" || c.env.defaultImage != ""
    requires var keys := ConfigData(EffectiveSpec(s.agents[key].spec, c.env)).Keys; IsOrder(c.order, keys)
    ensures var spec := EffectiveSpec(s.agents[key].spec, c.env);
            var (mid, first) := PassOnStore(s, key, c);
            first == Reconciled ==>
              && Admitted(SliceOf(mid, key)) && key in mid.agents
              && EffectiveSpec(mid.agents[key].spec, c2.env) == spec
              && var (end, outcome) := PassOnStore(mid, key, c2);
              && outcome == Reconciled
              && (IsOrder(c2.order, ConfigData(spec).Keys) ==>
                    && Settled(SliceOf(mid, key), SliceOf(end, key), spec, c.order, c2.order)
                    && var log := PassFor(mid, key, c2).0.log;
                    && QuietSince(c2.log, log)
                    && (Updated(ConfigMapKind) in log[|c2.log|..] <==>
                          Render(c2.order, ConfigData(spec)) != Render(c.order, ConfigData(spec))))
  {
    hide IsOrder, ConfigData, Render, Settled, Pass, EffectiveSpec, SliceOf, Put, NeedsDefaults;
    if PassOnStore(s, key, c).1 != Reconciled {
      return;
    }
    SliceIs(s, key);
    var w := Work(SliceOf(s, key), s.agents[key], c.calls + 1, c.log);
    StagesInOrder(w, c.env, c.order);
    DefaultsSettle(w.inst.spec, c.env);
    var mid := PassOnStore(s, key, c).0;
    var first := Pass(w, c.env, c.order).0.slice;
    PutThere(s, key, first);
    SliceIs(mid, key);
    var next := Work(SliceOf(mid, key), mid.agents[key], c2.calls + 1, c2.log);
    FailureFreePass(next, c2.env, c2.order);
    PutThere(mid, key, Pass(next, c2.env, c2.order).0.slice);
    if IsOrder(c2.order, ConfigData(EffectiveSpec(w.inst.spec, c.env)).Keys) {
      Quiescence(w, c.env, c.order, next.calls, next.log, c2.env, c2.order);
    }
  }

  lemma PutThere(s: Store, key: Key, slice: Slice)
    ensures SliceOf(Put(s, key, slice), key) == slice
  {
  }

  lemma SliceIs(s: Store, key: Key)
    ensures SliceOf(s, key).agent == if key in s.agents then Some(s.agents[key]) else None
  {
  }

  /** The API server between two passes. */
  datatype Moment = Moment(store: Store, calls: nat, log: seq<Write>)

  // ----- The API server -----

  datatype Got<+T> = Found(value: T) | Missing | ApiError

  class ApiServer {
    const env: Env
    var store: Store
    var calls: nat
    var log: seq<Write>

    constructor (env: Env, store: Store)
      ensures this.env == env && this.store == store && calls == 0 && log == []
    {
      this.env, this.store, calls, log := env, store, 0, [];
    }

    method Call() returns (failed: bool)
      modifies this`calls
      ensures failed == env.fails(old(calls)) && calls == old(calls) + 1
    {
      failed := env.fails(calls);
      calls := calls + 1;
    }

    method Get<T>(m: map<Key, T>, key: Key) returns (r: Got<T>)
      modifies this`calls
      ensures calls == old(calls) + 1
      ensures r == if env.fails(old(calls)) then ApiError else if key in m then Found(m[key]) else Missing
    {
      var failed := Call();
      r := if failed then ApiError else if key in m then Found(m[key]) else Missing;
    }

    /** A create or update request carrying the store it would lead to. */
    method Write(write: Write, after: Store) returns (ok: bool)
      modifies this
      ensures calls == old(calls) + 1 && log == old(log) + [write]
      ensures ok == !env.fails(old(calls))
      ensures store == if ok then after else old(store)
    {
      log := log + [write];
      var failed := Call();
      ok := !failed;
      if ok {
        store := after;
      }
    }
  }

  /** The in-memory TailpostAgent that the stages change in place. */
  class Instance {
    const key: Key
    var spec: AgentSpec
    var status: Status

    constructor (agent: Agent)
      ensures Value() == agent
    {
      key, spec, status := agent.key, agent.spec, agent.status;
    }

    function Value(): Agent
      reads this
    {
      Agent(key, spec, status)
    }
  }

  /** The objects of every other agent are as they were. */
  predicate SameButFor(key: Key, before: Store, after: Store) {
    && before.agents - {key} == after.agents - {key}
    && before.configMaps - {ConfigMapKey(key)} == after.configMaps - {ConfigMapKey(key)}
    && before.statefulSets - {StatefulSetKey(key)} == after.statefulSets - {StatefulSetKey(key)}
    && before.services - {ServiceKey(key)} == after.services - {ServiceKey(key)}
  }

  lemma SameButForIsPut(key: Key, before: Store, after: Store)
    requires SameButFor(key, before, after)
    ensures after == Put(before, key, SliceOf(after, key))
  {
    WithIs(before.agents, key, after.agents);
    WithIs(before.configMaps, ConfigMapKey(key), after.configMaps);
    WithIs(before.statefulSets, StatefulSetKey(key), after.statefulSets);
    WithIs(before.services, ServiceKey(key), after.services);
  }

  lemma WithIs<T>(before: map<Key, T>, key: Key, after: map<Key, T>)
    requires before - {key} == after - {key}
    ensures after == With(before, key, At(after, key))
  {
    var w := With(before, key, At(after, key));
    forall k ensures k in after <==> k in w {
      assert k in before - {key} <==> k in after - {key};
    }
    forall k | k in after ensures after[k] == w[k] {
      if k != key {
        assert (before - {key})[k] == (after - {key})[k];
      }
    }
  }

  lemma StatefulSetStored(s: Store, key: Key, live: StatefulSet)
    requires WellFormed(s) && live.meta.key == StatefulSetKey(key) && |live.spec.template.containers| > 0
    ensures var after := s.(statefulSets := s.statefulSets[StatefulSetKey(key) := live]);
            && WellFormed(after) && SameButFor(key, s, after)
            && SliceOf(after, key) == SliceOf(s, key).(statefulSet := Some(live))
  {
  }

  lemma ConfigMapStored(s: Store, key: Key, cm: ConfigMap)
    requires WellFormed(s) && cm.meta.key == ConfigMapKey(key)
    ensures var after := s.(configMaps := s.configMaps[ConfigMapKey(key) := cm]);
            && WellFormed(after) && SameButFor(key, s, after)
            && SliceOf(after, key) == SliceOf(s, key).(configMap := Some(cm))
  {
  }

  lemma ServiceStored(s: Store, key: Key, live: Service)
    requires WellFormed(s) && live.meta.key == ServiceKey(key)
    ensures var after := s.(services := s.services[ServiceKey(key) := live]);
            && WellFormed(after) && SameButFor(key, s, after)
            && SliceOf(after, key) == SliceOf(s, key).(service := Some(live))
  {
  }

  /** Looking an object up by its derived name finds the agent's own, stored under that name. */
  lemma Lookups(s: Store, key: Key)
    requires WellFormed(s)
    ensures SameButFor(key, s, s) && Admitted(SliceOf(s, key))
    ensures SliceOf(s, key).configMap == At(s.configMaps, ConfigMapKey(key))
    ensures SliceOf(s, key).statefulSet == At(s.statefulSets, StatefulSetKey(key))
    ensures SliceOf(s, key).service == At(s.services, ServiceKey(key))
    ensures ConfigMapKey(key) in s.configMaps ==> s.configMaps[ConfigMapKey(key)].meta.key == ConfigMapKey(key)
    ensures StatefulSetKey(key) in s.statefulSets ==>
              s.statefulSets[StatefulSetKey(key)].meta.key == StatefulSetKey(key)
    ensures ServiceKey(key) in s.services ==> s.services[ServiceKey(key)].meta.key == ServiceKey(key)
  {
  }

  lemma SliceAdmitted(s: Store, key: Key)
    requires WellFormed(s)
    ensures Admitted(SliceOf(s, key))
    ensures key in s.agents ==> s.agents[key].key == key
  {
  }

  class TailpostAgentReconciler {
    const api: ApiServer

    constructor (api: ApiServer)
      ensures this.api == api
    {
      this.api := api;
    }

    /** The pass so far, as the specification sees it. */
    ghost function View(inst: Instance): Work
      reads api, inst
    {
      Work(SliceOf(api.store, inst.key), inst.Value(), api.calls, api.log)
    }

    ghost predicate Ready(inst: Instance)
      reads api
    {
      WellFormed(api.store) && inst.key in api.store.agents
    }

    method SetDefaults(inst: Instance) returns (ok: bool)
      requires Ready(inst)
      modifies api, inst
      ensures Ready(inst)
      ensures (View(inst), ok) == ReconcileSpec.SetDefaults(old(View(inst)), api.env)
      ensures SameButFor(inst.key, old(api.store), api.store)
    {
      var needsUpdate := FillDefaults(inst);
      if needsUpdate {
        var stored := api.store.agents[inst.key].(spec := inst.spec);
        ok := api.Write(Updated(AgentKind), api.store.(agents := api.store.agents[inst.key := stored]));
        return;
      }
      return true;
    }

    method FillDefaults(inst: Instance) returns (needsUpdate: bool)
      modifies inst
      ensures needsUpdate <==> NeedsDefaults(old(inst.spec))
      ensures inst.spec == Defaulted(old(inst.spec), api.env.defaultImage) && inst.status == old(inst.status)
      ensures inst.spec.image == if old(inst.spec.image) != "" then old(inst.spec.image) else api.env.defaultImage
      ensures inst.spec.imagePullPolicy ==
              if old(inst.spec.imagePullPolicy) != "" then old(inst.spec.imagePullPolicy) else "IfNotPresent"
      ensures inst.spec.replicas == if old(inst.spec.replicas).Some? then old(inst.spec.replicas) else Some(1)
      ensures inst.spec.batchSize == if old(inst.spec.batchSize).Some? then old(inst.spec.batchSize) else Some(10)
      ensures inst.spec.flushInterval ==
              if old(inst.spec.flushInterval) != "" then old(inst.spec.flushInterval) else "5s"
      ensures inst.spec == old(inst.spec).(image := inst.spec.image, imagePullPolicy := inst.spec.imagePullPolicy,
                                           replicas := inst.spec.replicas, batchSize := inst.spec.batchSize,
                                           flushInterval := inst.spec.flushInterval)
    {
      needsUpdate := false;
      if inst.spec.image == "" {
        inst.spec := inst.spec.(image := api.env.defaultImage);
        needsUpdate := true;
      }
      if inst.spec.imagePullPolicy == "" {
        inst.spec := inst.spec.(imagePullPolicy := PULL_POLICY);
        needsUpdate := true;
      }
      if inst.spec.replicas.None? {
        inst.spec := inst.spec.(replicas := Some(1));
        needsUpdate := true;
      }
      if inst.spec.batchSize.None? {
        inst.spec := inst.spec.(batchSize := Some(10));
        needsUpdate := true;
      }
      if inst.spec.flushInterval == "" {
        inst.spec := inst.spec.(flushInterval := FLUSH_INTERVAL);
        needsUpdate := true;
      }
    }

    method ReconcileConfigMap(inst: Instance) returns (ok: bool, ghost order: seq<string>)
      requires Ready(inst) && inst.spec.batchSize.Some?
      modifies api
      ensures Ready(inst) && IsOrder(order, ConfigData(inst.spec).Keys)
      ensures (View(inst), ok) == ReconcileSpec.ReconcileConfigMap(old(View(inst)), api.env, order)
      ensures SameButFor(inst.key, old(api.store), api.store)
    {
      hide ConfigData, Render, TextOf, ReconcileSpec.ReconcileConfigMap, SameButFor, WellFormed, SliceOf;
      var desired;
      desired, order := CreateConfigMap(inst.Value());
      TextIsRendering(order, inst.spec);
      ok := StoreConfigMap(inst, desired, order);
    }

    /** Creates the ConfigMap, or updates it if its data differ. */
    method StoreConfigMap(inst: Instance, desired: ConfigMap, ghost order: seq<string>) returns (ok: bool)
      requires Ready(inst) && inst.spec.batchSize.Some?
      requires desired == ConfigMapWith(inst.key, TextOf(order, inst.spec))
      modifies api
      ensures Ready(inst)
      ensures (View(inst), ok) == ReconcileSpec.ReconcileConfigMap(old(View(inst)), api.env, order)
      ensures SameButFor(inst.key, old(api.store), api.store)
    {
      hide WellFormed, SameButFor, SliceOf, TextOf, IsOrder, ConfigMapAgrees, ConfigData, ConfigMapIs;
      Lookups(api.store, inst.key);
      var found := api.Get(api.store.configMaps, desired.meta.key);
      match found {
        case ApiError => return false;
        case Missing =>
          ConfigMapStored(api.store, inst.key, desired);
          ok := api.Write(Created(ConfigMapKind),
                          api.store.(configMaps := api.store.configMaps[desired.meta.key := desired]));
        case Found(cm) =>
          if ConfigMapNeedsUpdate(cm, desired) {
            var changed := cm.(data := desired.data);
            ConfigMapStored(api.store, inst.key, changed);
            ok := api.Write(Updated(ConfigMapKind),
                            api.store.(configMaps := api.store.configMaps[cm.meta.key := changed]));
          } else {
            ok := true;
          }
      }
    }

    method ReconcileStatefulSet(inst: Instance) returns (ok: bool)
      requires Ready(inst)
      modifies api
      ensures Ready(inst)
      ensures (View(inst), ok) == ReconcileSpec.ReconcileStatefulSet(old(View(inst)), api.env)
      ensures SameButFor(inst.key, old(api.store), api.store)
    {
      hide WellFormed, SameButFor, SliceOf;
      Lookups(api.store, inst.key);
      var desired := CreateStatefulSet(inst.Value());
      var found := api.Get(api.store.statefulSets, desired.meta.key);
      match found {
        case ApiError => return false;
        case Missing =>
          StatefulSetStored(api.store, inst.key, desired);
          ok := api.Write(Created(StatefulSetKind),
                          api.store.(statefulSets := api.store.statefulSets[desired.meta.key := desired]));
        case Found(live) =>
          if StatefulSetNeedsUpdate(live, desired) {
            var changed := live.(spec := desired.spec);
            StatefulSetStored(api.store, inst.key, changed);
            ok := api.Write(Updated(StatefulSetKind),
                            api.store.(statefulSets := api.store.statefulSets[live.meta.key := changed]));
          } else {
            ok := true;
          }
      }
    }

    method ReconcileService(inst: Instance) returns (ok: bool)
      requires Ready(inst)
      modifies api
      ensures Ready(inst)
      ensures (View(inst), ok) == ReconcileSpec.ReconcileService(old(View(inst)), api.env)
      ensures SameButFor(inst.key, old(api.store), api.store)
    {
      hide WellFormed, SameButFor, SliceOf;
      Lookups(api.store, inst.key);
      var desired := CreateService(inst.Value());
      var found := api.Get(api.store.services, desired.meta.key);
      match found {
        case ApiError => return false;
        case Missing =>
          ServiceStored(api.store, inst.key, desired);
          ok := api.Write(Created(ServiceKind),
                          api.store.(services := api.store.services[desired.meta.key := desired]));
        case Found(live) =>
          if ServiceNeedsUpdate(live, desired) {
            var changed := live.(selector := desired.selector, ports := desired.ports);
            ServiceStored(api.store, inst.key, changed);
            ok := api.Write(Updated(ServiceKind),
                            api.store.(services := api.store.services[live.meta.key := changed]));
          } else {
            ok := true;
          }
      }
    }

    method WriteStatus(inst: Instance) returns (ok: bool)
      requires Ready(inst)
      modifies api
      ensures Ready(inst)
      ensures (View(inst), ok) == ReconcileSpec.WriteStatus(old(View(inst)), api.env)
      ensures SameButFor(inst.key, old(api.store), api.store)
    {
      var stored := api.store.agents[inst.key].(status := inst.status);
      ok := api.Write(Updated(StatusKind), api.store.(agents := api.store.agents[inst.key := stored]));
    }

    method UpdateStatus(inst: Instance) returns (ok: bool)
      requires Ready(inst)
      modifies api, inst
      ensures Ready(inst)
      ensures (View(inst), ok) == ReconcileSpec.UpdateStatus(old(View(inst)), api.env) && inst.spec == old(inst.spec)
      ensures SameButFor(inst.key, old(api.store), api.store)
    {
      hide WellFormed, SameButFor, SliceOf;
      Lookups(api.store, inst.key);
      var time := api.env.clock(api.calls);
      var found := api.Get(api.store.statefulSets, StatefulSetKey(inst.key));
      match found {
        case ApiError => return false;
        case Missing => inst.status := inst.status.(availableReplicas := 0);
        case Found(live) => inst.status := inst.status.(availableReplicas := live.readyReplicas);
      }
      inst.status := inst.status.(lastUpdate := time);
      ok := WriteStatus(inst);
    }

    /** `findCondition`: the index of the first condition of the given type, or -1. */
    method FindCondition(inst: Instance, kind: string) returns (index: int)
      ensures index == match Find(inst.status.conditions, kind) { case None => -1 case Some(i) => i }
    {
      var list := inst.status.conditions;
      var i := 0;
      while i < |list|
        invariant i <= |list| && forall j :: 0 <= j < i ==> list[j].kind != kind
      {
        if list[i].kind == kind {
          return i;
        }
        i := i + 1;
      }
      return -1;
    }

    method SetCondition(inst: Instance, kind: string, status: string, reason: string, message: string)
      requires Ready(inst)
      modifies api, inst
      ensures Ready(inst)
      ensures View(inst) == ReconcileSpec.SetCondition(old(View(inst)), api.env, kind, status, reason, message)
      ensures SameButFor(inst.key, old(api.store), api.store)
    {
      var c := Condition(kind, status, api.env.clock(api.calls), reason, message);
      var i := FindCondition(inst, kind);
      var list := inst.status.conditions;
      if i >= 0 {
        if list[i].status != status {
          inst.status := inst.status.(conditions := list[i := c]);
        }
      } else {
        inst.status := inst.status.(conditions := list + [c]);
      }
      var _ := WriteStatus(inst);
    }

    method RemoveCondition(inst: Instance, kind: string)
      requires Ready(inst)
      modifies api, inst
      ensures Ready(inst)
      ensures View(inst) == ReconcileSpec.RemoveCondition(old(View(inst)), api.env, kind)
      ensures SameButFor(inst.key, old(api.store), api.store)
    {
      var i := FindCondition(inst, kind);
      if i >= 0 {
        var list := inst.status.conditions;
        inst.status := inst.status.(conditions := list[..i] + list[i + 1..]);
        var _ := WriteStatus(inst);
      }
    }

    /** `Reconcile`: one pass for the agent named `key`.  `order` is the order in which the configuration map
        was visited, if the pass came that far. */
    method Reconcile(key: Key) returns (outcome: Outcome, ghost order: seq<string>)
      requires WellFormed(api.store)
      modifies api
      ensures WellFormed(api.store) && Admitted(SliceOf(old(api.store), key))
      ensures var c := Circumstances(api.env, old(api.calls), old(api.log), order);
              && (api.store, outcome) == PassOnStore(old(api.store), key, c)
              && (outcome == ReadFailed || outcome == ReconcileSpec.NotFound ==>
                    api.log == old(api.log) && api.calls == old(api.calls) + 1)
              && (outcome != ReadFailed && outcome != ReconcileSpec.NotFound ==>
                    && api.log == PassFor(old(api.store), key, c).0.log
                    && api.calls == PassFor(old(api.store), key, c).0.calls)
      ensures key !in old(api.store).agents ==> outcome == ReadFailed || outcome == ReconcileSpec.NotFound
      ensures outcome != ReadFailed && outcome != ReconcileSpec.NotFound && outcome != DefaultsFailed ==>
                IsOrder(order, ConfigData(EffectiveSpec(old(api.store).agents[key].spec, api.env)).Keys)
    {
      hide ReconcileSpec.SetDefaults, FromConfigMap, Render, WellFormed;
      order := [];
      SliceAdmitted(api.store, key);
      var got := api.Get(api.store.agents, key);
      match got {
        case ApiError => return ReadFailed, order;
        case Missing => return ReconcileSpec.NotFound, order;
        case Found(agent) =>
          var inst := new Instance(agent);
          SetDefaultsStores(View(inst), api.env);
          var ok := SetDefaults(inst);
          if !ok {
            SameButForIsPut(key, old(api.store), api.store);
            return DefaultsFailed, order;
          }
          outcome, order := ReconcileChildren(inst);
          SameButForIsPut(key, old(api.store), api.store);
      }
    }

    /** Two passes for one agent, `mid` the moment in between.  If the first succeeded, no call fails
        afterwards and there is an image, the second succeeds, writes nothing but the status and the
        ConfigMap, and keeps the spec, the StatefulSet and the Service; it rewrites the ConfigMap exactly
        when the map was visited in an order that gives another text, which holds the same entries. */
    method ReconcileTwice(key: Key)
      returns (first: Outcome, second: Outcome, ghost mid: Moment, ghost order: seq<string>, ghost order2: seq<string>)
      requires WellFormed(api.store)
      modifies api
      ensures WellFormed(api.store)
      ensures first == Reconciled ==> key in old(api.store).agents
      ensures first == Reconciled && NoFailures(api.env, mid.calls)
              && (old(api.store).agents[key].spec.image != "" || api.env.defaultImage != "") ==>
                var spec := EffectiveSpec(old(api.store).agents[key].spec, api.env);
                && second == Reconciled
                && IsOrder(order, ConfigData(spec).Keys) && IsOrder(order2, ConfigData(spec).Keys)
                && QuietSince(mid.log, api.log)
                && (Updated(ConfigMapKind) in api.log[|mid.log|..] <==>
                      Render(order2, ConfigData(spec)) != Render(order, ConfigData(spec)))
                && Settled(SliceOf(mid.store, key), SliceOf(api.store, key), spec, order, order2)
    {
      hide PassOnStore, PassFor, SliceOf, WellFormed, Settled, EffectiveSpec, Render, ConfigData, IsOrder, QuietSince;
      ghost var c := Circumstances(api.env, api.calls, api.log, []);
      first, order := Reconcile(key);
      mid := Moment(api.store, api.calls, api.log);
      second, order2 := Reconcile(key);
      if first == Reconciled && NoFailures(api.env, mid.calls)
         && (old(api.store).agents[key].spec.image != "" || api.env.defaultImage != "") {
        TwoPasses(old(api.store), key, c.(order := order), Circumstances(api.env, mid.calls, mid.log, order2));
      }
    }

    /** The stages after the defaults. */
    method ReconcileChildren(inst: Instance) returns (outcome: Outcome, ghost order: seq<string>)
      requires Ready(inst) && inst.spec.batchSize.Some?
      modifies api, inst
      ensures Ready(inst) && inst.spec == old(inst.spec) && IsOrder(order, ConfigData(inst.spec).Keys)
      ensures outcome != ReadFailed && outcome != ReconcileSpec.NotFound && outcome != DefaultsFailed
      ensures (View(inst), outcome) == FromConfigMap(old(View(inst)), api.env, order)
      ensures SameButFor(inst.key, old(api.store), api.store)
    {
      hide ReconcileSpec.ReconcileConfigMap, ReconcileSpec.ReconcileStatefulSet, ReconcileSpec.ReconcileService;
      hide ReconcileSpec.UpdateStatus, Degrade, Finish, SliceOf, Render, WellFormed;
      var ok;
      ok, order := ReconcileConfigMap(inst);
      if !ok {
        SetDegraded(inst, "ConfigMapReconcileFailed");
        return ConfigMapFailed, order;
      }
      ok := ReconcileStatefulSet(inst);
      if !ok {
        SetDegraded(inst, "StatefulSetReconcileFailed");
        return StatefulSetFailed, order;
      }
      ok := ReconcileService(inst);
      if !ok {
        SetDegraded(inst, "ServiceReconcileFailed");
        return ServiceFailed, order;
      }
      ok := UpdateStatus(inst);
      if !ok {
        return StatusFailed, order;
      }
      SetAvailable(inst);
      return Reconciled, order;
    }

    method SetDegraded(inst: Instance, reason: string)
      requires Ready(inst) && api.calls > 0
      modifies api, inst
      ensures Ready(inst) && inst.spec == old(inst.spec)
      ensures View(inst) == Degrade(old(View(inst)), api.env, reason)
      ensures SameButFor(inst.key, old(api.store), api.store)
    {
      SetCondition(inst, DEGRADED, "True", reason, api.env.errorText(api.calls - 1));
    }

    method SetAvailable(inst: Instance)
      requires Ready(inst)
      modifies api, inst
      ensures Ready(inst) && inst.spec == old(inst.spec)
      ensures View(inst) == Finish(old(View(inst)), api.env)
      ensures SameButFor(inst.key, old(api.store), api.store)
    {
      SetCondition(inst, AVAILABLE, "True", "AgentAvailable", "The agent is available");
      RemoveCondition(inst, DEGRADED);
    }
  }
}
