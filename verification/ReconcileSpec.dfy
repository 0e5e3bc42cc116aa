/** One reconcile pass as a function: the stages of `Reconcile` over the four objects that belong to one
    agent, when every API call may fail.  Failed writes change nothing and nobody else writes meanwhile.
 */
module ReconcileSpec {
  import opened Lines
  import opened Resources
  import opened Conditions

  const AVAILABLE := "Available"
  const DEGRADED := "Degraded"
  const PULL_POLICY := "IfNotPresent"
  const FLUSH_INTERVAL := "5s"

  /** The objects of one agent. */
  datatype Slice = Slice(
    agent: Option<Agent>, configMap: Option<ConfigMap>, statefulSet: Option<StatefulSet>, service: Option<Service>)

  datatype Kind = AgentKind | StatusKind | ConfigMapKind | StatefulSetKind | ServiceKind

  /** An attempted write. */
  datatype Write = Created(kind: Kind) | Updated(kind: Kind)

  /** What the pass does not control, by call number: which API calls fail, with which error text, and
      what the clock says; and the reconciler's default image. */
  datatype Env = Env(fails: nat -> bool, errorText: nat -> string, clock: nat -> int, defaultImage: string)

  /** The store slice, the in-memory instance, the number of API calls and the writes so far. */
  datatype Work = Work(slice: Slice, inst: Agent, calls: nat, log: seq<Write>)

  datatype Outcome =
    | NotFound | ReadFailed | DefaultsFailed | ConfigMapFailed | StatefulSetFailed | ServiceFailed
    | StatusFailed | Reconciled

  function Called(w: Work): Work {
    w.(calls := w.calls + 1)
  }

  /** A write: it is logged, and takes effect unless the call fails. */
  function Attempt(w: Work, env: Env, write: Write, after: Slice): (Work, bool) {
    var w' := w.(calls := w.calls + 1, log := w.log + [write]);
    if env.fails(w.calls) then (w', false) else (w'.(slice := after), true)
  }

  predicate NeedsDefaults(spec: AgentSpec) {
    || spec.image == "" || spec.imagePullPolicy == "" || spec.replicas.None?
    || spec.batchSize.None? || spec.flushInterval == ""
  }

  function Defaulted(spec: AgentSpec, image: string): AgentSpec {
    spec.(image := if spec.image == "" then image else spec.image,
          imagePullPolicy := if spec.imagePullPolicy == "" then PULL_POLICY else spec.imagePullPolicy,
          replicas := if spec.replicas.None? then Some(1) else spec.replicas,
          batchSize := if spec.batchSize.None? then Some(10) else spec.batchSize,
          flushInterval := if spec.flushInterval == "" then FLUSH_INTERVAL else spec.flushInterval)
  }

  /** The spec the stages work with. */
  function EffectiveSpec(spec: AgentSpec, env: Env): (r: AgentSpec)
    ensures r.image == if spec.image != "" then spec.image else env.defaultImage
    ensures r.imagePullPolicy == if spec.imagePullPolicy != "" then spec.imagePullPolicy else "IfNotPresent"
    ensures r.replicas == if spec.replicas.Some? then spec.replicas else Some(1)
    ensures r.batchSize == if spec.batchSize.Some? then spec.batchSize else Some(10)
    ensures r.flushInterval == if spec.flushInterval != "" then spec.flushInterval else "5s"
    ensures r.serverURL == spec.serverURL && r.logSources == spec.logSources && r.serviceAccount == spec.serviceAccount
    ensures r.limits == spec.limits && r.requests == spec.requests
  {
    if NeedsDefaults(spec) then Defaulted(spec, env.defaultImage) else spec
  }

  /** The configuration text when the map is visited in the given order. */
  function TextOf(order: seq<string>, spec: AgentSpec): string
    requires spec.batchSize.Some?
  {
    if forall i :: 0 <= i < |order| ==> order[i] in ConfigData(spec) then Render(order, ConfigData(spec)) else ""
  }

  function SetDefaults(w: Work, env: Env): (r: (Work, bool))
    requires w.slice.agent.Some?
    ensures r.0.inst == w.inst.(spec := EffectiveSpec(w.inst.spec, env))
    ensures r.1 <==> !NeedsDefaults(w.inst.spec) || !env.fails(w.calls)
    ensures r.0.slice.agent.Some?
    ensures r.0.slice == if r.1 && NeedsDefaults(w.inst.spec)
                         then w.slice.(agent := Some(w.slice.agent.value.(spec := r.0.inst.spec))) else w.slice
  {
    if !NeedsDefaults(w.inst.spec) then (w, true)
    else
      var spec := Defaulted(w.inst.spec, env.defaultImage);
      var w' := w.(inst := w.inst.(spec := spec));
      Attempt(w', env, Updated(AgentKind), w.slice.(agent := Some(w.slice.agent.value.(spec := spec))))
  }

  function ReconcileConfigMap(w: Work, env: Env, order: seq<string>): (r: (Work, bool))
    requires w.inst.spec.batchSize.Some?
    ensures r.0.slice == w.slice.(configMap := r.0.slice.configMap) && r.0.inst == w.inst
    ensures r.0.calls > w.calls && (r.1 <==> !env.fails(r.0.calls - 1))
    ensures if r.1 then ConfigMapIs(r.0.slice, TextOf(order, w.inst.spec)) else r.0.slice == w.slice
    ensures r.1 && IsOrder(order, ConfigData(w.inst.spec).Keys) ==> ConfigMapAgrees(r.0.slice, w.inst.spec)
  {
    var desired := ConfigMapWith(w.inst.key, TextOf(order, w.inst.spec));
    var w' := Called(w);
    if env.fails(w.calls) then (w', false)
    else match w.slice.configMap
      case None => Attempt(w', env, Created(ConfigMapKind), w.slice.(configMap := Some(desired)))
      case Some(found) =>
        if ConfigMapNeedsUpdate(found, desired) then
          Attempt(w', env, Updated(ConfigMapKind), w.slice.(configMap := Some(found.(data := desired.data))))
        else (w', true)
  }

  function ReconcileStatefulSet(w: Work, env: Env): (r: (Work, bool))
    requires Admitted(w.slice)
    ensures r.0.slice == w.slice.(statefulSet := r.0.slice.statefulSet) && r.0.inst == w.inst && Admitted(r.0.slice)
    ensures r.0.calls > w.calls && (r.1 <==> !env.fails(r.0.calls - 1))
    ensures if r.1 then StatefulSetAgrees(r.0.slice, w.inst.spec) else r.0.slice == w.slice
  {
    var desired := CreateStatefulSet(w.inst);
    var w' := Called(w);
    if env.fails(w.calls) then (w', false)
    else match w.slice.statefulSet
      case None => Attempt(w', env, Created(StatefulSetKind), w.slice.(statefulSet := Some(desired)))
      case Some(found) =>
        if StatefulSetNeedsUpdate(found, desired) then
          Attempt(w', env, Updated(StatefulSetKind), w.slice.(statefulSet := Some(found.(spec := desired.spec))))
        else (w', true)
  }

  function ReconcileService(w: Work, env: Env): (r: (Work, bool))
    ensures r.0.slice == w.slice.(service := r.0.slice.service) && r.0.inst == w.inst
    ensures r.0.calls > w.calls && (r.1 <==> !env.fails(r.0.calls - 1))
    ensures if r.1 then ServiceAgrees(r.0.slice, w.inst.key) else r.0.slice == w.slice
  {
    var desired := CreateService(w.inst);
    var w' := Called(w);
    if env.fails(w.calls) then (w', false)
    else match w.slice.service
      case None => Attempt(w', env, Created(ServiceKind), w.slice.(service := Some(desired)))
      case Some(found) =>
        if ServiceNeedsUpdate(found, desired) then
          Attempt(w', env, Updated(ServiceKind),
                  w.slice.(service := Some(found.(selector := desired.selector, ports := desired.ports))))
        else (w', true)
  }

  /** `Status().Update`: stores the in-memory status and nothing else. */
  function WriteStatus(w: Work, env: Env): (Work, bool)
    requires w.slice.agent.Some?
  {
    Attempt(w, env, Updated(StatusKind), w.slice.(agent := Some(w.slice.agent.value.(status := w.inst.status))))
  }

  function UpdateStatus(w: Work, env: Env): (r: (Work, bool))
    requires w.slice.agent.Some?
    ensures OnlyStatus(w.slice, r.0.slice)
    ensures r.1 <==> !env.fails(w.calls) && !env.fails(w.calls + 1)
    ensures if r.1 then r.0.slice.agent.value.status == r.0.inst.status else r.0.slice == w.slice
    ensures !env.fails(w.calls) ==>
              r.0.inst.status == w.inst.status.(lastUpdate := env.clock(w.calls),
                                                availableReplicas := r.0.inst.status.availableReplicas)
    ensures r.1 && w.slice.statefulSet.Some? ==>
              r.0.inst.status.availableReplicas == w.slice.statefulSet.value.readyReplicas
    ensures r.1 && w.slice.statefulSet.None? ==> r.0.inst.status.availableReplicas == 0
  {
    if env.fails(w.calls) then (Called(w), false)
    else
      var ready := if w.slice.statefulSet.Some? then w.slice.statefulSet.value.readyReplicas else 0;
      var status := w.inst.status.(availableReplicas := ready, lastUpdate := env.clock(w.calls));
      WriteStatus(Called(w).(inst := w.inst.(status := status)), env)
  }

  /** A failed status write is only logged by the code, so there is no result. */
  function SetCondition(w: Work, env: Env, kind: string, status: string, reason: string, message: string): (r: Work)
    requires w.slice.agent.Some?
    ensures OnlyStatus(w.slice, r.slice)
  {
    var c := Condition(kind, status, env.clock(w.calls), reason, message);
    var list := WithCondition(w.inst.status.conditions, c);
    WriteStatus(w.(inst := w.inst.(status := w.inst.status.(conditions := list))), env).0
  }

  function RemoveCondition(w: Work, env: Env, kind: string): (r: Work)
    requires w.slice.agent.Some?
    ensures OnlyStatus(w.slice, r.slice)
  {
    if Find(w.inst.status.conditions, kind).None? then w
    else
      var list := WithoutCondition(w.inst.status.conditions, kind);
      WriteStatus(w.(inst := w.inst.(status := w.inst.status.(conditions := list))), env).0
  }

  /** The message is the error of the call that failed, the last one made. */
  function Degrade(w: Work, env: Env, reason: string): (r: Work)
    requires w.slice.agent.Some? && w.calls > 0
    ensures OnlyStatus(w.slice, r.slice)
  {
    SetCondition(w, env, DEGRADED, "True", reason, env.errorText(w.calls - 1))
  }

  function Finish(w: Work, env: Env): (r: Work)
    requires w.slice.agent.Some?
    ensures OnlyStatus(w.slice, r.slice)
  {
    RemoveCondition(SetCondition(w, env, AVAILABLE, "True", "AgentAvailable", "The agent is available"), env, DEGRADED)
  }

  // The stages, each followed by the rest of the pass.

  function FromStatus(w: Work, env: Env): (Work, Outcome)
    requires w.slice.agent.Some?
  {
    var (w', ok) := UpdateStatus(w, env);
    if ok then (Finish(w', env), Reconciled) else (w', StatusFailed)
  }

  function FromService(w: Work, env: Env): (Work, Outcome)
    requires w.slice.agent.Some?
  {
    var (w', ok) := ReconcileService(w, env);
    if ok then FromStatus(w', env) else (Degrade(w', env, "ServiceReconcileFailed"), ServiceFailed)
  }

  function FromStatefulSet(w: Work, env: Env): (Work, Outcome)
    requires w.slice.agent.Some? && Admitted(w.slice)
  {
    var (w', ok) := ReconcileStatefulSet(w, env);
    if ok then FromService(w', env) else (Degrade(w', env, "StatefulSetReconcileFailed"), StatefulSetFailed)
  }

  function FromConfigMap(w: Work, env: Env, order: seq<string>): (Work, Outcome)
    requires w.slice.agent.Some? && Admitted(w.slice) && w.inst.spec.batchSize.Some?
  {
    var (w', ok) := ReconcileConfigMap(w, env, order);
    if ok then FromStatefulSet(w', env) else (Degrade(w', env, "ConfigMapReconcileFailed"), ConfigMapFailed)
  }

  /** Everything after the agent was read. */
  function Pass(w: Work, env: Env, order: seq<string>): (Work, Outcome)
    requires w.slice.agent.Some? && Admitted(w.slice)
  {
    var (w', ok) := SetDefaults(w, env);
    if ok then FromConfigMap(w', env, order) else (w', DefaultsFailed)
  }

  /** The API server admits no StatefulSet without a container. */
  predicate Admitted(s: Slice) {
    s.statefulSet.Some? ==> |s.statefulSet.value.spec.template.containers| > 0
  }

  // ----- Agreement with the spec -----

  predicate ConfigMapIs(s: Slice, text: string) {
    s.configMap.Some? && s.configMap.value.data == map[CONFIG_FILE := text]
  }

  /** The ConfigMap holds the configuration of the spec, rendered in some order. */
  ghost predicate ConfigMapAgrees(s: Slice, spec: AgentSpec)
    requires spec.batchSize.Some?
  {
    exists order: seq<string> ::
      IsOrder(order, ConfigData(spec).Keys) && ConfigMapIs(s, Render(order, ConfigData(spec)))
  }

  predicate StatefulSetAgrees(s: Slice, spec: AgentSpec) {
    && s.statefulSet.Some?
    && var live := s.statefulSet.value.spec;
    && live.replicas == spec.replicas
    && |live.template.containers| > 0
    && live.template.containers[0].image == spec.image
    && live.template.containers[0].resources == Requirements(AmountList(spec.limits), AmountList(spec.requests))
  }

  predicate ServiceAgrees(s: Slice, key: Key) {
    && s.service.Some?
    && s.service.value.selector == GetLabels(key)
    && s.service.value.ports == [Port("metrics", METRICS_PORT, METRICS_PORT, "TCP")]
  }

  /** A pass about to begin: the instance is what was read. */
  predicate Fresh(w: Work) {
    w.slice.agent == Some(w.inst) && Admitted(w.slice)
  }

  /** Status writes leave the children and the spec alone. */
  predicate OnlyStatus(a: Slice, b: Slice) {
    && b.configMap == a.configMap && b.statefulSet == a.statefulSet && b.service == a.service
    && a.agent.Some? && b.agent.Some?
    && b.agent.value.spec == a.agent.value.spec && b.agent.value.key == a.agent.value.key
  }

  lemma StatusStages(w: Work, env: Env)
    requires w.slice.agent.Some?
    ensures var (t, outcome) := FromStatus(w, env);
            && OnlyStatus(w.slice, t.slice)
            && (outcome == StatusFailed || outcome == Reconciled)
  {
    hide UpdateStatus, Finish;
  }

  lemma ServiceStages(w: Work, env: Env)
    requires w.slice.agent.Some?
    ensures var (t, outcome) := FromService(w, env);
            && OnlyStatus(w.slice.(service := t.slice.service), t.slice)
            && (if outcome == ServiceFailed then t.slice.service == w.slice.service
                else (outcome == StatusFailed || outcome == Reconciled) && ServiceAgrees(t.slice, w.inst.key))
  {
    hide ReconcileService, FromStatus, Degrade;
    StatusStages(ReconcileService(w, env).0, env);
  }

  lemma StatefulSetStages(w: Work, env: Env)
    requires w.slice.agent.Some? && Admitted(w.slice)
    ensures var (t, outcome) := FromStatefulSet(w, env);
            && OnlyStatus(w.slice.(statefulSet := t.slice.statefulSet, service := t.slice.service), t.slice)
            && Admitted(t.slice)
            && (outcome == StatefulSetFailed ==> t.slice.statefulSet == w.slice.statefulSet)
            && (outcome == StatefulSetFailed || outcome == ServiceFailed ==> t.slice.service == w.slice.service)
            && (outcome != StatefulSetFailed ==> StatefulSetAgrees(t.slice, w.inst.spec))
            && (outcome != StatefulSetFailed && outcome != ServiceFailed ==>
                  (outcome == StatusFailed || outcome == Reconciled) && ServiceAgrees(t.slice, w.inst.key))
  {
    hide ReconcileStatefulSet, FromService, Degrade;
    ServiceStages(ReconcileStatefulSet(w, env).0, env);
  }

  /** Stage order under any pattern of API failures: a pass that fails at a child leaves the earlier
      children agreeing with the stored spec, that child and the later ones untouched; a pass that gets
      through the children leaves all of them agreeing, the ConfigMap with the spec's own configuration. */
  lemma StagesInOrder(w: Work, env: Env, order: seq<string>)
    requires Fresh(w)
    ensures var (t, outcome) := Pass(w, env, order);
            var spec := EffectiveSpec(w.inst.spec, env);
            && Admitted(t.slice) && t.slice.agent.Some? && t.slice.agent.value.key == w.inst.key
            && (outcome == DefaultsFailed ==> t.slice == w.slice)
            && (outcome != DefaultsFailed ==> t.slice.agent.value.spec == spec)
            && (outcome == ConfigMapFailed ==> t.slice.configMap == w.slice.configMap)
            && (outcome == ConfigMapFailed || outcome == StatefulSetFailed ==>
                  t.slice.statefulSet == w.slice.statefulSet)
            && (outcome == ConfigMapFailed || outcome == StatefulSetFailed || outcome == ServiceFailed ==>
                  t.slice.service == w.slice.service)
            && (outcome != DefaultsFailed && outcome != ConfigMapFailed ==>
                  && ConfigMapIs(t.slice, TextOf(order, spec))
                  && (IsOrder(order, ConfigData(spec).Keys) ==> ConfigMapAgrees(t.slice, spec)))
            && (outcome == ServiceFailed || outcome == StatusFailed || outcome == Reconciled ==>
                  StatefulSetAgrees(t.slice, spec))
            && (outcome == StatusFailed || outcome == Reconciled ==> ServiceAgrees(t.slice, w.inst.key))
  {
    hide SetDefaults, ReconcileConfigMap, FromStatefulSet, Degrade, IsOrder, ConfigData, EffectiveSpec, TextOf;
    SetDefaultsStores(w, env);
    var (w1, ok1) := SetDefaults(w, env);
    var (w2, ok2) := ReconcileConfigMap(w1, env, order);
    StatefulSetStages(w2, env);
    hide StatefulSetAgrees, ServiceAgrees;
    var t := Pass(w, env, order).0;
    assert ok1 && ok2 ==> t.slice.configMap == w2.slice.configMap;
    if ok1 && ok2 && IsOrder(order, ConfigData(w1.inst.spec).Keys) {
      SameConfigMap(w2.slice, t.slice, w1.inst.spec);
    }
  }

  /** An agent that reads the file of this ConfigMap finds the values of the spec. */
  predicate ConfigReads(s: Slice, spec: AgentSpec)
    requires spec.batchSize.Some?
  {
    && s.configMap.Some? && s.configMap.value.data.Keys == {"config.yaml"}
    && ReadsAs(ParseConfig(s.configMap.value.data["config.yaml"]), spec)
  }

  /** A ConfigMap that agrees with the spec reads back to its values, exactly when they have one line. */
  lemma AgreeingConfigReads(s: Slice, spec: AgentSpec)
    requires spec.batchSize.Some? && ConfigMapAgrees(s, spec)
    ensures ConfigReads(s, spec) <==> SpecSingleLine(spec)
  {
    hide ConfigData, Render, ParseConfig, ReadsAs, SpecSingleLine;
    var order: seq<string> :| IsOrder(order, ConfigData(spec).Keys) && ConfigMapIs(s, Render(order, ConfigData(spec)));
    ConfigReadsBack(spec, order);
    assert s.configMap.value.data == map["config.yaml" := Render(order, ConfigData(spec))];
  }

  lemma SameConfigMap(a: Slice, b: Slice, spec: AgentSpec)
    requires spec.batchSize.Some? && ConfigMapAgrees(a, spec) && b.configMap == a.configMap
    ensures ConfigMapAgrees(b, spec)
  {
    hide ConfigData, Render;
    var order: seq<string> :| IsOrder(order, ConfigData(spec).Keys) && ConfigMapIs(a, Render(order, ConfigData(spec)));
    assert ConfigMapIs(b, Render(order, ConfigData(spec)));
  }

  /** Afterwards the instance and the store carry the same spec, unless the write failed. */
  lemma SetDefaultsStores(w: Work, env: Env)
    requires Fresh(w)
    ensures var (t, ok) := SetDefaults(w, env);
            ok ==> t.slice == w.slice.(agent := Some(w.inst.(spec := EffectiveSpec(w.inst.spec, env))))
  {
  }

  ghost predicate NoFailures(env: Env, from: nat) {
    forall n: nat :: from <= n ==> !env.fails(n)
  }

  /** Without failures every stage succeeds; and calls are only counted up. */
  lemma StagesSucceed(w: Work, env: Env, order: seq<string>)
    requires w.slice.agent.Some? && Admitted(w.slice) && NoFailures(env, w.calls) && w.inst.spec.batchSize.Some?
    ensures ReconcileConfigMap(w, env, order).1 && ReconcileConfigMap(w, env, order).0.calls >= w.calls
    ensures ReconcileStatefulSet(w, env).1 && ReconcileStatefulSet(w, env).0.calls >= w.calls
    ensures ReconcileService(w, env).1 && ReconcileService(w, env).0.calls >= w.calls
    ensures UpdateStatus(w, env).1
  {
  }

  /** Without failures a pass goes through to the end. */
  lemma FailureFreePass(w: Work, env: Env, order: seq<string>)
    requires Fresh(w) && NoFailures(env, w.calls)
    ensures Pass(w, env, order).1 == Reconciled
  {
    var (w1, _) := SetDefaults(w, env);
    assert w1.calls >= w.calls;
    hide SetDefaults, ReconcileConfigMap, ReconcileStatefulSet, ReconcileService, UpdateStatus;
    var (w2, _) := ReconcileConfigMap(w1, env, order);
    var (w3, _) := ReconcileStatefulSet(w2, env);
    var (w4, _) := ReconcileService(w3, env);
    StagesSucceed(w1, env, order);
    StagesSucceed(w2, env, order);
    StagesSucceed(w3, env, order);
    StagesSucceed(w4, env, order);
  }

  /** The store after a series of passes, whatever each of them met. */
  function AfterPasses(slice: Slice, passes: seq<(Env, seq<string>)>): (r: Slice)
    requires slice.agent.Some? && Admitted(slice)
    ensures r.agent.Some? && Admitted(r)
    decreases |passes|
  {
    if passes == [] then slice
    else
      var w := Begin(slice);
      StagesInOrder(w, passes[0].0, passes[0].1);
      AfterPasses(Pass(w, passes[0].0, passes[0].1).0.slice, passes[1..])
  }

  /** A pass right after the agent was read. */
  function Begin(slice: Slice): (w: Work)
    requires slice.agent.Some?
    ensures Admitted(slice) ==> Fresh(w)
  {
    Work(slice, slice.agent.value, 1, [])
  }

  /** A series of passes with one default image leaves the spec alone or fills in its defaults, once and for
      all; with several default images, it still keeps the agent's name and log sources. */
  lemma {:induction false} SeriesKeepsSpec(slice: Slice, passes: seq<(Env, seq<string>)>, env: Env)
    requires slice.agent.Some? && Admitted(slice)
    ensures var before, after := slice.agent.value, AfterPasses(slice, passes).agent.value;
            && after.key == before.key && after.spec.logSources == before.spec.logSources
            && (OneImage(passes, env) ==> EffectiveSpec(after.spec, env) == EffectiveSpec(before.spec, env))
    decreases |passes|
  {
    if passes != [] {
      hide Pass;
      var (env0, order) := passes[0];
      var w := Begin(slice);
      StagesInOrder(w, env0, order);
      var next := Pass(w, env0, order).0.slice;
      SeriesKeepsSpec(next, passes[1..], env);
      assert next.agent.value.spec == w.inst.spec || next.agent.value.spec == EffectiveSpec(w.inst.spec, env0);
      FilledOnce(w.inst.spec, env0, env);
      hide StatefulSetAgrees, ServiceAgrees, ConfigMapIs, ConfigMapAgrees, TextOf, ConfigData;
    }
  }

  predicate OneImage(passes: seq<(Env, seq<string>)>, env: Env) {
    forall i :: 0 <= i < |passes| ==> passes[i].0.defaultImage == env.defaultImage
  }

  lemma FilledOnce(spec: AgentSpec, env0: Env, env: Env)
    ensures env0.defaultImage == env.defaultImage ==>
              EffectiveSpec(EffectiveSpec(spec, env0), env) == EffectiveSpec(spec, env)
  {
  }

  lemma SameConfigKeys(a: AgentSpec, b: AgentSpec)
    requires a.batchSize.Some? && b.batchSize.Some? && a.logSources == b.logSources
    ensures ConfigData(a).Keys == ConfigData(b).Keys
  {
  }

  /** Convergence: after any series of passes that failed anywhere, one pass without failures, visiting the
      configuration in any order, leaves every child agreeing with the stored spec.  With one default image
      that spec is the one the agent had before the series with the defaults filled in, whatever the passes
      before met. */
  lemma Converges(slice: Slice, passes: seq<(Env, seq<string>)>, env: Env, order: seq<string>)
    requires slice.agent.Some? && Admitted(slice) && NoFailures(env, 0)
    requires IsOrder(order, ConfigData(EffectiveSpec(slice.agent.value.spec, env)).Keys)
    ensures var (t, outcome) := Pass(Begin(AfterPasses(slice, passes)), env, order);
            && outcome == Reconciled && t.slice.agent.Some?
            && var spec := t.slice.agent.value.spec;
            && spec == EffectiveSpec(AfterPasses(slice, passes).agent.value.spec, env)
            && (OneImage(passes, env) ==> spec == EffectiveSpec(slice.agent.value.spec, env))
            && ConfigMapAgrees(t.slice, spec)
            && (SpecSingleLine(spec) ==> ConfigReads(t.slice, spec))
            && StatefulSetAgrees(t.slice, spec)
            && ServiceAgrees(t.slice, slice.agent.value.key)
  {
    hide Pass, StatefulSetAgrees, ServiceAgrees, EffectiveSpec, IsOrder, ConfigData, AfterPasses, OneImage;
    var w := Begin(AfterPasses(slice, passes));
    FailureFreePass(w, env, order);
    StagesInOrder(w, env, order);
    SeriesKeepsSpec(slice, passes, env);
    SameConfigKeys(EffectiveSpec(slice.agent.value.spec, env), EffectiveSpec(w.inst.spec, env));
    hide ConfigMapAgrees, ConfigReads, SpecSingleLine;
    AgreeingConfigReads(Pass(w, env, order).0.slice, EffectiveSpec(w.inst.spec, env));
  }

  // ----- What a failure-free pass does, object by object -----

  /** The writes of one child's stage. */
  function ChildWrites(kind: Kind, missing: bool, agrees: bool): seq<Write> {
    if missing then [Created(kind)] else if agrees then [] else [Updated(kind)]
  }

  predicate ConfigMapStage(a: Slice, text: string, key: Key, after: Option<ConfigMap>) {
    && after.Some? && after.value.data == map["config.yaml" := text]
    && match a.configMap
       case None => after == Some(ConfigMapWith(key, text))
       case Some(found) => after == Some(found.(data := after.value.data))
  }

  predicate StatefulSetStage(a: Slice, inst: Agent, after: Option<StatefulSet>) {
    && after.Some?
    && match a.statefulSet
       case None => after == Some(CreateStatefulSet(inst))
       case Some(found) =>
         if StatefulSetAgrees(a, inst.spec) then after == a.statefulSet
         else after == Some(found.(spec := CreateStatefulSet(inst).spec))
  }

  predicate ServiceStage(a: Slice, inst: Agent, after: Option<Service>) {
    && after.Some?
    && match a.service
       case None => after == Some(CreateService(inst))
       case Some(found) =>
         after == Some(found.(selector := CreateService(inst).selector, ports := CreateService(inst).ports))
  }

  lemma ConfigMapDone(w: Work, env: Env, order: seq<string>)
    requires w.inst.spec.batchSize.Some? && ReconcileConfigMap(w, env, order).1
    ensures var t := ReconcileConfigMap(w, env, order).0;
            var text := TextOf(order, w.inst.spec);
            && ConfigMapStage(w.slice, text, w.inst.key, t.slice.configMap)
            && t.log == w.log + ChildWrites(ConfigMapKind, w.slice.configMap.None?, ConfigMapIs(w.slice, text))
  {
    hide TextOf;
  }

  lemma StatefulSetDone(w: Work, env: Env)
    requires Admitted(w.slice) && ReconcileStatefulSet(w, env).1
    ensures var t := ReconcileStatefulSet(w, env).0;
            && StatefulSetStage(w.slice, w.inst, t.slice.statefulSet)
            && t.log == w.log + ChildWrites(StatefulSetKind, w.slice.statefulSet.None?,
                                            StatefulSetAgrees(w.slice, w.inst.spec))
  {
  }

  lemma ServiceDone(w: Work, env: Env)
    requires ReconcileService(w, env).1
    ensures var t := ReconcileService(w, env).0;
            && ServiceStage(w.slice, w.inst, t.slice.service)
            && t.log == w.log + ChildWrites(ServiceKind, w.slice.service.None?, ServiceAgrees(w.slice, w.inst.key))
  {
  }

  /** What a successful pass does: it fills in the defaults if need be; creates each child that is missing,
      as derived from the spec; updates each child that disagrees, in the fields it manages; leaves the others
      alone; and after that writes only the status. */
  lemma SuccessfulPass(w: Work, env: Env, order: seq<string>)
    requires Fresh(w) && Pass(w, env, order).1 == Reconciled
    ensures var t := Pass(w, env, order).0;
            var spec := EffectiveSpec(w.inst.spec, env);
            var inst, text := w.inst.(spec := spec), TextOf(order, spec);
            && ConfigMapStage(w.slice, text, w.inst.key, t.slice.configMap)
            && StatefulSetStage(w.slice, inst, t.slice.statefulSet)
            && ServiceStage(w.slice, inst, t.slice.service)
            && var writes := (if NeedsDefaults(w.inst.spec) then [Updated(AgentKind)] else [])
                 + ChildWrites(ConfigMapKind, w.slice.configMap.None?, ConfigMapIs(w.slice, text))
                 + ChildWrites(StatefulSetKind, w.slice.statefulSet.None?, StatefulSetAgrees(w.slice, spec))
                 + ChildWrites(ServiceKind, w.slice.service.None?, ServiceAgrees(w.slice, w.inst.key));
            && w.log + writes < t.log
            && forall i :: |w.log + writes| <= i < |t.log| ==> t.log[i] == Updated(StatusKind)
  {
    var (w1, _) := SetDefaults(w, env);
    assert w1.log == w.log + (if NeedsDefaults(w.inst.spec) then [Updated(AgentKind)] else []);
    hide SetDefaults, ReconcileConfigMap, ReconcileStatefulSet, ReconcileService, ChildWrites, IsOrder;
    hide EffectiveSpec, TextOf, ConfigMapAgrees, StatefulSetAgrees, ServiceAgrees, ConfigMapIs, FromStatus;
    hide ConfigMapStage, StatefulSetStage, ServiceStage;
    var (w2, _) := ReconcileConfigMap(w1, env, order);
    ConfigMapDone(w1, env, order);
    var (w3, _) := ReconcileStatefulSet(w2, env);
    StatefulSetDone(w2, env);
    var (w4, _) := ReconcileService(w3, env);
    ServiceDone(w3, env);
    StatusTail(w4, env);
    StatusWritten(w4, env);
    SameStages(w, w1, w2, w3, w4, TextOf(order, w1.inst.spec));
    LogsJoin(w.log, if NeedsDefaults(w.inst.spec) then [Updated(AgentKind)] else [],
             ChildWrites(ConfigMapKind, w1.slice.configMap.None?, ConfigMapIs(w1.slice, TextOf(order, w1.inst.spec))),
             ChildWrites(StatefulSetKind, w2.slice.statefulSet.None?, StatefulSetAgrees(w2.slice, w2.inst.spec)),
             ChildWrites(ServiceKind, w3.slice.service.None?, ServiceAgrees(w3.slice, w3.inst.key)));
  }

  /** Each stage sees the child it is about as the pass found it. */
  lemma SameStages(w: Work, w1: Work, w2: Work, w3: Work, w4: Work, text: string)
    requires w1.slice.configMap == w.slice.configMap
    requires w2.slice.statefulSet == w.slice.statefulSet && w3.slice.service == w.slice.service
    requires w2.inst == w1.inst && w3.inst == w1.inst && w1.inst.key == w.inst.key
    ensures ConfigMapIs(w1.slice, text) == ConfigMapIs(w.slice, text)
    ensures StatefulSetAgrees(w2.slice, w2.inst.spec) == StatefulSetAgrees(w.slice, w1.inst.spec)
    ensures ServiceAgrees(w3.slice, w3.inst.key) == ServiceAgrees(w.slice, w.inst.key)
    ensures forall cm :: ConfigMapStage(w1.slice, text, w1.inst.key, cm) == ConfigMapStage(w.slice, text, w.inst.key, cm)
    ensures forall ss :: StatefulSetStage(w2.slice, w2.inst, ss) == StatefulSetStage(w.slice, w1.inst, ss)
    ensures forall svc :: ServiceStage(w3.slice, w3.inst, svc) == ServiceStage(w.slice, w1.inst, svc)
  {
  }

  lemma StatusWritten(w: Work, env: Env)
    requires w.slice.agent.Some? && FromStatus(w, env).1 == Reconciled
    ensures |FromStatus(w, env).0.log| > |w.log|
  {
    hide WithCondition, WithoutCondition, Find;
  }

  lemma LogsJoin(log: seq<Write>, a: seq<Write>, b: seq<Write>, c: seq<Write>, d: seq<Write>)
    ensures log + a + b + c + d == log + (a + b + c + d)
  {
  }

  predicate IsQuietWrite(write: Write) {
    write == Updated(StatusKind) || write == Updated(ConfigMapKind)
  }

  /** The stages over a StatefulSet and a Service that already agree write only the status. */
  lemma QuietChildren(w: Work, env: Env)
    requires w.slice.agent.Some? && Admitted(w.slice) && NoFailures(env, w.calls)
    requires StatefulSetAgrees(w.slice, w.inst.spec) && ServiceAgrees(w.slice, w.inst.key)
    ensures WroteStatus(w, FromStatefulSet(w, env).0)
  {
    hide FromStatus;
    assert ReconcileStatefulSet(w, env).0 == Called(w);
    assert ReconcileService(Called(w), env).0 == Called(Called(w));
    StatusTail(Called(Called(w)), env);
  }

  /** A failure-free pass over children that already agree. */
  lemma QuietPass(w: Work, env: Env, before: string, order: seq<string>)
    requires Fresh(w) && NoFailures(env, w.calls) && !NeedsDefaults(w.inst.spec)
    requires ConfigMapIs(w.slice, before)
    requires StatefulSetAgrees(w.slice, w.inst.spec) && ServiceAgrees(w.slice, w.inst.key)
    ensures var (t, outcome) := Pass(w, env, order);
            var text := TextOf(order, w.inst.spec);
            && outcome == Reconciled
            && w.log <= t.log
            && (forall i :: |w.log| <= i < |t.log| ==> IsQuietWrite(t.log[i]))
            && (Updated(ConfigMapKind) in t.log[|w.log|..] <==> text != before)
            && OnlyStatus(w.slice.(configMap := t.slice.configMap), t.slice)
            && t.slice.configMap == Some(w.slice.configMap.value.(data := map[CONFIG_FILE := text]))
  {
    hide TextOf, FromStatefulSet, StatefulSetAgrees, ServiceAgrees;
    FailureFreePass(w, env, order);
    assert SetDefaults(w, env) == (w, true);
    var text := TextOf(order, w.inst.spec);
    var (w2, _) := ReconcileConfigMap(w, env, order);
    ConfigDataDiffers(before, text);
    assert w2.log == w.log + (if text == before then [] else [Updated(ConfigMapKind)]);
    SameChildren(w.slice, w2.slice, w.inst.spec, w.inst.key);
    QuietChildren(w2, env);
    var t := Pass(w, env, order).0;
    assert t == FromStatefulSet(w2, env).0;
    assert text != before ==> t.log[|w.log|..][0] == Updated(ConfigMapKind);
  }

  lemma SameChildren(a: Slice, b: Slice, spec: AgentSpec, key: Key)
    requires b.statefulSet == a.statefulSet && b.service == a.service
    requires StatefulSetAgrees(a, spec) && ServiceAgrees(a, key)
    ensures StatefulSetAgrees(b, spec) && ServiceAgrees(b, key)
  {
  }

  lemma ConfigDataDiffers(a: string, b: string)
    ensures map[CONFIG_FILE := a] == map[CONFIG_FILE := b] <==> a == b
  {
    assert map[CONFIG_FILE := a][CONFIG_FILE] == a && map[CONFIG_FILE := b][CONFIG_FILE] == b;
  }

  /** Only the status was written in between. */
  predicate WroteStatus(a: Work, b: Work) {
    && OnlyStatus(a.slice, b.slice)
    && a.log <= b.log
    && forall i :: |a.log| <= i < |b.log| ==> b.log[i] == Updated(StatusKind)
  }

  /** From the status stage on, only the status is written. */
  lemma StatusTail(w: Work, env: Env)
    requires w.slice.agent.Some?
    ensures WroteStatus(w, FromStatus(w, env).0)
  {
    var (w1, ok) := UpdateStatus(w, env);
    assert WroteStatus(w, w1);
    if ok {
      var w2 := SetCondition(w1, env, AVAILABLE, "True", "AgentAvailable", "The agent is available");
      ConditionTail(w1, env, w2);
      assert WroteStatus(w2, RemoveCondition(w2, env, DEGRADED)) by {
        hide WithoutCondition;
      }
      hide UpdateStatus, SetCondition, RemoveCondition, OnlyStatus;
      WroteTwice(w, w1, w2);
      WroteTwice(w, w2, RemoveCondition(w2, env, DEGRADED));
    }
  }

  lemma ConditionTail(w: Work, env: Env, t: Work)
    requires w.slice.agent.Some?
    requires t == SetCondition(w, env, AVAILABLE, "True", "AgentAvailable", "The agent is available")
    ensures WroteStatus(w, t)
  {
    hide WithCondition;
  }

  lemma WroteTwice(a: Work, b: Work, c: Work)
    requires WroteStatus(a, b) && WroteStatus(b, c)
    ensures WroteStatus(a, c)
  {
    forall i | |a.log| <= i < |c.log| ensures c.log[i] == Updated(StatusKind) {
      if i < |b.log| {
        assert c.log[i] == b.log[i];
      }
    }
  }

  /** The image is the one default that may itself be empty; otherwise defaults are filled in only once. */
  lemma DefaultsSettle(spec: AgentSpec, env: Env)
    ensures NeedsDefaults(EffectiveSpec(spec, env)) <==> spec.image == "" && env.defaultImage == ""
    ensures !NeedsDefaults(EffectiveSpec(spec, env)) ==>
              forall env2 :: EffectiveSpec(EffectiveSpec(spec, env), env2) == EffectiveSpec(spec, env)
  {
  }

  /** From one store to the next, only the status changed, and the ConfigMap from one rendering of the spec to
      another: the same entries, reading back to the same configuration when its values have one line. */
  predicate Settled(a: Slice, b: Slice, spec: AgentSpec, order: seq<string>, order2: seq<string>)
    requires spec.batchSize.Some?
    requires IsOrder(order, ConfigData(spec).Keys) && IsOrder(order2, ConfigData(spec).Keys)
  {
    var text, text2 := Render(order, ConfigData(spec)), Render(order2, ConfigData(spec));
    && OnlyStatus(a.(configMap := b.configMap), b) && a.agent.value.spec == spec
    && ConfigMapIs(a, text)
    && b.configMap == Some(a.configMap.value.(data := map[CONFIG_FILE := text2]))
    && multiset(EntryLines(order, ConfigData(spec))) == multiset(EntryLines(order2, ConfigData(spec)))
    && (SpecSingleLine(spec) ==> ParseConfig(text2) == ParseConfig(text))
  }

  /** Quiescence: after a successful pass, a further failure-free pass creates nothing and updates neither
      the agent spec nor the StatefulSet nor the Service.  Both passes render the configuration of the
      spec the first one left behind, so the ConfigMap is rewritten exactly when the second visit of the
      map gave another text, and that text holds the same entries. */
  lemma Quiescence(w: Work, env: Env, order: seq<string>, calls: nat, log: seq<Write>, env2: Env, order2: seq<string>)
    requires Fresh(w) && (w.inst.spec.image != "" || env.defaultImage != "") && NoFailures(env2, calls)
    requires IsOrder(order, ConfigData(EffectiveSpec(w.inst.spec, env)).Keys)
    requires IsOrder(order2, ConfigData(EffectiveSpec(w.inst.spec, env)).Keys)
    ensures var (first, firstOutcome) := Pass(w, env, order);
            firstOutcome == Reconciled ==>
              && first.slice.agent.Some? && Admitted(first.slice)
              && var spec := EffectiveSpec(w.inst.spec, env);
              var (t, outcome) := Pass(Work(first.slice, first.slice.agent.value, calls, log), env2, order2);
              && first.slice.agent.value.spec == spec == EffectiveSpec(spec, env2)
              && outcome == Reconciled
              && QuietSince(log, t.log)
              && (Updated(ConfigMapKind) in t.log[|log|..] <==>
                    Render(order2, ConfigData(spec)) != Render(order, ConfigData(spec)))
              && Settled(first.slice, t.slice, spec, order, order2)
  {
    hide Pass, StatefulSetAgrees, ServiceAgrees, IsOrder, ConfigData, Render, ParseConfig, SpecSingleLine;
    hide EntryLines, ConfigMapAgrees, NeedsDefaults;
    var spec := EffectiveSpec(w.inst.spec, env);
    StagesInOrder(w, env, order);
    DefaultsSettle(w.inst.spec, env);
    hide EffectiveSpec;
    TextIsRendering(order, spec);
    TextIsRendering(order2, spec);
    RewriteOnlyReorders(spec, order, order2);
    var (first, outcome) := Pass(w, env, order);
    if outcome == Reconciled {
      var next := Work(first.slice, first.slice.agent.value, calls, log);
      QuietPass(next, env2, TextOf(order, spec), order2);
    }
  }

  /** Since `before`, only the status or the ConfigMap was written, and nothing was created. */
  predicate QuietSince(before: seq<Write>, after: seq<Write>) {
    before <= after && forall i :: |before| <= i < |after| ==> IsQuietWrite(after[i])
  }

  lemma TextIsRendering(order: seq<string>, spec: AgentSpec)
    requires spec.batchSize.Some? && IsOrder(order, ConfigData(spec).Keys)
    ensures TextOf(order, spec) == Render(order, ConfigData(spec))
  {
  }

  /** Two renderings of one spec hold the same entries, whatever the two iteration orders, and read back to
      the same configuration when its values have one line. */
  lemma RewriteOnlyReorders(spec: AgentSpec, order: seq<string>, order2: seq<string>)
    requires spec.batchSize.Some?
    requires IsOrder(order, ConfigData(spec).Keys) && IsOrder(order2, ConfigData(spec).Keys)
    ensures var data := ConfigData(spec);
            && multiset(EntryLines(order, data)) == multiset(EntryLines(order2, data))
            && Render(order, data) == Unlines(EntryLines(order, data))
            && Render(order2, data) == Unlines(EntryLines(order2, data))
            && (SpecSingleLine(spec) ==> ParseConfig(Render(order, data)) == ParseConfig(Render(order2, data)))
  {
    hide ParseConfig, EntryLines;
    SameEntries(order, order2, ConfigData(spec), ConfigData(spec).Keys);
    ConfigRoundTrip(spec, order);
    ConfigRoundTrip(spec, order2);
  }

  /** With no image and no default for it, no pass settles: each one rewrites the agent. */
  lemma EmptyImageNeverSettles(w: Work, env: Env, order: seq<string>)
    requires Fresh(w) && w.inst.spec.image == "" && env.defaultImage == ""
    ensures var t := Pass(w, env, order).0;
            && t.slice.agent.Some? && t.slice.agent.value.spec.image == ""
            && |t.log| > |w.log| && t.log[|w.log|] == Updated(AgentKind)
  {
    hide FromConfigMap;
    StagesInOrder(w, env, order);
    var (w1, ok) := SetDefaults(w, env);
    assert w1.log == w.log + [Updated(AgentKind)];
    if ok {
      LogGrows(w1, env, order);
    }
  }

  lemma LogGrows(w: Work, env: Env, order: seq<string>)
    requires w.slice.agent.Some? && Admitted(w.slice) && w.inst.spec.batchSize.Some?
    ensures w.log <= FromConfigMap(w, env, order).0.log
  {
    hide ReconcileConfigMap, ReconcileStatefulSet, ReconcileService, FromStatus, Degrade;
    var (w2, _) := ReconcileConfigMap(w, env, order);
    var (w3, _) := ReconcileStatefulSet(w2, env);
    var (w4, _) := ReconcileService(w3, env);
    ConfigMapLater(w, env, order);
    StatefulSetLater(w2, env);
    ServiceLater(w3, env);
    StatusTail(w4, env);
    DegradeLogs(w2, env, "ConfigMapReconcileFailed");
    DegradeLogs(w3, env, "StatefulSetReconcileFailed");
    DegradeLogs(w4, env, "ServiceReconcileFailed");
  }

  /** Calls are only counted up and writes only added. */
  predicate Later(a: Work, b: Work) {
    a.calls <= b.calls && a.log <= b.log
  }

  lemma ConfigMapLater(w: Work, env: Env, order: seq<string>)
    requires w.inst.spec.batchSize.Some?
    ensures Later(w, ReconcileConfigMap(w, env, order).0)
  {
    hide TextOf;
  }

  lemma StatefulSetLater(w: Work, env: Env)
    requires Admitted(w.slice)
    ensures Later(w, ReconcileStatefulSet(w, env).0)
  {
    hide AmountList;
  }

  lemma ServiceLater(w: Work, env: Env)
    ensures Later(w, ReconcileService(w, env).0)
  {
  }

  lemma DegradeLogs(w: Work, env: Env, reason: string)
    requires w.slice.agent.Some? && w.calls > 0
    ensures Degrade(w, env, reason).log == w.log + [Updated(StatusKind)]
  {
  }

  /** The conditions of an available agent: Available at True, set at `time` unless it was so before, no
      Degraded, and all other types as they were. */
  ghost predicate MarkedAvailable(before: seq<Condition>, time: int, after: seq<Condition>) {
    && DistinctKinds(after)
    && var m := AsMap(before);
    AsMap(after) ==
      (if "Available" in m && m["Available"].status == "True" then m
       else m["Available" := Condition("Available", "True", time, "AgentAvailable", "The agent is available")])
      - {"Degraded"}
  }

  /** What a pass leaves in the in-memory conditions: from distinct types, a successful one ends with
      exactly one Available, at status True, and no Degraded. */
  lemma ConditionsAfterSuccess(w: Work, env: Env, order: seq<string>) returns (n: nat)
    requires Fresh(w) && DistinctKinds(w.inst.status.conditions) && Pass(w, env, order).1 == Reconciled
    ensures n >= w.calls
    ensures MarkedAvailable(w.inst.status.conditions, env.clock(n), Pass(w, env, order).0.inst.status.conditions)
  {
    hide MarkedAvailable, DistinctKinds, Finish;
    var (w1, _) := SetDefaults(w, env);
    assert w1.calls >= w.calls;
    hide SetDefaults, ReconcileConfigMap, ReconcileStatefulSet, ReconcileService;
    hide EffectiveSpec, TextOf, ConfigMapAgrees, StatefulSetAgrees, ServiceAgrees, IsOrder;
    var (w2, _) := ReconcileConfigMap(w1, env, order);
    var (w3, _) := ReconcileStatefulSet(w2, env);
    var (w4, _) := ReconcileService(w3, env);
    var (w5, _) := UpdateStatus(w4, env);
    n := w5.calls;
    FinishConditions(w5, env);
  }

  /** A successful pass reports the ready replicas of the StatefulSet it left behind and the time of the
      report; when no call fails, what is stored is the in-memory status. */
  lemma StatusAfterSuccess(w: Work, env: Env, order: seq<string>)
    requires Fresh(w) && Pass(w, env, order).1 == Reconciled
    ensures var t := Pass(w, env, order).0;
            && t.slice.statefulSet.Some? && t.slice.agent.Some?
            && t.inst.status.availableReplicas == t.slice.statefulSet.value.readyReplicas
            && (exists n: nat :: n >= w.calls && t.inst.status.lastUpdate == env.clock(n))
            && (NoFailures(env, w.calls) ==> t.slice.agent.value.status == t.inst.status)
  {
    var (w1, _) := SetDefaults(w, env);
    assert w1.calls >= w.calls;
    hide SetDefaults, ReconcileConfigMap, ReconcileStatefulSet, ReconcileService;
    var (w2, _) := ReconcileConfigMap(w1, env, order);
    var (w3, _) := ReconcileStatefulSet(w2, env);
    var (w4, _) := ReconcileService(w3, env);
    ConfigMapLater(w1, env, order);
    StatefulSetLater(w2, env);
    ServiceLater(w3, env);
    ReportedStatus(w4, env);
  }

  lemma ReportedStatus(w: Work, env: Env)
    requires w.slice.agent.Some? && w.slice.statefulSet.Some? && FromStatus(w, env).1 == Reconciled
    ensures var t := FromStatus(w, env).0;
            && t.slice.statefulSet == w.slice.statefulSet && t.slice.agent.Some?
            && t.inst.status.availableReplicas == w.slice.statefulSet.value.readyReplicas
            && t.inst.status.lastUpdate == env.clock(w.calls)
            && (NoFailures(env, w.calls) ==> t.slice.agent.value.status == t.inst.status)
  {
    var (w1, _) := UpdateStatus(w, env);
    assert w1.calls >= w.calls;
    hide UpdateStatus, Finish;
    FinishReports(w1, env);
  }

  lemma FinishReports(w: Work, env: Env)
    requires w.slice.agent.Some? && w.slice.agent.value.status == w.inst.status
    ensures var t := Finish(w, env);
            && t.inst.status == w.inst.status.(conditions := t.inst.status.conditions)
            && (NoFailures(env, w.calls) ==> t.slice.agent.value.status == t.inst.status)
  {
    hide WithCondition, WithoutCondition, Find;
  }

  function FailureReason(outcome: Outcome): string {
    match outcome
    case ConfigMapFailed => "ConfigMapReconcileFailed"
    case StatefulSetFailed => "StatefulSetReconcileFailed"
    case ServiceFailed => "ServiceReconcileFailed"
    case _ => ""
  }

  predicate ChildFailed(outcome: Outcome) {
    outcome == ConfigMapFailed || outcome == StatefulSetFailed || outcome == ServiceFailed
  }

  /** `t` is `w` after the failure of its last call was put into the conditions: Degraded at True, with the time,
      the reason and the error's text unless it was at True already, and all other types as they were; and
      that is what is stored too, if the status could be written. */
  ghost predicate MarkedDegraded(w: Work, env: Env, reason: string, t: Work) {
    && w.calls > 0 && t.calls == w.calls + 1
    && w.slice.agent.Some? && t.slice.agent.Some?
    && var before, after := AsMap(w.inst.status.conditions), AsMap(t.inst.status.conditions);
    && DistinctKinds(t.inst.status.conditions)
    && after == (if "Degraded" in before && before["Degraded"].status == "True" then before
                 else before["Degraded" := Condition("Degraded", "True", env.clock(w.calls), reason,
                                                     env.errorText(w.calls - 1))])
    && t.inst == w.inst.(status := w.inst.status.(conditions := t.inst.status.conditions))
    && t.slice.agent.value.status ==
       if env.fails(w.calls) then w.slice.agent.value.status else t.inst.status
  }

  /** A pass that failed at a child ends with Degraded at True, for the reason of that child and with the error
      of the call that failed, in memory and, if that write succeeds, in the store. */
  lemma ConditionsAfterFailure(w: Work, env: Env, order: seq<string>) returns (at: Work)
    requires Fresh(w) && DistinctKinds(w.inst.status.conditions) && ChildFailed(Pass(w, env, order).1)
    ensures var (t, outcome) := Pass(w, env, order);
            && at.inst == w.inst.(spec := EffectiveSpec(w.inst.spec, env)) && at.calls > w.calls
            && at.slice.agent == Some(at.inst) && env.fails(at.calls - 1)
            && MarkedDegraded(at, env, FailureReason(outcome), t)
  {
    hide FromConfigMap, DistinctKinds, MarkedDegraded;
    var (w1, ok1) := SetDefaults(w, env);
    assert w1.calls >= w.calls;
    SetDefaultsStores(w, env);
    hide SetDefaults, EffectiveSpec;
    at := FailsFromConfigMap(w1, env, order);
  }

  /** The pass failed at a call made after `w`, and `at` is the state then. */
  ghost predicate FailedAt(w: Work, env: Env, at: Work, t: Work, outcome: Outcome) {
    && at.inst == w.inst && at.calls > w.calls && at.slice.agent == w.slice.agent && env.fails(at.calls - 1)
    && MarkedDegraded(at, env, FailureReason(outcome), t)
  }

  lemma FailsFromConfigMap(w: Work, env: Env, order: seq<string>) returns (at: Work)
    requires w.slice.agent.Some? && Admitted(w.slice) && w.inst.spec.batchSize.Some?
    requires DistinctKinds(w.inst.status.conditions) && ChildFailed(FromConfigMap(w, env, order).1)
    ensures var (t, outcome) := FromConfigMap(w, env, order); FailedAt(w, env, at, t, outcome)
  {
    hide ReconcileConfigMap, FromStatefulSet, Degrade, DistinctKinds, MarkedDegraded, ConfigMapAgrees, TextOf;
    var (w', ok) := ReconcileConfigMap(w, env, order);
    if ok {
      at := FailsFromStatefulSet(w', env);
    } else {
      at := w';
      DegradeConditions(at, env, "ConfigMapReconcileFailed");
    }
  }

  lemma FailsFromStatefulSet(w: Work, env: Env) returns (at: Work)
    requires w.slice.agent.Some? && Admitted(w.slice)
    requires DistinctKinds(w.inst.status.conditions) && ChildFailed(FromStatefulSet(w, env).1)
    ensures var (t, outcome) := FromStatefulSet(w, env); FailedAt(w, env, at, t, outcome)
  {
    hide ReconcileStatefulSet, FromService, Degrade, DistinctKinds, MarkedDegraded, StatefulSetAgrees;
    var (w', ok) := ReconcileStatefulSet(w, env);
    if ok {
      at := FailsFromService(w', env);
    } else {
      at := w';
      DegradeConditions(at, env, "StatefulSetReconcileFailed");
    }
  }

  lemma FailsFromService(w: Work, env: Env) returns (at: Work)
    requires w.slice.agent.Some?
    requires DistinctKinds(w.inst.status.conditions) && ChildFailed(FromService(w, env).1)
    ensures var (t, outcome) := FromService(w, env); FailedAt(w, env, at, t, outcome)
  {
    hide ReconcileService, FromStatus, Degrade, DistinctKinds, MarkedDegraded, ServiceAgrees;
    at := ReconcileService(w, env).0;
    StatusStages(at, env);
    DegradeConditions(at, env, "ServiceReconcileFailed");
  }

  lemma DegradeConditions(w: Work, env: Env, reason: string)
    requires w.slice.agent.Some? && w.calls > 0 && DistinctKinds(w.inst.status.conditions)
    ensures MarkedDegraded(w, env, reason, Degrade(w, env, reason))
  {
    hide AsMap, DistinctKinds, WithCondition;
    SetRefines(w.inst.status.conditions,
               Condition(DEGRADED, "True", env.clock(w.calls), reason, env.errorText(w.calls - 1)));
  }

  lemma FinishConditions(w: Work, env: Env)
    requires w.slice.agent.Some? && DistinctKinds(w.inst.status.conditions)
    ensures MarkedAvailable(w.inst.status.conditions, env.clock(w.calls), Finish(w, env).inst.status.conditions)
  {
    hide AsMap, DistinctKinds, Find;
    var c := Condition(AVAILABLE, "True", env.clock(w.calls), "AgentAvailable", "The agent is available");
    var list := w.inst.status.conditions;
    SetRefines(list, c);
    RemoveRefines(WithCondition(list, c), DEGRADED);
    assert Finish(w, env).inst.status.conditions == WithoutCondition(WithCondition(list, c), DEGRADED);
  }

  /** What one pass on a settled spec does to the StatefulSet: nothing when it agrees in the compared fields;
      otherwise nothing yet, or the desired spec. */
  lemma PassOnStatefulSet(w: Work, env: Env, order: seq<string>)
    requires Fresh(w) && !NeedsDefaults(w.inst.spec)
    ensures var t := Pass(w, env, order).0.slice;
            && t.agent.Some? && Admitted(t)
            && t.agent.value.spec == w.inst.spec && t.agent.value.key == w.inst.key
            && MovedTowards(w.slice, t, w.inst)
  {
    StagesInOrder(w, env, order);
    assert SetDefaults(w, env) == (w, true);
    var w2 := ReconcileConfigMap(w, env, order).0;
    StatefulSetStages(w2, env);
    hide SetDefaults, ReconcileConfigMap, ReconcileService, FromStatus, Degrade, TextOf, ConfigMapAgrees;
    ServiceStages(ReconcileStatefulSet(w2, env).0, env);
    hide FromService;
    assert Pass(w, env, order).0.slice.statefulSet == w.slice.statefulSet
        || Pass(w, env, order).0.slice.statefulSet == ReconcileStatefulSet(w2, env).0.slice.statefulSet;
  }

  predicate MovedTowards(a: Slice, b: Slice, inst: Agent) {
    || b.statefulSet == a.statefulSet
    || (!StatefulSetAgrees(a, inst.spec) && Applied(b, inst))
  }

  /** The StatefulSet has the desired spec, also where the comparison does not look. */
  predicate Applied(s: Slice, inst: Agent) {
    s.statefulSet.Some? && s.statefulSet.value.spec == CreateStatefulSet(inst).spec
  }

  /** The same over any series of passes while the spec stays as it is. */
  lemma {:induction false} SeriesOnStatefulSet(slice: Slice, passes: seq<(Env, seq<string>)>)
    requires slice.agent.Some? && Admitted(slice) && !NeedsDefaults(slice.agent.value.spec)
    ensures var t := AfterPasses(slice, passes);
            && t.agent.value.spec == slice.agent.value.spec && t.agent.value.key == slice.agent.value.key
            && MovedTowards(slice, t, slice.agent.value)
    decreases |passes|
  {
    if passes != [] {
      var w := Begin(slice);
      PassOnStatefulSet(w, passes[0].0, passes[0].1);
      hide Pass;
      SeriesOnStatefulSet(Pass(w, passes[0].0, passes[0].1).0.slice, passes[1..]);
    }
  }

  /** Some series of passes brings the StatefulSet to the desired spec exactly when it differs in replicas,
      image or resources, or is missing, or was right already: any other difference stays for ever. */
  lemma StatefulSetAppliedIff(slice: Slice)
    requires slice.agent.Some? && Admitted(slice) && !NeedsDefaults(slice.agent.value.spec)
    ensures var inst := slice.agent.value;
            (exists passes: seq<(Env, seq<string>)> :: Applied(AfterPasses(slice, passes), inst)) <==>
              (!StatefulSetAgrees(slice, inst.spec) || Applied(slice, inst))
  {
    var inst := slice.agent.value;
    hide StatefulSetAgrees, Applied, Pass;
    forall passes: seq<(Env, seq<string>)> | Applied(AfterPasses(slice, passes), inst)
      ensures !StatefulSetAgrees(slice, inst.spec) || Applied(slice, inst)
    {
      SeriesOnStatefulSet(slice, passes);
      if StatefulSetAgrees(slice, inst.spec) {
        SameApplied(slice, AfterPasses(slice, passes), inst);
      }
    }
    if !StatefulSetAgrees(slice, inst.spec) || Applied(slice, inst) {
      var passes := PassesThatApply(slice);
      assert Applied(AfterPasses(slice, passes), inst);
    }
  }

  lemma PassesThatApply(slice: Slice) returns (passes: seq<(Env, seq<string>)>)
    requires slice.agent.Some? && Admitted(slice) && !NeedsDefaults(slice.agent.value.spec)
    requires !StatefulSetAgrees(slice, slice.agent.value.spec) || Applied(slice, slice.agent.value)
    ensures Applied(AfterPasses(slice, passes), slice.agent.value)
  {
    hide StatefulSetAgrees, Applied, Pass;
    passes := [];
    var inst := slice.agent.value;
    if !Applied(slice, inst) {
      var env := Env((n: nat) => false, (n: nat) => "", (n: nat) => 0, "");
      var w := Begin(slice);
      FailureFreePass(w, env, []);
      StagesInOrder(w, env, []);
      PassOnStatefulSet(w, env, []);
      var t := Pass(w, env, []).0.slice;
      NotBothAgree(slice, t, inst);
      passes := [(env, [])];
      assert AfterPasses(t, passes[1..]) == t;
    }
  }

  lemma SameApplied(a: Slice, b: Slice, inst: Agent)
    requires Applied(b, inst) && b.statefulSet == a.statefulSet
    ensures Applied(a, inst)
  {
  }

  lemma NotBothAgree(a: Slice, b: Slice, inst: Agent)
    requires !StatefulSetAgrees(a, inst.spec) && StatefulSetAgrees(b, inst.spec) && MovedTowards(a, b, inst)
    ensures Applied(b, inst)
  {
  }

  /** A pull policy changed on its own is never applied. */
  lemma PullPolicyNeverApplied(slice: Slice, policy: string, passes: seq<(Env, seq<string>)>)
    requires slice.agent.Some? && !NeedsDefaults(slice.agent.value.spec)
    requires policy != slice.agent.value.spec.imagePullPolicy
    requires var inst := slice.agent.value;
             slice.statefulSet == Some(CreateStatefulSet(inst.(spec := inst.spec.(imagePullPolicy := policy))))
    ensures Admitted(slice) && AfterPasses(slice, passes).statefulSet == slice.statefulSet
    ensures !Applied(AfterPasses(slice, passes), slice.agent.value)
  {
    hide AfterPasses;
    SeriesOnStatefulSet(slice, passes);
    var live := slice.statefulSet.value.spec.template.containers[0];
    assert live.pullPolicy == policy;
    assert CreateStatefulSet(slice.agent.value).spec.template.containers[0].pullPolicy != policy;
  }

  predicate ConfigMapFramed(a: Slice, b: Slice) {
    a.configMap.Some? ==> b.configMap.Some? && b.configMap.value == a.configMap.value.(data := b.configMap.value.data)
  }

  predicate StatefulSetFramed(a: Slice, b: Slice) {
    a.statefulSet.Some? ==>
      b.statefulSet.Some? && b.statefulSet.value == a.statefulSet.value.(spec := b.statefulSet.value.spec)
  }

  predicate ServiceFramed(a: Slice, b: Slice) {
    a.service.Some? ==>
      && b.service.Some?
      && b.service.value == a.service.value.(selector := b.service.value.selector, ports := b.service.value.ports)
  }

  lemma ConfigMapFrame(w: Work, env: Env, order: seq<string>)
    requires w.inst.spec.batchSize.Some?
    ensures ConfigMapFramed(w.slice, ReconcileConfigMap(w, env, order).0.slice)
  {
    hide TextOf, ConfigMapAgrees;
  }

  lemma StatefulSetFrame(w: Work, env: Env)
    requires Admitted(w.slice)
    ensures StatefulSetFramed(w.slice, ReconcileStatefulSet(w, env).0.slice)
  {
  }

  lemma ServiceFrame(w: Work, env: Env)
    ensures ServiceFramed(w.slice, ReconcileService(w, env).0.slice)
  {
  }

  /** Framing: a pass changes nothing of an existing child but the fields it manages: the data of the
      ConfigMap, the spec of the StatefulSet, the selector and ports of the Service. */
  lemma ForeignFieldsKept(w: Work, env: Env, order: seq<string>)
    requires Fresh(w)
    ensures var t := Pass(w, env, order).0.slice;
            ConfigMapFramed(w.slice, t) && StatefulSetFramed(w.slice, t) && ServiceFramed(w.slice, t)
  {
    hide SetDefaults, ReconcileConfigMap, ReconcileStatefulSet, ReconcileService, FromStatus, Degrade;
    hide EffectiveSpec, TextOf, ConfigMapAgrees, StatefulSetAgrees, ServiceAgrees, IsOrder;
    var (w1, _) := SetDefaults(w, env);
    var (w2, _) := ReconcileConfigMap(w1, env, order);
    var (w3, _) := ReconcileStatefulSet(w2, env);
    StatusStages(ReconcileService(w3, env).0, env);
    ConfigMapFrame(w1, env, order);
    StatefulSetFrame(w2, env);
    ServiceFrame(w3, env);
  }
}
