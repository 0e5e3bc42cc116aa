/** The objects the operator manages and how they are derived from a TailpostAgent. */
module Resources {
  import opened Lines

  type Labels = map<string, string>

  datatype Key = Key(namespace: string, name: string)

  datatype LogSource = LogSource(kind: string, path: string, containerName: string)

  datatype Amounts = Amounts(cpu: string, memory: string)

  datatype AgentSpec = AgentSpec(
    replicas: Option<int>, image: string, imagePullPolicy: string, serviceAccount: string,
    logSources: seq<LogSource>, serverURL: string, batchSize: Option<int>, flushInterval: string,
    limits: Amounts, requests: Amounts)

  datatype Condition = Condition(kind: string, status: string, transition: int, reason: string, message: string)

  datatype Status = Status(conditions: seq<Condition>, availableReplicas: int, lastUpdate: int)

  datatype Agent = Agent(key: Key, spec: AgentSpec, status: Status)

  datatype Meta = Meta(key: Key, labels: Labels, owner: Option<Key>)

  datatype ConfigMap = ConfigMap(meta: Meta, data: map<string, string>)

  datatype Requirements = Requirements(
    limits: Option<map<string, string>>, requests: Option<map<string, string>>)

  datatype Container = Container(
    name: string, image: string, pullPolicy: string, args: seq<string>, resources: Requirements)

  datatype PodTemplate = PodTemplate(
    labels: Labels, serviceAccount: string, containers: seq<Container>, configVolume: string, configMount: string)

  datatype StatefulSetSpec = StatefulSetSpec(
    replicas: Option<int>, selector: Labels, serviceName: string, template: PodTemplate)

  datatype StatefulSet = StatefulSet(meta: Meta, spec: StatefulSetSpec, readyReplicas: int)

  datatype Port = Port(name: string, port: int, targetPort: int, protocol: string)

  /** `clusterIP` stands for the fields of a Service that the API server owns. */
  datatype Service = Service(meta: Meta, selector: Labels, ports: seq<Port>, clusterIP: string)

  const COMPONENT := "tailpost-agent"
  const CONFIG_FILE := "config.yaml"
  const METRICS_PORT := 8080

  function GetLabels(key: Key): Labels {
    map["app.kubernetes.io/name" := COMPONENT,
        "app.kubernetes.io/instance" := key.name,
        "app.kubernetes.io/managed-by" := "tailpost-operator"]
  }

  function ConfigMapKey(key: Key): Key {
    Key(key.namespace, key.name + "-config")
  }

  function StatefulSetKey(key: Key): Key { key }

  function ServiceKey(key: Key): Key { key }

  /** Derived names are injective within each kind. */
  lemma DerivedNamesInjective(a: Key, b: Key)
    requires a != b
    ensures ConfigMapKey(a) != ConfigMapKey(b)
    ensures StatefulSetKey(a) != StatefulSetKey(b)
    ensures ServiceKey(a) != ServiceKey(b)
  {
    assert (a.name + "-config")[..|a.name|] == a.name;
    assert (b.name + "-config")[..|b.name|] == b.name;
  }

  // ----- Rendering the agent configuration -----

  datatype Value = Text(text: string) | Number(number: int)

  function Digits(n: nat): string {
    if n < 10 then ["0123456789"[n]] else Digits(n / 10) + ["0123456789"[n % 10]]
  }

  function Decimal(n: int): string {
    if n < 0 then "-" + Digits(-n) else Digits(n)
  }

  function ValueText(v: Value): string {
    match v
    case Text(text) => text
    case Number(n) => Decimal(n)
  }

  function Entry(key: string, v: Value): string {
    key + ": " + ValueText(v)
  }

  /** One iteration order of a Go map. */
  ghost predicate IsOrder(order: seq<string>, keys: set<string>) {
    && (forall i, j :: 0 <= i < j < |order| ==> order[i] != order[j])
    && (forall i :: 0 <= i < |order| ==> order[i] in keys)
    && (forall k :: k in keys ==> k in order)
  }

  /** The entries in the given order, one per line. */
  function EntryLines(order: seq<string>, data: map<string, Value>): seq<string>
    requires forall i :: 0 <= i < |order| ==> order[i] in data
  {
    seq(|order|, i requires 0 <= i < |order| => Entry(order[i], data[order[i]]))
  }

  function Render(order: seq<string>, data: map<string, Value>): string
    requires forall i :: 0 <= i < |order| ==> order[i] in data
  {
    Unlines(EntryLines(order, data))
  }

  /** `yaml`: the loop visits the map in an order of the runtime's choosing. */
  method Yaml(data: map<string, Value>) returns (text: string, ghost order: seq<string>)
    ensures IsOrder(order, data.Keys) && text == Render(order, data)
  {
    text, order := "", [];
    var left := data.Keys;
    while left != {}
      invariant left <= data.Keys
      invariant IsOrder(order, data.Keys - left) && text == Render(order, data)
      decreases |left|
    {
      var k :| k in left;
      RenderPush(order, k, data);
      text := text + (Entry(k, data[k]) + "\n");
      order := order + [k];
      left := left - {k};
    }
    assert data.Keys - left == data.Keys;
  }

  lemma RenderPush(order: seq<string>, k: string, data: map<string, Value>)
    requires k in data && forall i :: 0 <= i < |order| ==> order[i] in data
    ensures Render(order + [k], data) == Render(order, data) + (Entry(k, data[k]) + "\n")
  {
    var e := Entry(k, data[k]);
    assert EntryLines(order + [k], data) == EntryLines(order, data) + [e];
    UnlinesAppend(EntryLines(order, data), [e]);
    UnlinesCons(e, []);
    assert [e] + [] == [e];
  }

  // ----- Reading it back -----

  /** The position of the first `": "`, if any. */
  function Separator(line: string): (r: Option<nat>)
    ensures r.Some? ==> r.value + 1 < |line| && line[r.value] == ':' && line[r.value + 1] == ' '
  {
    if |line| < 2 then None
    else if line[0] == ':' && line[1] == ' ' then Some(0)
    else match Separator(line[1..]) case None => None case Some(i) => Some(i + 1)
  }

  /** Cuts every line at its first `": "`; later entries win, other lines are ignored. */
  function ParseLines(lines: seq<string>): map<string, string> {
    if lines == [] then map[]
    else
      var line := lines[|lines| - 1];
      var before := ParseLines(lines[..|lines| - 1]);
      match Separator(line)
      case None => before
      case Some(i) => before[line[..i] := line[i + 2..]]
  }

  function ParseConfig(text: string): map<string, string> {
    ParseLines(CompleteLines(text))
  }

  function Texts(data: map<string, Value>): map<string, string> {
    map k | k in data :: ValueText(data[k])
  }

  predicate CleanKeys(keys: set<string>) {
    forall k :: k in keys ==> '\n' !in k && ':' !in k
  }

  predicate SingleLineValues(data: map<string, Value>) {
    forall k :: k in data ==> '\n' !in ValueText(data[k])
  }

  lemma {:induction false} SeparatorOfEntry(key: string, value: string)
    requires ':' !in key
    ensures Separator(key + ": " + value) == Some(|key|)
  {
    var line := key + ": " + value;
    if key != "" {
      assert line[0] == key[0] != ':';
      assert line[1..] == key[1..] + ": " + value;
      SeparatorOfEntry(key[1..], value);
    }
  }

  lemma {:induction false} ParseEntries(order: seq<string>, data: map<string, Value>)
    requires forall i :: 0 <= i < |order| ==> order[i] in data && ':' !in order[i]
    ensures ParseLines(EntryLines(order, data)) ==
            map k | k in order :: ValueText(data[k])
    decreases |order|
  {
    if order != [] {
      var n := |order| - 1;
      var k := order[n];
      assert order == order[..n] + [k];
      assert EntryLines(order, data)[..n] == EntryLines(order[..n], data);
      ParseEntries(order[..n], data);
      SeparatorOfEntry(k, ValueText(data[k]));
      var line := Entry(k, data[k]);
      assert line[..|k|] == k && line[|k| + 2..] == ValueText(data[k]);
    }
  }

  lemma {:induction false} ParsedIsSingleLine(lines: seq<string>)
    requires NewlineFree(lines)
    ensures forall k :: k in ParseLines(lines) ==> '\n' !in ParseLines(lines)[k]
    decreases |lines|
  {
    if lines != [] {
      ParsedIsSingleLine(lines[..|lines| - 1]);
    }
  }

  lemma RenderedLines(order: seq<string>, data: map<string, Value>)
    requires IsOrder(order, data.Keys) && CleanKeys(data.Keys) && SingleLineValues(data)
    ensures CompleteLines(Render(order, data)) == EntryLines(order, data)
  {
    hide CompleteLines, Remainder, Unlines;
    var lines := EntryLines(order, data);
    assert Render(order, data) == Unlines(lines) + "";
    forall i | 0 <= i < |lines| ensures '\n' !in lines[i] {
      assert lines[i] == order[i] + ": " + ValueText(data[order[i]]);
    }
    SplitCharacterised(Render(order, data), lines, "");
  }

  /** Config rendering: in whatever order the map was visited, there is one line per key and cutting the
      lines at the first `": "` gives the map back, exactly when no value contains a newline. */
  lemma RenderRoundTrip(order: seq<string>, data: map<string, Value>)
    requires IsOrder(order, data.Keys) && CleanKeys(data.Keys)
    ensures ParseConfig(Render(order, data)) == Texts(data) <==> SingleLineValues(data)
    ensures SingleLineValues(data) ==> CompleteLines(Render(order, data)) == EntryLines(order, data)
    ensures |order| == |data|
  {
    hide CompleteLines, ParseLines, Render, EntryLines;
    OrderSize(order, data.Keys);
    if SingleLineValues(data) {
      RenderedLines(order, data);
      ParseEntries(order, data);
    } else {
      var text := Render(order, data);
      SplitNewlineFree(text);
      ParsedIsSingleLine(CompleteLines(text));
      var k :| k in data && '\n' in ValueText(data[k]);
      assert k in Texts(data) && '\n' in Texts(data)[k];
    }
  }

  lemma {:induction false} OrderSize(order: seq<string>, keys: set<string>)
    requires IsOrder(order, keys)
    ensures |order| == |keys|
    decreases |order|
  {
    if order == [] {
      assert keys == {};
    } else {
      var n := |order| - 1;
      var rest := keys - {order[n]};
      OrderSize(order[..n], rest);
    }
  }

  /** Two visits of the same map render the same entries, possibly in another order. */
  lemma {:induction false} SameEntries(a: seq<string>, b: seq<string>, data: map<string, Value>, keys: set<string>)
    requires IsOrder(a, keys) && IsOrder(b, keys) && keys <= data.Keys
    ensures multiset(EntryLines(a, data)) == multiset(EntryLines(b, data))
    decreases |a|
  {
    if a == [] {
      OrderSize(a, keys);
      OrderSize(b, keys);
    } else {
      var n := |a| - 1;
      var k := a[n];
      var i :| 0 <= i < |b| && b[i] == k;
      var b' := b[..i] + b[i + 1..];
      assert a == a[..n] + [k];
      OrderWithout(a, n, keys);
      OrderWithout(b, i, keys);
      assert a[..n] + a[n + 1..] == a[..n];
      SameEntries(a[..n], b', data, keys - {k});
      EntryOut(a, n, data);
      EntryOut(b, i, data);
    }
  }

  lemma OrderWithout(order: seq<string>, i: nat, keys: set<string>)
    requires IsOrder(order, keys) && i < |order|
    ensures IsOrder(order[..i] + order[i + 1..], keys - {order[i]})
  {
    var rest := order[..i] + order[i + 1..];
    assert forall j :: 0 <= j < |rest| ==> rest[j] == order[if j < i then j else j + 1];
    forall k | k in keys - {order[i]} ensures k in rest {
      var j :| 0 <= j < |order| && order[j] == k;
      assert rest[if j < i then j else j - 1] == k;
    }
  }

  lemma EntryOut(order: seq<string>, i: nat, data: map<string, Value>)
    requires i < |order| && forall j :: 0 <= j < |order| ==> order[j] in data
    ensures var rest := order[..i] + order[i + 1..];
            && (forall j :: 0 <= j < |rest| ==> rest[j] in data)
            && multiset(EntryLines(order, data)) ==
               multiset(EntryLines(rest, data)) + multiset{Entry(order[i], data[order[i]])}
  {
    hide Entry;
    var rest := order[..i] + order[i + 1..];
    assert forall j :: 0 <= j < |rest| ==> rest[j] == order[if j < i then j else j + 1];
    var lines, e := EntryLines(order, data), Entry(order[i], data[order[i]]);
    assert EntryLines(rest, data) == lines[..i] + lines[i + 1..];
    assert lines == lines[..i] + [e] + lines[i + 1..];
  }

  // ----- The desired objects -----

  function FirstFilePath(sources: seq<LogSource>): (r: Option<string>)
    ensures r.None? <==> forall i :: 0 <= i < |sources| ==> !UsableFile(sources[i])
    ensures r.Some? ==> exists i :: 0 <= i < |sources| && UsableFile(sources[i]) && r.value == sources[i].path
                                    && forall j :: 0 <= j < i ==> !UsableFile(sources[j])
  {
    if sources == [] then None
    else if UsableFile(sources[0]) then Some(sources[0].path)
    else
      var r := FirstFilePath(sources[1..]);
      assert r.Some? ==>
               exists i :: 0 <= i < |sources| - 1 && UsableFile(sources[1..][i]) && r.value == sources[1..][i].path
                           && forall j :: 0 <= j < i ==> !UsableFile(sources[1..][j]);
      r
  }

  predicate UsableFile(source: LogSource) {
    source.kind == "file" && source.path != ""
  }

  /** The configuration handed to the agents. */
  function ConfigData(spec: AgentSpec): (data: map<string, Value>)
    requires spec.batchSize.Some?
    ensures CleanKeys(data.Keys)
    ensures data.Keys == {"server_url", "batch_size", "flush_interval"}
                         + (if FirstFilePath(spec.logSources).Some? then {"log_path"} else {})
    ensures data["server_url"] == Text(spec.serverURL) && data["flush_interval"] == Text(spec.flushInterval)
    ensures data["batch_size"] == Number(spec.batchSize.value)
    ensures "log_path" in data ==> data["log_path"] == Text(FirstFilePath(spec.logSources).value)
  {
    var base := map["server_url" := Text(spec.serverURL),
                    "batch_size" := Number(spec.batchSize.value),
                    "flush_interval" := Text(spec.flushInterval)];
    match FirstFilePath(spec.logSources)
    case None => base
    case Some(path) => base["log_path" := Text(path)]
  }

  predicate SpecSingleLine(spec: AgentSpec) {
    && '\n' !in spec.serverURL && '\n' !in spec.flushInterval
    && (FirstFilePath(spec.logSources).Some? ==> '\n' !in FirstFilePath(spec.logSources).value)
  }

  lemma {:induction false} DigitsSingleLine(n: nat)
    ensures '\n' !in Digits(n)
  {
    assert forall i :: 0 <= i < 10 ==> "0123456789"[i] != '\n';
    if n >= 10 {
      DigitsSingleLine(n / 10);
    }
  }

  /** The agent configuration survives rendering, in any order, exactly when its texts have one line. */
  lemma ConfigRoundTrip(spec: AgentSpec, order: seq<string>)
    requires spec.batchSize.Some? && IsOrder(order, ConfigData(spec).Keys)
    ensures ParseConfig(Render(order, ConfigData(spec))) == Texts(ConfigData(spec)) <==> SpecSingleLine(spec)
  {
    hide Render, ParseConfig;
    RenderRoundTrip(order, ConfigData(spec));
    ConfigSingleLine(spec);
  }

  lemma ConfigSingleLine(spec: AgentSpec)
    requires spec.batchSize.Some?
    ensures SingleLineValues(ConfigData(spec)) <==> SpecSingleLine(spec)
  {
    var data, n := ConfigData(spec), spec.batchSize.value;
    DigitsSingleLine(if n < 0 then -n else n);
    assert '\n' !in ValueText(data["batch_size"]);
    assert ValueText(data["server_url"]) == spec.serverURL && ValueText(data["flush_interval"]) == spec.flushInterval;
    assert "log_path" in data ==> ValueText(data["log_path"]) == FirstFilePath(spec.logSources).value;
  }

  // ----- What an agent reads from its configuration -----

  function DigitValue(c: char): int {
    c as int - '0' as int
  }

  predicate IsDigits(s: string) {
    s != "" && forall i :: 0 <= i < |s| ==> '0' <= s[i] <= '9'
  }

  /** The number that decimal digits denote, digit by digit from the left. */
  function NumberOf(s: string): int {
    if s == "" then 0 else 10 * NumberOf(s[..|s| - 1]) + DigitValue(s[|s| - 1])
  }

  function SignedNumberOf(s: string): int {
    if s != "" && s[0] == '-' then -NumberOf(s[1..]) else NumberOf(s)
  }

  lemma {:induction false} DigitsDenote(n: nat)
    ensures IsDigits(Digits(n)) && NumberOf(Digits(n)) == n
    ensures n > 0 ==> Digits(n)[0] != '0'
  {
    var s := Digits(n);
    DigitsAre();
    if n >= 10 {
      DigitsDenote(n / 10);
      assert s[..|s| - 1] == Digits(n / 10);
    } else {
      assert s[..0] == "";
      assert NumberOf(s[..0]) == 0;
    }
  }

  lemma DigitsAre()
    ensures forall d :: 0 <= d < 10 ==> '0' <= "0123456789"[d] <= '9' && DigitValue("0123456789"[d]) == d
  {
  }

  /** Decimal notation: the digits, and a sign if need be, denote the number. */
  lemma DecimalDenotes(n: int)
    ensures SignedNumberOf(Decimal(n)) == n
    ensures IsDigits(if n < 0 then Decimal(n)[1..] else Decimal(n)) && (n < 0 ==> Decimal(n)[0] == '-')
  {
    DigitsDenote(if n < 0 then -n else n);
    hide Digits, NumberOf;
    if n < 0 {
      assert Decimal(n)[1..] == Digits(-n);
    } else {
      assert Decimal(n) == Digits(n) && Digits(n)[0] != '-';
    }
  }

  /** What an agent finds when it reads its configuration: the server, the flush interval and the batch size of
      the spec and, if the spec names a file, the first one; and nothing else. */
  predicate ReadsAs(found: map<string, string>, spec: AgentSpec)
    requires spec.batchSize.Some?
  {
    && found.Keys == {"server_url", "batch_size", "flush_interval"}
                     + (if FirstFilePath(spec.logSources).Some? then {"log_path"} else {})
    && found["server_url"] == spec.serverURL
    && found["flush_interval"] == spec.flushInterval
    && SignedNumberOf(found["batch_size"]) == spec.batchSize.value
    && ("log_path" in found ==> found["log_path"] == FirstFilePath(spec.logSources).value)
  }

  /** Reading a rendered configuration gives back the spec's own values, exactly when they have one line. */
  lemma ConfigReadsBack(spec: AgentSpec, order: seq<string>)
    requires spec.batchSize.Some? && IsOrder(order, ConfigData(spec).Keys)
    ensures ReadsAs(ParseConfig(Render(order, ConfigData(spec))), spec) <==> SpecSingleLine(spec)
  {
    hide Render, ParseConfig;
    var found := ParseConfig(Render(order, ConfigData(spec)));
    ConfigRoundTrip(spec, order);
    DecimalDenotes(spec.batchSize.value);
    if SpecSingleLine(spec) {
      var data := ConfigData(spec);
      assert found["server_url"] == ValueText(data["server_url"]);
      assert found["flush_interval"] == ValueText(data["flush_interval"]);
      assert found["batch_size"] == ValueText(data["batch_size"]);
      assert "log_path" in found ==> found["log_path"] == ValueText(data["log_path"]);
    } else {
      ParsedValues(Render(order, ConfigData(spec)));
    }
  }

  /** The lines themselves, for a spec without a file. */
  lemma RenderedLinesAre(spec: AgentSpec)
    requires spec.batchSize.Some? && FirstFilePath(spec.logSources).None?
    ensures IsOrder(["server_url", "batch_size", "flush_interval"], ConfigData(spec).Keys)
    ensures EntryLines(["server_url", "batch_size", "flush_interval"], ConfigData(spec)) ==
            ["server_url: " + spec.serverURL, "batch_size: " + Decimal(spec.batchSize.value),
             "flush_interval: " + spec.flushInterval]
  {
    hide Decimal;
    var data := ConfigData(spec);
    EntryIs("server_url", "server_url: ", data["server_url"]);
    EntryIs("batch_size", "batch_size: ", data["batch_size"]);
    EntryIs("flush_interval", "flush_interval: ", data["flush_interval"]);
    hide Entry;
  }

  lemma EntryIs(key: string, start: string, v: Value)
    requires start == key + ": "
    ensures Entry(key, v) == start + (match v case Text(t) => t case Number(n) => Decimal(n))
  {
  }

  lemma ParsedValues(text: string)
    ensures var found := ParseConfig(text); forall k :: k in found ==> '\n' !in found[k]
  {
    SplitNewlineFree(text);
    ParsedIsSingleLine(CompleteLines(text));
  }

  function ConfigMapWith(key: Key, text: string): ConfigMap {
    ConfigMap(Meta(ConfigMapKey(key), GetLabels(key), Some(key)), map[CONFIG_FILE := text])
  }

  /** `CreateConfigMap`: the first file source with a path supplies `log_path`. */
  method CreateConfigMap(agent: Agent) returns (cm: ConfigMap, ghost order: seq<string>)
    requires agent.spec.batchSize.Some?
    ensures IsOrder(order, ConfigData(agent.spec).Keys)
    ensures cm == ConfigMapWith(agent.key, Render(order, ConfigData(agent.spec)))
  {
    var data := map["server_url" := Text(agent.spec.serverURL),
                    "batch_size" := Number(agent.spec.batchSize.value),
                    "flush_interval" := Text(agent.spec.flushInterval)];
    var sources := agent.spec.logSources;
    var i := 0;
    while i < |sources|
      invariant i <= |sources| && FirstFilePath(sources[i..]) == FirstFilePath(sources)
      invariant "log_path" !in data
    {
      assert sources[i..][0] == sources[i] && sources[i..][1..] == sources[i + 1..];
      if UsableFile(sources[i]) {
        data := data["log_path" := Text(sources[i].path)];
        break;
      }
      i := i + 1;
    }
    var text;
    text, order := Yaml(data);
    cm := ConfigMapWith(agent.key, text);
  }

  /** The resource list names exactly the amounts that are given, and is absent when none is. */
  function AmountList(a: Amounts): (r: Option<map<string, string>>)
    ensures r.None? <==> a == Amounts("", "")
    ensures r.Some? ==>
              && r.value.Keys <= {"cpu", "memory"}
              && (if a.cpu == "" then "cpu" !in r.value else "cpu" in r.value && r.value["cpu"] == a.cpu)
              && (if a.memory == "" then "memory" !in r.value else "memory" in r.value && r.value["memory"] == a.memory)
  {
    if a.cpu == "" && a.memory == "" then None
    else Some((if a.cpu == "" then map[] else map["cpu" := a.cpu])
              + (if a.memory == "" then map[] else map["memory" := a.memory]))
  }

  function CreateStatefulSet(agent: Agent): StatefulSet {
    var spec, key := agent.spec, agent.key;
    var container := Container(COMPONENT, spec.image, spec.imagePullPolicy,
                               ["-config", "/app/config/" + CONFIG_FILE],
                               Requirements(AmountList(spec.limits), AmountList(spec.requests)));
    StatefulSet(
      Meta(StatefulSetKey(key), GetLabels(key), Some(key)),
      StatefulSetSpec(spec.replicas, GetLabels(key), ServiceKey(key).name,
                      PodTemplate(GetLabels(key), spec.serviceAccount, [container], ConfigMapKey(key).name, "/app/config")),
      0)
  }

  function CreateService(agent: Agent): Service {
    var key := agent.key;
    Service(Meta(ServiceKey(key), GetLabels(key), Some(key)), GetLabels(key),
            [Port("metrics", METRICS_PORT, METRICS_PORT, "TCP")], "")
  }

  /** The three objects of an agent fit together: its pods mount its ConfigMap and are told the file in it, its
      Service selects the pods of its StatefulSet, and all of them carry the agent's name and belong to it. */
  lemma ObjectsFit(agent: Agent, text: string)
    ensures var cm, ss, svc := ConfigMapWith(agent.key, text), CreateStatefulSet(agent), CreateService(agent);
            var pod := ss.spec.template;
            && cm.data == map["config.yaml" := text]
            && pod.configVolume == cm.meta.key.name == agent.key.name + "-config"
            && |pod.containers| == 1 && pod.containers[0].name == "tailpost-agent"
            && pod.containers[0].args == ["-config", pod.configMount + "/" + "config.yaml"]
            && pod.containers[0].image == agent.spec.image
            && pod.containers[0].pullPolicy == agent.spec.imagePullPolicy
            && pod.serviceAccount == agent.spec.serviceAccount && ss.spec.replicas == agent.spec.replicas
            && svc.selector == pod.labels == ss.spec.selector && ss.spec.serviceName == svc.meta.key.name
            && svc.ports == [Port("metrics", 8080, 8080, "TCP")]
            && ss.meta.key == svc.meta.key == agent.key && cm.meta.key.namespace == agent.key.namespace
            && cm.meta.owner == ss.meta.owner == svc.meta.owner == Some(agent.key)
            && cm.meta.labels == ss.meta.labels == svc.meta.labels == pod.labels
            && pod.labels == map["app.kubernetes.io/name" := "tailpost-agent",
                                 "app.kubernetes.io/instance" := agent.key.name,
                                 "app.kubernetes.io/managed-by" := "tailpost-operator"]
  {
    assert "/app/config" + "/" + "config.yaml" == "/app/config/" + CONFIG_FILE;
  }

  /** Kubernetes' label matching. */
  predicate Selects(selector: Labels, labels: Labels) {
    forall k :: k in selector ==> k in labels && labels[k] == selector[k]
  }

  /** Within a namespace, a Service selects the pods of its own agent and of no other. */
  lemma SelectorsTellApart(a: Agent, b: Agent)
    ensures Selects(CreateService(a).selector, CreateStatefulSet(b).spec.template.labels) <==> a.key.name == b.key.name
  {
    var k := "app.kubernetes.io/instance";
    assert CreateService(a).selector[k] == a.key.name && CreateStatefulSet(b).spec.template.labels[k] == b.key.name;
  }

  predicate ConfigMapNeedsUpdate(current: ConfigMap, desired: ConfigMap) {
    current.data != desired.data
  }

  /** Only replicas, image and resources are compared; the code indexes the first container. */
  predicate StatefulSetNeedsUpdate(current: StatefulSet, desired: StatefulSet)
    requires |current.spec.template.containers| > 0 && |desired.spec.template.containers| > 0
  {
    || current.spec.replicas != desired.spec.replicas
    || current.spec.template.containers[0].image != desired.spec.template.containers[0].image
    || current.spec.template.containers[0].resources != desired.spec.template.containers[0].resources
  }

  predicate ServiceNeedsUpdate(current: Service, desired: Service) {
    current.selector != desired.selector || current.ports != desired.ports
  }
}
