/** The admission webhook's injection: a shared volume, an init container, a mount and environment
    variables are added to a pod, once, without touching what the user set. */
module Injection {
  import opened Basics

  const ANNOTATION_INJECT: string := "nabiz.io/inject-dotnet"
  const ANNOTATION_SERVICE_NAME: string := "nabiz.io/service-name"
  const ANNOTATION_CONTAINER: string := "nabiz.io/container"
  const ANNOTATION_SAMPLE_RATIO: string := "nabiz.io/sample-ratio"
  const ANNOTATION_LIBC: string := "nabiz.io/libc"
  const ANNOTATION_INJECTED: string := "nabiz.io/injected"
  const VOLUME_NAME: string := "nabiz-dotnet-auto"
  const MOUNT_PATH: string := "/nabiz-auto"
  const INIT_CONTAINER: string := "nabiz-dotnet-init"

  datatype InjectConfig = InjectConfig(
    instrumentationImage: string,
    collectorEndpoint: string,
    clusterName: string,
    defaultSampleRatio: string)

  /** A literal, a reference to a field of the pod, or any other source a user may name. */
  datatype EnvValue = Literal(value: string) | FieldRef(path: string) | OtherSource(description: string)

  datatype EnvVar = EnvVar(name: string, value: EnvValue)

  datatype Mount = Mount(name: string, path: string)

  datatype VolumeSource = EmptyDir | OtherVolume(description: string)

  datatype Volume = Volume(name: string, source: VolumeSource)

  datatype Security = Unset | Restricted | Custom(description: string)

  datatype Container = Container(
    name: string,
    image: string,
    command: seq<string>,
    env: seq<EnvVar>,
    mounts: seq<Mount>,
    security: Security)

  datatype PodValue = PodValue(
    annotations: map<string, string>,
    labels: map<string, string>,
    generateName: string,
    containers: seq<Container>,
    initContainers: seq<Container>,
    volumes: seq<Volume>)

  datatype InjectError = NoContainers | UnknownContainer(name: string)

  datatype Outcome = Instrumented(container: string) | Rejected(error: InjectError)

  // ---- lookups ----

  /** A missing annotation reads as the empty string. */
  function At(m: map<string, string>, key: string): string {
    if key in m then m[key] else ""
  }

  function LowerChar(c: char): char {
    if 'A' <= c <= 'Z' then (c as int + 32) as char else c
  }

  function Lower(s: string): string {
    seq(|s|, i requires 0 <= i < |s| => LowerChar(s[i]))
  }

  predicate ShouldInject(p: PodValue) {
    && At(p.annotations, ANNOTATION_INJECTED) != "true"
    && Lower(At(p.annotations, ANNOTATION_INJECT)) in {"true", "dotnet", "yes", "1"}
  }

  /** Equality with "musl" under simple case folding: the long s folds to s. */
  predicate FoldsToMusl(s: string) {
    && |s| == 4
    && s[0] in {'m', 'M'} && s[1] in {'u', 'U'} && s[2] in {'s', 'S', '\U{017F}'} && s[3] in {'l', 'L'}
  }

  function InitScript(annotations: map<string, string>): string {
    "set -e; " + "cp -a /otel/. " + MOUNT_PATH + "/; "
    + "case \"$(uname -m)\" in aarch64|arm64) A=arm64;; *) A=x64;; esac; "
    + "ln -sfn " + MOUNT_PATH + "/linux-" + (if FoldsToMusl(At(annotations, ANNOTATION_LIBC)) then "musl-" else "")
    + "${A} " + MOUNT_PATH + "/native"
  }

  function InitContainerFor(p: PodValue, cfg: InjectConfig): Container {
    Container(INIT_CONTAINER, cfg.instrumentationImage, ["/bin/sh", "-c", InitScript(p.annotations)], [],
              [Mount(VOLUME_NAME, MOUNT_PATH)], Restricted)
  }

  function TrimDash(s: string): string {
    if s != "" && s[|s| - 1] == '-' then s[..|s| - 1] else s
  }

  function ServiceName(p: PodValue, target: Container): string {
    if At(p.annotations, ANNOTATION_SERVICE_NAME) != "" then At(p.annotations, ANNOTATION_SERVICE_NAME)
    else if At(p.labels, "app.kubernetes.io/name") != "" then At(p.labels, "app.kubernetes.io/name")
    else if At(p.labels, "app") != "" then At(p.labels, "app")
    else if p.generateName != "" then TrimDash(p.generateName)
    else target.name
  }

  function SampleRatio(p: PodValue, cfg: InjectConfig): string {
    if At(p.annotations, ANNOTATION_SAMPLE_RATIO) != "" then At(p.annotations, ANNOTATION_SAMPLE_RATIO)
    else cfg.defaultSampleRatio
  }

  function ResourceAttributes(target: Container, cfg: InjectConfig): string {
    "k8s.namespace.name=$(NABIZ_K8S_NAMESPACE)," + "k8s.pod.name=$(NABIZ_K8S_POD),"
    + "k8s.node.name=$(NABIZ_K8S_NODE)," + "k8s.container.name=" + target.name
    + if cfg.clusterName != "" then ",k8s.cluster.name=" + cfg.clusterName else ""
  }

  function InstrumentationEnv(p: PodValue, target: Container, cfg: InjectConfig): seq<EnvVar> {
    [EnvVar("NABIZ_K8S_NAMESPACE", FieldRef("metadata.namespace")),
     EnvVar("NABIZ_K8S_POD", FieldRef("metadata.name")),
     EnvVar("NABIZ_K8S_NODE", FieldRef("spec.nodeName")),
     EnvVar("CORECLR_ENABLE_PROFILING", Literal("1")),
     EnvVar("CORECLR_PROFILER", Literal("{918728DD-259F-4A6A-AC2B-B85E1B658318}")),
     EnvVar("CORECLR_PROFILER_PATH", Literal(MOUNT_PATH + "/native/OpenTelemetry.AutoInstrumentation.Native.so")),
     EnvVar("DOTNET_ADDITIONAL_DEPS", Literal(MOUNT_PATH + "/AdditionalDeps")),
     EnvVar("DOTNET_SHARED_STORE", Literal(MOUNT_PATH + "/store")),
     EnvVar("DOTNET_STARTUP_HOOKS", Literal(MOUNT_PATH + "/net/OpenTelemetry.AutoInstrumentation.StartupHook.dll")),
     EnvVar("OTEL_DOTNET_AUTO_HOME", Literal(MOUNT_PATH)),
     EnvVar("OTEL_EXPORTER_OTLP_ENDPOINT", Literal(cfg.collectorEndpoint)),
     EnvVar("OTEL_EXPORTER_OTLP_PROTOCOL", Literal("grpc")),
     EnvVar("OTEL_METRICS_EXPORTER", Literal("none")),
     EnvVar("OTEL_LOGS_EXPORTER", Literal("none")),
     EnvVar("OTEL_TRACES_SAMPLER", Literal("parentbased_traceidratio")),
     EnvVar("OTEL_TRACES_SAMPLER_ARG", Literal(SampleRatio(p, cfg))),
     EnvVar("OTEL_BSP_SCHEDULE_DELAY", Literal("2000")),
     EnvVar("OTEL_BSP_MAX_QUEUE_SIZE", Literal("8192")),
     EnvVar("OTEL_BSP_MAX_EXPORT_BATCH_SIZE", Literal("1024")),
     EnvVar("OTEL_SERVICE_NAME", Literal(ServiceName(p, target))),
     EnvVar("OTEL_RESOURCE_ATTRIBUTES", Literal(ResourceAttributes(target, cfg)))]
  }

  // ---- the effect of an injection ----

  /** The place of the first container with the name. */
  function IndexOf(cs: seq<Container>, name: string): Option<nat> {
    if cs == [] then None
    else if cs[0].name == name then Some(0)
    else match IndexOf(cs[1..], name) case None => None case Some(i) => Some(i + 1)
  }

  lemma {:induction false} IndexOfIsFirst(cs: seq<Container>, name: string)
    ensures IndexOf(cs, name).None? <==> forall i :: 0 <= i < |cs| ==> cs[i].name != name
    ensures IndexOf(cs, name).Some? ==>
              var i := IndexOf(cs, name).value;
              i < |cs| && cs[i].name == name && forall j :: 0 <= j < i ==> cs[j].name != name
  {
    if cs != [] && cs[0].name != name {
      IndexOfIsFirst(cs[1..], name);
      forall i | 0 <= i < |cs| ensures IndexOf(cs, name).None? ==> cs[i].name != name {
        assert i > 0 ==> cs[1..][i - 1] == cs[i];
      }
    }
  }

  /** The container to instrument: the first one, unless the annotation names another. */
  function Target(p: PodValue): Option<nat> {
    if p.containers == [] then None
    else if At(p.annotations, ANNOTATION_CONTAINER) == "" then Some(0)
    else IndexOf(p.containers, At(p.annotations, ANNOTATION_CONTAINER))
  }

  predicate HasVolume(vs: seq<Volume>, name: string) {
    exists i :: 0 <= i < |vs| && vs[i].name == name
  }

  predicate HasContainer(cs: seq<Container>, name: string) {
    exists i :: 0 <= i < |cs| && cs[i].name == name
  }

  predicate HasMount(ms: seq<Mount>, name: string) {
    exists i :: 0 <= i < |ms| && ms[i].name == name
  }

  predicate HasVar(env: seq<EnvVar>, name: string) {
    exists i :: 0 <= i < |env| && env[i].name == name
  }

  function WithVolume(vs: seq<Volume>): seq<Volume> {
    if HasVolume(vs, VOLUME_NAME) then vs else vs + [Volume(VOLUME_NAME, EmptyDir)]
  }

  function WithInit(cs: seq<Container>, init: Container): seq<Container> {
    if HasContainer(cs, INIT_CONTAINER) then cs else cs + [init]
  }

  function WithMount(ms: seq<Mount>, m: Mount): seq<Mount> {
    if HasMount(ms, m.name) then ms else ms + [m]
  }

  /** The variables of a list whose names another list lacks. */
  function Absent(existing: seq<EnvVar>, added: seq<EnvVar>): seq<EnvVar> {
    if added == [] then []
    else
      var rest, e := Absent(existing, added[..|added| - 1]), added[|added| - 1];
      if HasVar(existing, e.name) then rest else rest + [e]
  }

  function Merged(existing: seq<EnvVar>, added: seq<EnvVar>): seq<EnvVar> {
    existing + Absent(existing, added)
  }

  function Extended(c: Container, added: seq<EnvVar>): Container {
    c.(mounts := WithMount(c.mounts, Mount(VOLUME_NAME, MOUNT_PATH)), env := Merged(c.env, added))
  }

  /** The pod with the volume, the init container, and one container extended. */
  function Placed(p: PodValue, i: nat, init: Container, added: seq<EnvVar>): PodValue
    requires i < |p.containers|
  {
    p.(volumes := WithVolume(p.volumes),
       initContainers := WithInit(p.initContainers, init),
       containers := p.containers[i := Extended(p.containers[i], added)],
       annotations := p.annotations[ANNOTATION_INJECTED := "true"])
  }

  lemma TargetInRange(p: PodValue)
    ensures Target(p).Some? ==> Target(p).value < |p.containers|
  {
    IndexOfIsFirst(p.containers, At(p.annotations, ANNOTATION_CONTAINER));
  }

  function Injected(p: PodValue, cfg: InjectConfig): PodValue {
    if Target(p).None? then p
    else
      TargetInRange(p);
      var i := Target(p).value;
      Placed(p, i, InitContainerFor(p, cfg), InstrumentationEnv(p, p.containers[i], cfg))
  }

  function OutcomeOf(p: PodValue): Outcome {
    if p.containers == [] then Rejected(NoContainers)
    else if Target(p).None? then Rejected(UnknownContainer(At(p.annotations, ANNOTATION_CONTAINER)))
    else
      TargetInRange(p);
      Instrumented(p.containers[Target(p).value].name)
  }

  // ---- the user's settings win ----

  /** All values a list gives to a name, in order. */
  function Values(env: seq<EnvVar>, name: string): seq<EnvValue> {
    if env == [] then []
    else
      var rest, e := Values(env[..|env| - 1], name), env[|env| - 1];
      if e.name == name then rest + [e.value] else rest
  }

  lemma {:induction false} ValuesConcat(a: seq<EnvVar>, b: seq<EnvVar>, name: string)
    ensures Values(a + b, name) == Values(a, name) + Values(b, name)
  {
    if b == [] {
      assert a + b == a;
    } else {
      assert (a + b)[..|a + b| - 1] == a + b[..|b| - 1];
      ValuesConcat(a, b[..|b| - 1], name);
    }
  }

  lemma {:induction false} ValuesEmptyIff(env: seq<EnvVar>, name: string)
    ensures Values(env, name) == [] <==> !HasVar(env, name)
  {
    if env == [] {
    } else {
      var front, last := env[..|env| - 1], env[|env| - 1];
      ValuesEmptyIff(front, name);
      if HasVar(front, name) {
        var i :| 0 <= i < |front| && front[i].name == name;
        assert env[i].name == name;
      }
      if HasVar(env, name) && last.name != name {
        var i :| 0 <= i < |env| && env[i].name == name;
        assert front[i].name == name;
      }
    }
  }

  lemma {:induction false} AbsentValues(existing: seq<EnvVar>, added: seq<EnvVar>, name: string)
    ensures Values(Absent(existing, added), name) == if HasVar(existing, name) then [] else Values(added, name)
  {
    if added == [] {
    } else {
      AbsentValues(existing, added[..|added| - 1], name);
    }
  }

  /** A merge gives every name the values the user gave it; only names the user left out get the
      added ones. */
  lemma UserEnvWins(existing: seq<EnvVar>, added: seq<EnvVar>, name: string)
    ensures existing <= Merged(existing, added)
    ensures Values(Merged(existing, added), name)
            == if HasVar(existing, name) then Values(existing, name) else Values(added, name)
  {
    ValuesConcat(existing, Absent(existing, added), name);
    AbsentValues(existing, added, name);
    ValuesEmptyIff(existing, name);
  }

  /** What the application container finds: its own setting, or the derived service name. */
  lemma ServiceNameSeen(p: PodValue, cfg: InjectConfig, c: Container)
    ensures var seen := Values(Extended(c, InstrumentationEnv(p, c, cfg)).env, "OTEL_SERVICE_NAME");
            seen == if HasVar(c.env, "OTEL_SERVICE_NAME") then Values(c.env, "OTEL_SERVICE_NAME")
                    else [Literal(ServiceName(p, c))]
  {
    UserEnvWins(c.env, InstrumentationEnv(p, c, cfg), "OTEL_SERVICE_NAME");
    ServiceNameAdded(p, cfg, c);
  }

  lemma ServiceNameAdded(p: PodValue, cfg: InjectConfig, c: Container)
    ensures Values(InstrumentationEnv(p, c, cfg), "OTEL_SERVICE_NAME") == [Literal(ServiceName(p, c))]
  {
    var added := InstrumentationEnv(p, c, cfg);
    assert added[..20][..19] == added[..19] && added[..21] == added;
    forall i | 0 <= i < 19 ensures added[..19][i].name != "OTEL_SERVICE_NAME" {
      assert added[..19][i] == added[i];
    }
    NoSuchVar(added[..19], "OTEL_SERVICE_NAME");
    assert added[..20][19].name == "OTEL_SERVICE_NAME" && added[20].name == "OTEL_RESOURCE_ATTRIBUTES";
    assert Values(added[..20], "OTEL_SERVICE_NAME") == [] + [added[19].value];
  }

  lemma NoSuchVar(env: seq<EnvVar>, name: string)
    requires forall i :: 0 <= i < |env| ==> env[i].name != name
    ensures Values(env, name) == []
  {
    ValuesEmptyIff(env, name);
  }

  // ---- injecting twice ----

  lemma {:induction false} AbsentNothing(existing: seq<EnvVar>, added: seq<EnvVar>)
    requires forall i :: 0 <= i < |added| ==> HasVar(existing, added[i].name)
    ensures Absent(existing, added) == []
  {
    if added == [] {
    } else {
      AbsentNothing(existing, added[..|added| - 1]);
    }
  }

  lemma MergedHasAll(existing: seq<EnvVar>, added: seq<EnvVar>, i: nat)
    requires i < |added|
    ensures HasVar(Merged(existing, added), added[i].name)
  {
    var name := added[i].name;
    UserEnvWins(existing, added, name);
    ValuesEmptyIff(Merged(existing, added), name);
    ValuesEmptyIff(existing, name);
    ValuesEmptyIff(added, name);
  }

  /** Two lists name the same variables in the same order. */
  ghost predicate SameNames(a: seq<EnvVar>, b: seq<EnvVar>) {
    |a| == |b| && forall i :: 0 <= i < |a| ==> a[i].name == b[i].name
  }

  /** The names set by an instrumentation depend neither on the pod nor on the configuration. */
  lemma NamesAreFixed(p: PodValue, c: Container, cfg: InjectConfig, q: PodValue, d: Container, cfg': InjectConfig)
    ensures SameNames(InstrumentationEnv(p, c, cfg), InstrumentationEnv(q, d, cfg'))
  {
  }

  lemma ExtendTwice(c: Container, added: seq<EnvVar>, again: seq<EnvVar>)
    requires SameNames(added, again)
    ensures Extended(Extended(c, added), again) == Extended(c, added)
  {
    var d := Extended(c, added);
    forall i | 0 <= i < |again| ensures HasVar(d.env, again[i].name) {
      MergedHasAll(c.env, added, i);
    }
    AbsentNothing(d.env, again);
    MountIsThere(c.mounts);
  }

  lemma MountIsThere(ms: seq<Mount>)
    ensures HasMount(WithMount(ms, Mount(VOLUME_NAME, MOUNT_PATH)), VOLUME_NAME)
  {
    var out := WithMount(ms, Mount(VOLUME_NAME, MOUNT_PATH));
    assert out == ms || out[|ms|].name == VOLUME_NAME;
  }

  lemma VolumeIsThere(vs: seq<Volume>)
    ensures HasVolume(WithVolume(vs), VOLUME_NAME)
  {
    assert WithVolume(vs) == vs || WithVolume(vs)[|vs|].name == VOLUME_NAME;
  }

  lemma InitIsThere(cs: seq<Container>, init: Container)
    requires init.name == INIT_CONTAINER
    ensures HasContainer(WithInit(cs, init), INIT_CONTAINER)
  {
    assert WithInit(cs, init) == cs || WithInit(cs, init)[|cs|] == init;
  }

  lemma PlaceTwice(p: PodValue, i: nat, init: Container, added: seq<EnvVar>, init': Container, again: seq<EnvVar>)
    requires i < |p.containers| && init.name == INIT_CONTAINER && SameNames(added, again)
    ensures Placed(Placed(p, i, init, added), i, init', again) == Placed(p, i, init, added)
  {
    ExtendTwice(p.containers[i], added, again);
    VolumeIsThere(p.volumes);
    InitIsThere(p.initContainers, init);
    var q := Placed(p, i, init, added);
    assert q.containers[i := q.containers[i]] == q.containers;
  }

  lemma {:induction false} IndexOfSameNames(a: seq<Container>, b: seq<Container>, name: string)
    requires |a| == |b| && forall i :: 0 <= i < |a| ==> a[i].name == b[i].name
    ensures IndexOf(a, name) == IndexOf(b, name)
  {
    if a == [] {
    } else {
      IndexOfSameNames(a[1..], b[1..], name);
    }
  }

  lemma OtherAnnotation(m: map<string, string>)
    ensures At(m[ANNOTATION_INJECTED := "true"], ANNOTATION_CONTAINER) == At(m, ANNOTATION_CONTAINER)
  {
    assert ANNOTATION_CONTAINER != ANNOTATION_INJECTED;
  }

  lemma TargetStays(p: PodValue, i: nat, init: Container, added: seq<EnvVar>)
    requires i < |p.containers|
    ensures Target(Placed(p, i, init, added)) == Target(p)
  {
    OtherAnnotation(p.annotations);
    IndexOfSameNames(p.containers, Placed(p, i, init, added).containers, At(p.annotations, ANNOTATION_CONTAINER));
  }

  /** Injecting an injected pod changes nothing, even under another configuration. */
  lemma InjectIsIdempotent(p: PodValue, cfg: InjectConfig, cfg': InjectConfig)
    ensures Injected(Injected(p, cfg), cfg') == Injected(p, cfg)
    ensures Target(Injected(p, cfg)) == Target(p)
  {
    if Target(p).Some? {
      TargetInRange(p);
      var i := Target(p).value;
      var q := Injected(p, cfg);
      var init, added := InitContainerFor(p, cfg), InstrumentationEnv(p, p.containers[i], cfg);
      assert q == Placed(p, i, init, added);
      TargetStays(p, i, init, added);
      NamesAreFixed(p, p.containers[i], cfg, q, q.containers[i], cfg');
      PlaceTwice(p, i, init, added, InitContainerFor(q, cfg'), InstrumentationEnv(q, q.containers[i], cfg'));
    }
  }

  // ---- what stays untouched ----

  /** An injection changes one container, and of that only mounts and environment, which it extends;
      images, names, commands and the other containers stay as they were. */
  ghost predicate ContainerFramed(c: Container, d: Container, chosen: bool) {
    && (!chosen ==> d == c)
    && d == c.(env := d.env, mounts := d.mounts)
    && c.env <= d.env && c.mounts <= d.mounts
  }

  /** Around the containers at most one volume, one init container and the mark are added. */
  ghost predicate ShellFramed(p: PodValue, q: PodValue) {
    && |q.containers| == |p.containers|
    && q.labels == p.labels && q.generateName == p.generateName
    && p.initContainers <= q.initContainers && |q.initContainers| <= |p.initContainers| + 1
    && p.volumes <= q.volumes && |q.volumes| <= |p.volumes| + 1
    && q.annotations - {ANNOTATION_INJECTED} == p.annotations - {ANNOTATION_INJECTED}
  }

  lemma MarkOnly(m: map<string, string>, key: string, value: string)
    ensures m[key := value] - {key} == m - {key}
  {
  }

  lemma PlacedIsFramed(p: PodValue, i: nat, init: Container, added: seq<EnvVar>, j: nat)
    requires i < |p.containers| && j < |p.containers|
    ensures ShellFramed(p, Placed(p, i, init, added))
    ensures ContainerFramed(p.containers[j], Placed(p, i, init, added).containers[j], i == j)
  {
    MarkOnly(p.annotations, ANNOTATION_INJECTED, "true");
  }

  lemma InjectionIsFramed(p: PodValue, cfg: InjectConfig, j: nat)
    requires j < |p.containers|
    ensures ShellFramed(p, Injected(p, cfg))
    ensures ContainerFramed(p.containers[j], Injected(p, cfg).containers[j], Target(p) == Some(j))
  {
    if Target(p).Some? {
      TargetInRange(p);
      var i := Target(p).value;
      PlacedIsFramed(p, i, InitContainerFor(p, cfg), InstrumentationEnv(p, p.containers[i], cfg), j);
    }
  }

  /** An injected pod asks for no further injection and can find what its container mounts. */
  ghost predicate Equipped(q: PodValue, i: nat) {
    && !ShouldInject(q)
    && HasVolume(q.volumes, VOLUME_NAME)
    && HasContainer(q.initContainers, INIT_CONTAINER)
    && i < |q.containers| && HasMount(q.containers[i].mounts, VOLUME_NAME)
  }

  lemma PlacedIsEquipped(p: PodValue, i: nat, init: Container, added: seq<EnvVar>)
    requires i < |p.containers| && init.name == INIT_CONTAINER
    ensures Equipped(Placed(p, i, init, added), i)
  {
    VolumeIsThere(p.volumes);
    InitIsThere(p.initContainers, init);
    MountIsThere(p.containers[i].mounts);
  }

  lemma InjectedIsEquipped(p: PodValue, cfg: InjectConfig)
    requires Target(p).Some?
    ensures Equipped(Injected(p, cfg), Target(p).value)
  {
    TargetInRange(p);
    var i := Target(p).value;
    PlacedIsEquipped(p, i, InitContainerFor(p, cfg), InstrumentationEnv(p, p.containers[i], cfg));
  }

  // ---- the pod as the source changes it ----

  method MergeEnv(existing: seq<EnvVar>, added: seq<EnvVar>) returns (merged: seq<EnvVar>)
    ensures merged == Merged(existing, added)
  {
    var present: set<string> := {};
    var n := 0;
    while n < |existing|
      invariant n <= |existing|
      invariant forall x: string :: x in present <==> HasVar(existing[..n], x)
    {
      HasVarSnoc(existing, n);
      present := present + {existing[n].name};
      n := n + 1;
    }
    assert existing[..n] == existing;
    merged := existing;
    n := 0;
    while n < |added|
      invariant n <= |added| && merged == existing + Absent(existing, added[..n])
    {
      assert added[..n + 1][..n] == added[..n];
      if added[n].name !in present {
        merged := merged + [added[n]];
      }
      n := n + 1;
    }
    assert added[..n] == added;
  }

  lemma HasVarSnoc(env: seq<EnvVar>, n: nat)
    requires n < |env|
    ensures forall x: string :: HasVar(env[..n + 1], x) <==> HasVar(env[..n], x) || x == env[n].name
  {
    forall x: string ensures HasVar(env[..n + 1], x) <==> HasVar(env[..n], x) || x == env[n].name {
      if HasVar(env[..n], x) {
        var i :| 0 <= i < n && env[..n][i].name == x;
        assert env[..n + 1][i].name == x;
      }
      assert env[..n + 1][n] == env[n];
      if HasVar(env[..n + 1], x) {
        var i :| 0 <= i < n + 1 && env[..n + 1][i].name == x;
        assert i < n ==> env[..n][i].name == x;
      }
    }
  }

  method AppendVolumeMount(mounts: seq<Mount>, m: Mount) returns (out: seq<Mount>)
    ensures out == WithMount(mounts, m)
  {
    var i := 0;
    while i < |mounts|
      invariant i <= |mounts| && forall j :: 0 <= j < i ==> mounts[j].name != m.name
    {
      if mounts[i].name == m.name {
        return mounts;
      }
      i := i + 1;
    }
    out := mounts + [m];
  }

  class Pod {
    var annotations: map<string, string>
    var labels: map<string, string>
    var generateName: string
    var containers: seq<Container>
    var initContainers: seq<Container>
    var volumes: seq<Volume>

    ghost function Value(): PodValue
      reads this
    {
      PodValue(annotations, labels, generateName, containers, initContainers, volumes)
    }

    constructor (p: PodValue)
      ensures Value() == p
    {
      annotations, labels, generateName := p.annotations, p.labels, p.generateName;
      containers, initContainers, volumes := p.containers, p.initContainers, p.volumes;
    }

    method TargetContainer() returns (idx: Option<nat>)
      requires containers != []
      ensures idx == Target(Value())
    {
      var name := At(annotations, ANNOTATION_CONTAINER);
      if name == "" {
        return Some(0);
      }
      IndexOfIsFirst(containers, name);
      var i := 0;
      while i < |containers|
        invariant i <= |containers| && forall j :: 0 <= j < i ==> containers[j].name != name
      {
        if containers[i].name == name {
          return Some(i);
        }
        i := i + 1;
      }
      return None;
    }

    method AddVolume()
      modifies this`volumes
      ensures volumes == WithVolume(old(volumes))
    {
      var i := 0;
      while i < |volumes|
        invariant i <= |volumes| && volumes == old(volumes) && forall j :: 0 <= j < i ==> volumes[j].name != VOLUME_NAME
      {
        if volumes[i].name == VOLUME_NAME {
          return;
        }
        i := i + 1;
      }
      volumes := volumes + [Volume(VOLUME_NAME, EmptyDir)];
    }

    method AddInitContainer(cfg: InjectConfig)
      modifies this`initContainers
      ensures initContainers == WithInit(old(initContainers), InitContainerFor(old(Value()), cfg))
    {
      var i := 0;
      while i < |initContainers|
        invariant i <= |initContainers| && initContainers == old(initContainers)
        invariant forall j :: 0 <= j < i ==> initContainers[j].name != INIT_CONTAINER
      {
        if initContainers[i].name == INIT_CONTAINER {
          return;
        }
        i := i + 1;
      }
      initContainers := initContainers
        + [Container(INIT_CONTAINER, cfg.instrumentationImage, ["/bin/sh", "-c", InitScript(annotations)], [],
                     [Mount(VOLUME_NAME, MOUNT_PATH)], Restricted)];
    }

    /** Instruments the pod in place; a pod it rejects stays as it was. */
    method Inject(cfg: InjectConfig) returns (outcome: Outcome)
      modifies this
      ensures outcome == OutcomeOf(old(Value()))
      ensures Value() == Injected(old(Value()), cfg)
      ensures outcome.Rejected? ==> Value() == old(Value())
    {
      if |containers| == 0 {
        return Rejected(NoContainers);
      }
      var idx := TargetContainer();
      if idx == None {
        return Rejected(UnknownContainer(At(annotations, ANNOTATION_CONTAINER)));
      }
      TargetInRange(Value());
      outcome := Instrumented(containers[idx.value].name);
      Instrument(idx.value, cfg);
    }

    method Instrument(i: nat, cfg: InjectConfig)
      requires i < |containers|
      modifies this
      ensures var p := old(Value());
              Value() == Placed(p, i, InitContainerFor(p, cfg), InstrumentationEnv(p, p.containers[i], cfg))
    {
      AddVolume();
      AddInitContainer(cfg);
      var target := containers[i];
      var mounts := AppendVolumeMount(target.mounts, Mount(VOLUME_NAME, MOUNT_PATH));
      var pod := PodValue(annotations, labels, generateName, containers, initContainers, volumes);
      SameEnv(pod, old(Value()), target, cfg);
      var env := MergeEnv(target.env, InstrumentationEnv(pod, target, cfg));
      containers := containers[i := target.(mounts := mounts, env := env)];
      annotations := annotations[ANNOTATION_INJECTED := "true"];
    }
  }

  /** The variables depend on the annotations, the labels and the generated name only. */
  lemma SameEnv(p: PodValue, q: PodValue, c: Container, cfg: InjectConfig)
    requires p.annotations == q.annotations && p.labels == q.labels && p.generateName == q.generateName
    ensures InstrumentationEnv(p, c, cfg) == InstrumentationEnv(q, c, cfg)
  {
  }
}
