/**
 Which advertised services an alert's labels describe
 (apps/api/src/alerts/resolve-target.ts, packages/shared/src/service-identity.ts).
 */
module TargetResolution {
  import opened Wrappers

  // ---------- Target keys ----------

  datatype TargetKey = TargetKey(server: string, scope: string, name: string)

  predicate PlainPart(s: string) {
    s != "" && '/' !in s
  }

  // dockerServiceKey and kubernetesWorkloadKey print alike.
  function Print(k: TargetKey): string {
    k.server + "/" + k.scope + "/" + k.name
  }

  // String.split("/"): one segment more than there are slashes.
  function Split(s: string): (parts: seq<string>)
    ensures |parts| > 0
  {
    if s == "" then [""]
    else
      var rest := Split(s[1..]);
      if s[0] == '/' then [""] + rest else [[s[0]] + rest[0]] + rest[1..]
  }

  function Parse(target: string): Option<TargetKey> {
    var parts := Split(target);
    if |parts| > 3 then None
    else if |parts| < 3 || parts[0] == "" || parts[1] == "" || parts[2] == "" then None
    else Some(TargetKey(parts[0], parts[1], parts[2]))
  }

  lemma {:induction false} SplitPlain(s: string)
    requires '/' !in s
    ensures Split(s) == [s]
    decreases |s|
  {
    if s != "" {
      SplitPlain(s[1..]);
      assert [s[0]] + s[1..] == s;
    }
  }

  lemma {:induction false} SplitHead(s: string, rest: string)
    requires '/' !in s
    ensures Split(s + "/" + rest) == [s] + Split(rest)
    decreases |s|
  {
    var t := s + "/" + rest;
    if s == "" {
      assert t[1..] == rest;
    } else {
      assert t[1..] == s[1..] + "/" + rest && t[0] == s[0];
      SplitHead(s[1..], rest);
      assert [s[0]] + s[1..] == s;
    }
  }

  lemma {:induction false} PlainSegments(s: string)
    ensures forall i :: 0 <= i < |Split(s)| ==> '/' !in Split(s)[i]
    decreases |s|
  {
    if s != "" {
      PlainSegments(s[1..]);
    }
  }

  lemma {:induction false} OneSegment(s: string)
    requires |Split(s)| == 1
    ensures s == Split(s)[0]
    decreases |s|
  {
    if s != "" {
      OneSegment(s[1..]);
      assert s == [s[0]] + s[1..];
    }
  }

  // What is left after the first segment and its slash.
  lemma {:induction false} AfterFirst(s: string) returns (rest: string)
    requires |Split(s)| > 1
    ensures s == Split(s)[0] + "/" + rest && Split(rest) == Split(s)[1..]
    decreases |s|
  {
    assert s == [s[0]] + s[1..];
    var parts := Split(s[1..]);
    if s[0] == '/' {
      rest := s[1..];
    } else {
      rest := AfterFirst(s[1..]);
      assert [s[0]] + (parts[0] + "/" + rest) == ([s[0]] + parts[0]) + "/" + rest;
    }
  }

  predicate WellFormed(k: TargetKey) {
    PlainPart(k.server) && PlainPart(k.scope) && PlainPart(k.name)
  }

  lemma PrintSplits(k: TargetKey)
    requires WellFormed(k)
    ensures Split(Print(k)) == [k.server, k.scope, k.name] && Split(k.scope + "/" + k.name) == [k.scope, k.name]
  {
    assert Print(k) == k.server + "/" + (k.scope + "/" + k.name);
    SplitHead(k.server, k.scope + "/" + k.name);
    SplitHead(k.scope, k.name);
    SplitPlain(k.name);
  }

  lemma SplitsPrint(target: string)
    requires |Split(target)| == 3
    ensures var p := Split(target);
      target == Print(TargetKey(p[0], p[1], p[2])) && '/' !in p[0] && '/' !in p[1] && '/' !in p[2]
  {
    var p := Split(target);
    PlainSegments(target);
    var rest := AfterFirst(target);
    var last := AfterFirst(rest);
    OneSegment(last);
    assert last == p[2];
    assert target == p[0] + "/" + p[1] + "/" + p[2];
  }

  /** A key parses exactly when it is three plain parts printed, and then to those parts. */
  lemma ParseInvertsPrint(target: string, k: TargetKey)
    ensures Parse(target) == Some(k) <==> WellFormed(k) && target == Print(k)
  {
    if WellFormed(k) {
      PrintSplits(k);
    }
    if |Split(target)| == 3 {
      SplitsPrint(target);
    }
  }

  // ---------- Pod names ----------

  datatype WorkloadKind = Deployment | StatefulSet | DaemonSet

  const POD_SUFFIX_ALPHABET := "bcdfghjklmnpqrstvwxz2456789"
  const TEMPLATE_HASH_ALPHABET := "456789bcdf"

  predicate AllFrom(text: string, alphabet: string) {
    text != "" && forall i :: 0 <= i < |text| ==> text[i] in alphabet
  }

  predicate IsOrdinal(text: string) {
    AllFrom(text, "0123456789")
  }

  predicate IsPodSuffix(text: string) {
    |text| == 5 && AllFrom(text, POD_SUFFIX_ALPHABET)
  }

  predicate IsTemplateHash(text: string) {
    |text| <= 10 && AllFrom(text, TEMPLATE_HASH_ALPHABET)
  }

  // lastIndexOf("-"), with |text| for -1.
  function LastDash(text: string): (k: nat)
    ensures k <= |text|
  {
    if text == "" then 0
    else if text[|text| - 1] == '-' then |text| - 1
    else
      var k := LastDash(text[..|text| - 1]);
      if k == |text| - 1 then |text| else k
  }

  lemma {:induction false} LastDashIsADash(text: string)
    ensures LastDash(text) < |text| ==> text[LastDash(text)] == '-'
    decreases |text|
  {
    if text != "" {
      LastDashIsADash(text[..|text| - 1]);
    }
  }

  predicate PodBelongsToWorkload(pod: string, workload: string, kind: WorkloadKind) {
    var prefix := workload + "-";
    prefix <= pod
    && var remainder := pod[|prefix|..];
    match kind
    case StatefulSet => IsOrdinal(remainder)
    case DaemonSet => IsPodSuffix(remainder)
    case Deployment =>
      var split := LastDash(remainder);
      0 < split < |remainder| && IsTemplateHash(remainder[..split]) && IsPodSuffix(remainder[split + 1..])
  }

  // What each kind's controller names its pods.
  ghost predicate Generates(workload: string, kind: WorkloadKind, pod: string) {
    match kind
    case StatefulSet => exists ordinal :: IsOrdinal(ordinal) && pod == workload + "-" + ordinal
    case DaemonSet => exists suffix :: IsPodSuffix(suffix) && pod == workload + "-" + suffix
    case Deployment => exists hash, suffix ::
      IsTemplateHash(hash) && IsPodSuffix(suffix) && pod == workload + "-" + hash + "-" + suffix
  }

  lemma Dashless(text: string)
    ensures IsOrdinal(text) || IsPodSuffix(text) || IsTemplateHash(text) ==> '-' !in text
  {
  }

  lemma {:induction false} LastDashAt(front: string, back: string)
    requires '-' !in back
    ensures LastDash(front + "-" + back) == |front|
    decreases |back|
  {
    if back == "" {
      assert front + "-" + back == front + "-";
    } else {
      var n := |back| - 1;
      LastDashAt(front, back[..n]);
      assert (front + "-" + back)[..|front| + 1 + n] == front + "-" + back[..n];
      assert back[n] in back;
    }
  }

  // A name the rules accept is one the controller could have given.
  lemma AcceptedIsGenerated(pod: string, workload: string, kind: WorkloadKind)
    requires PodBelongsToWorkload(pod, workload, kind)
    ensures Generates(workload, kind, pod)
  {
    var prefix := workload + "-";
    var remainder := pod[|prefix|..];
    assert pod == workload + "-" + remainder;
    if kind == Deployment {
      var split := LastDash(remainder);
      LastDashIsADash(remainder);
      var (hash, suffix) := (remainder[..split], remainder[split + 1..]);
      assert remainder == hash + "-" + suffix;
      assert pod == workload + "-" + hash + "-" + suffix;
    }
  }

  lemma DeploymentNameIsAccepted(pod: string, workload: string, hash: string, suffix: string)
    requires IsTemplateHash(hash) && IsPodSuffix(suffix) && pod == workload + "-" + hash + "-" + suffix
    ensures PodBelongsToWorkload(pod, workload, Deployment)
  {
    var prefix, remainder := workload + "-", hash + "-" + suffix;
    assert pod == prefix + remainder && pod[|prefix|..] == remainder && prefix <= pod;
    Dashless(suffix);
    LastDashAt(hash, suffix);
    assert remainder[..|hash|] == hash && remainder[|hash| + 1..] == suffix;
  }

  /** A pod is accepted for a workload exactly when that workload's controller could have named it. */
  lemma BelongsIffGenerated(pod: string, workload: string, kind: WorkloadKind)
    ensures PodBelongsToWorkload(pod, workload, kind) <==> Generates(workload, kind, pod)
  {
    if PodBelongsToWorkload(pod, workload, kind) {
      AcceptedIsGenerated(pod, workload, kind);
    }
    if Generates(workload, kind, pod) {
      match kind
      case StatefulSet =>
        var ordinal :| IsOrdinal(ordinal) && pod == workload + "-" + ordinal;
        assert pod[|workload| + 1..] == ordinal;
      case DaemonSet =>
        var suffix :| IsPodSuffix(suffix) && pod == workload + "-" + suffix;
        assert pod[|workload| + 1..] == suffix;
      case Deployment =>
        var hash, suffix :|
          IsTemplateHash(hash) && IsPodSuffix(suffix) && pod == workload + "-" + hash + "-" + suffix;
        DeploymentNameIsAccepted(pod, workload, hash, suffix);
    }
  }

  lemma SameFront(front1: string, back1: string, front2: string, back2: string)
    requires '-' !in back1 && '-' !in back2 && front1 + "-" + back1 == front2 + "-" + back2
    ensures front1 == front2 && back1 == back2
  {
    LastDashAt(front1, back1);
    LastDashAt(front2, back2);
    assert front1 == (front1 + "-" + back1)[..|front1|] && back1 == (front1 + "-" + back1)[|front1| + 1..];
  }

  /** A pod name names at most one workload of each kind. */
  lemma OnePodOneWorkload(pod: string, w1: string, w2: string, kind: WorkloadKind)
    requires PodBelongsToWorkload(pod, w1, kind) && PodBelongsToWorkload(pod, w2, kind)
    ensures w1 == w2
  {
    BelongsIffGenerated(pod, w1, kind);
    BelongsIffGenerated(pod, w2, kind);
    match kind
    case StatefulSet =>
      var o1 :| IsOrdinal(o1) && pod == w1 + "-" + o1;
      var o2 :| IsOrdinal(o2) && pod == w2 + "-" + o2;
      SameFront(w1, o1, w2, o2);
    case DaemonSet =>
      var s1 :| IsPodSuffix(s1) && pod == w1 + "-" + s1;
      var s2 :| IsPodSuffix(s2) && pod == w2 + "-" + s2;
      SameFront(w1, s1, w2, s2);
    case Deployment =>
      var h1, s1 :| IsTemplateHash(h1) && IsPodSuffix(s1) && pod == w1 + "-" + h1 + "-" + s1;
      var h2, s2 :| IsTemplateHash(h2) && IsPodSuffix(s2) && pod == w2 + "-" + h2 + "-" + s2;
      SameFront(w1 + "-" + h1, s1, w2 + "-" + h2, s2);
      SameFront(w1, h1, w2, h2);
  }

  // ---------- Matching labels ----------

  type Labels = map<string, string>

  function First(labels: Labels, names: seq<string>): Option<string> {
    if names == [] then None
    else if names[0] in labels then Some(labels[names[0]])
    else First(labels, names[1..])
  }

  function ComposeLabel(labels: Labels, field: string): Option<string> {
    First(labels, ComposeNames(field))
  }

  datatype DockerEntry = DockerEntry(target: string, project: string, service: string)

  datatype KubernetesEntry = KubernetesEntry(target: string, namespace: string, workload: string, kind: WorkloadKind)

  datatype Runner = DockerRunner(docker: seq<DockerEntry>) | KubernetesRunner(kubernetes: seq<KubernetesEntry>)

  predicate DescribesDockerService(labels: Labels, e: DockerEntry) {
    if "namespace" in labels then false
    else
      var (project, service) := (ComposeLabel(labels, "project"), ComposeLabel(labels, "service"));
      if project.Some? && service.Some? then project.value == e.project && service.value == e.service
      else
        var live := First(labels, ["name", "container"]);
        live.Some? && live.value != "" && live.value == e.project && live.value == e.service
  }

  // The label under the first of these names that is there.
  ghost predicate Carries(labels: Labels, names: seq<string>, value: string) {
    exists i :: 0 <= i < |names| && names[i] in labels && labels[names[i]] == value
      && forall j :: 0 <= j < i ==> names[j] !in labels
  }

  // The names a Compose field goes under.
  function ComposeNames(field: string): seq<string> {
    ["com.docker.compose." + field, "compose_" + field, "container_label_com_docker_compose_" + field]
  }

  ghost predicate CarriesAny(labels: Labels, names: seq<string>) {
    exists i :: 0 <= i < |names| && names[i] in labels
  }

  lemma {:induction false} FirstMeans(labels: Labels, names: seq<string>)
    ensures First(labels, names).Some? <==> CarriesAny(labels, names)
    ensures forall value :: First(labels, names) == Some(value) <==> Carries(labels, names, value)
    decreases |names|
  {
    if names != [] {
      var rest := names[1..];
      FirstMeans(labels, rest);
      assert forall i :: 0 <= i < |rest| ==> rest[i] == names[i + 1];
      if names[0] !in labels {
        forall value
          ensures Carries(labels, names, value) <==> Carries(labels, rest, value)
        {
          if Carries(labels, rest, value) {
            var i :| 0 <= i < |rest| && rest[i] in labels && labels[rest[i]] == value && forall j :: 0 <= j < i ==> rest[j] !in labels;
            assert names[i + 1] in labels && labels[names[i + 1]] == value;
          }
          if Carries(labels, names, value) {
            var i :| 0 <= i < |names| && names[i] in labels && labels[names[i]] == value && forall j :: 0 <= j < i ==> names[j] !in labels;
            assert rest[i - 1] in labels;
            assert forall j :: 0 <= j < i - 1 ==> rest[j] == names[j + 1];
          }
        }
        if i :| 0 <= i < |names| && names[i] in labels {
          assert rest[i - 1] in labels;
        }
        if i :| 0 <= i < |rest| && rest[i] in labels {
          assert names[i + 1] in labels;
        }
      } else {
        assert Carries(labels, names, labels[names[0]]);
      }
    }
  }

  const PROJECT_LABELS := ["com.docker.compose.project", "compose_project", "container_label_com_docker_compose_project"]
  const SERVICE_LABELS := ["com.docker.compose.service", "compose_service", "container_label_com_docker_compose_service"]

  lemma ComposeLabelsAre()
    ensures ComposeNames("project") == PROJECT_LABELS && ComposeNames("service") == SERVICE_LABELS
  {
    assert "com.docker.compose." + "project" == PROJECT_LABELS[0];
    assert "compose_" + "project" == PROJECT_LABELS[1];
    assert "container_label_com_docker_compose_" + "project" == PROJECT_LABELS[2];
    assert "com.docker.compose." + "service" == SERVICE_LABELS[0];
    assert "compose_" + "service" == SERVICE_LABELS[1];
    assert "container_label_com_docker_compose_" + "service" == SERVICE_LABELS[2];
  }

  /** Labels without a namespace describe a Docker service by their two Compose labels where both are there, and
      otherwise by a container name that is both its project and its service; labels with one describe none. */
  lemma DockerDescribedIff(labels: Labels, e: DockerEntry)
    ensures DescribesDockerService(labels, e) <==>
      && "namespace" !in labels
      && (if CarriesAny(labels, PROJECT_LABELS) && CarriesAny(labels, SERVICE_LABELS) then
            Carries(labels, PROJECT_LABELS, e.project) && Carries(labels, SERVICE_LABELS, e.service)
          else
            e.project == e.service != "" && Carries(labels, ["name", "container"], e.project))
  {
    ComposeLabelsAre();
    FirstMeans(labels, PROJECT_LABELS);
    FirstMeans(labels, SERVICE_LABELS);
    FirstMeans(labels, ["name", "container"]);
  }

  /** Labels describe at most one Docker service, and none where they describe a workload. */
  lemma OneServiceDescribed(labels: Labels, e1: DockerEntry, e2: DockerEntry)
    requires DescribesDockerService(labels, e1) && DescribesDockerService(labels, e2)
    ensures e1.project == e2.project && e1.service == e2.service
    ensures forall w :: !DescribesK8sWorkload(labels, w)
  {
  }

  const WORKLOAD_LABELS: seq<(string, WorkloadKind)> :=
    [("deployment", Deployment), ("statefulset", StatefulSet), ("daemonset", DaemonSet)]

  // The first label that names a workload, and the kind it names.
  function Named(labels: Labels, candidates: seq<(string, WorkloadKind)>): Option<(string, WorkloadKind)> {
    if candidates == [] then None
    else if candidates[0].0 in labels then Some((labels[candidates[0].0], candidates[0].1))
    else Named(labels, candidates[1..])
  }

  predicate DescribesK8sWorkload(labels: Labels, e: KubernetesEntry) {
    "namespace" in labels && labels["namespace"] == e.namespace
    && match Named(labels, WORKLOAD_LABELS)
       case Some(named) => e.kind == named.1 && named.0 == e.workload
       case None => "pod" in labels && PodBelongsToWorkload(labels["pod"], e.workload, e.kind)
  }

  lemma NamedIs(labels: Labels)
    ensures Named(labels, WORKLOAD_LABELS) ==
      if "deployment" in labels then Some((labels["deployment"], Deployment))
      else if "statefulset" in labels then Some((labels["statefulset"], StatefulSet))
      else if "daemonset" in labels then Some((labels["daemonset"], DaemonSet))
      else None
  {
    var rest := WORKLOAD_LABELS[1..];
    var last := rest[1..];
    assert rest == [("statefulset", StatefulSet), ("daemonset", DaemonSet)] && last == [("daemonset", DaemonSet)];
    assert Named(labels, last[1..]) == None;
    assert Named(labels, last) == if "daemonset" in labels then Some((labels["daemonset"], DaemonSet)) else None;
    assert Named(labels, rest) == if "statefulset" in labels then Some((labels["statefulset"], StatefulSet)) else Named(labels, last);
  }

  /** Labels describe a workload of their namespace: the one the first of their deployment, statefulset and daemonset
      labels names, of that kind, and where none of those is there, any whose controller could have named their pod. */
  lemma K8sDescribedIff(labels: Labels, e: KubernetesEntry)
    ensures DescribesK8sWorkload(labels, e) <==>
      && "namespace" in labels && labels["namespace"] == e.namespace
      && if "deployment" in labels then e.kind == Deployment && labels["deployment"] == e.workload
         else if "statefulset" in labels then e.kind == StatefulSet && labels["statefulset"] == e.workload
         else if "daemonset" in labels then e.kind == DaemonSet && labels["daemonset"] == e.workload
         else "pod" in labels && Generates(e.workload, e.kind, labels["pod"])
  {
    NamedIs(labels);
    if "pod" in labels {
      BelongsIffGenerated(labels["pod"], e.workload, e.kind);
    }
  }

  /** Labels carrying a namespace describe at most one workload of each kind in it. */
  lemma OneWorkloadDescribed(labels: Labels, e1: KubernetesEntry, e2: KubernetesEntry)
    requires DescribesK8sWorkload(labels, e1) && DescribesK8sWorkload(labels, e2) && e1.kind == e2.kind
    ensures e1.namespace == e2.namespace && e1.workload == e2.workload
  {
    if Named(labels, WORKLOAD_LABELS).None? {
      OnePodOneWorkload(labels["pod"], e1.workload, e2.workload, e1.kind);
    }
  }

  // ---------- resolveAlertTarget ----------

  function DockerMatches(labels: Labels, entries: seq<DockerEntry>): seq<string> {
    if entries == [] then []
    else
      var last := entries[|entries| - 1];
      DockerMatches(labels, entries[..|entries| - 1])
      + (if DescribesDockerService(labels, last) then [last.target] else [])
  }

  function KubernetesMatches(labels: Labels, entries: seq<KubernetesEntry>): seq<string> {
    if entries == [] then []
    else
      var last := entries[|entries| - 1];
      KubernetesMatches(labels, entries[..|entries| - 1])
      + (if DescribesK8sWorkload(labels, last) then [last.target] else [])
  }

  function Matches(labels: Labels, runner: Runner): seq<string> {
    match runner
    case DockerRunner(entries) => DockerMatches(labels, entries)
    case KubernetesRunner(entries) => KubernetesMatches(labels, entries)
  }

  function AllMatches(labels: Labels, fleet: seq<Runner>): seq<string> {
    if fleet == [] then []
    else AllMatches(labels, fleet[..|fleet| - 1]) + Matches(labels, fleet[|fleet| - 1])
  }

  // A server of the fleet advertises the service under this key, and the labels describe it.
  ghost predicate Advertised(labels: Labels, fleet: seq<Runner>, key: string) {
    || (exists i, e :: 0 <= i < |fleet| && fleet[i].DockerRunner? && e in fleet[i].docker
          && DescribesDockerService(labels, e) && e.target == key)
    || (exists i, e :: 0 <= i < |fleet| && fleet[i].KubernetesRunner? && e in fleet[i].kubernetes
          && DescribesK8sWorkload(labels, e) && e.target == key)
  }

  lemma {:induction false} DockerMatchesMean(labels: Labels, entries: seq<DockerEntry>, key: string)
    ensures key in DockerMatches(labels, entries) <==>
      exists e :: e in entries && DescribesDockerService(labels, e) && e.target == key
    decreases |entries|
  {
    if entries != [] {
      DockerMatchesMean(labels, entries[..|entries| - 1], key);
      assert entries == entries[..|entries| - 1] + [entries[|entries| - 1]];
    }
  }

  lemma {:induction false} KubernetesMatchesMean(labels: Labels, entries: seq<KubernetesEntry>, key: string)
    ensures key in KubernetesMatches(labels, entries) <==>
      exists e :: e in entries && DescribesK8sWorkload(labels, e) && e.target == key
    decreases |entries|
  {
    if entries != [] {
      KubernetesMatchesMean(labels, entries[..|entries| - 1], key);
      assert entries == entries[..|entries| - 1] + [entries[|entries| - 1]];
    }
  }

  lemma MatchesMean(labels: Labels, runner: Runner, key: string)
    ensures key in Matches(labels, runner) <==> Advertised(labels, [runner], key)
  {
    match runner
    case DockerRunner(entries) =>
      DockerMatchesMean(labels, entries, key);
      assert [runner][0].docker == entries;
    case KubernetesRunner(entries) =>
      KubernetesMatchesMean(labels, entries, key);
      assert [runner][0].kubernetes == entries;
  }

  lemma AdvertisedSnoc(labels: Labels, fleet: seq<Runner>, runner: Runner, key: string)
    ensures Advertised(labels, fleet + [runner], key) <==> Advertised(labels, fleet, key) || Advertised(labels, [runner], key)
  {
    var all := fleet + [runner];
    assert all[|fleet|] == runner == [runner][0];
    assert forall i :: 0 <= i < |fleet| ==> all[i] == fleet[i];
  }

  /** The keys that match are exactly those a server advertises a described service under. */
  lemma {:induction false} AllMatchesMean(labels: Labels, fleet: seq<Runner>, key: string)
    ensures key in AllMatches(labels, fleet) <==> Advertised(labels, fleet, key)
    decreases |fleet|
  {
    if fleet != [] {
      var n := |fleet| - 1;
      AllMatchesMean(labels, fleet[..n], key);
      MatchesMean(labels, fleet[n], key);
      AdvertisedSnoc(labels, fleet[..n], fleet[n], key);
      assert fleet == fleet[..n] + [fleet[n]];
    }
  }

  function ServiceOf(key: string): string {
    match Parse(key)
    case Some(k) => k.scope + "/" + k.name
    case None => key
  }

  datatype Resolution = Resolved(keys: seq<string>) | Unresolved

  // Each key where it first stood: [...new Set(keys)].
  function Once(keys: seq<string>): seq<string> {
    if keys == [] then []
    else
      var before := Once(keys[..|keys| - 1]);
      if keys[|keys| - 1] in keys[..|keys| - 1] then before else before + [keys[|keys| - 1]]
  }

  // Some place of the list holds the one, with the other nowhere up to it.
  ghost predicate StandsBefore(keys: seq<string>, a: string, b: string) {
    exists i :: 0 <= i < |keys| && keys[i] == a && forall j :: 0 <= j <= i ==> keys[j] != b
  }

  lemma StandsBeforeStill(keys: seq<string>, more: seq<string>, a: string, b: string)
    requires keys <= more && StandsBefore(keys, a, b)
    ensures StandsBefore(more, a, b)
  {
    var i :| 0 <= i < |keys| && keys[i] == a && forall j :: 0 <= j <= i ==> keys[j] != b;
    assert more[i] == a && forall j :: 0 <= j <= i ==> more[j] == keys[j];
  }

  /** Each key once, in the order in which they first stood. */
  lemma {:induction false} OnceKeepsEach(keys: seq<string>)
    ensures forall k :: k in Once(keys) <==> k in keys
    ensures forall i, j :: 0 <= i < j < |Once(keys)| ==>
              Once(keys)[i] != Once(keys)[j] && StandsBefore(keys, Once(keys)[i], Once(keys)[j])
    decreases |keys|
  {
    if keys != [] {
      var n := |keys| - 1;
      var front, before, once := keys[..n], Once(keys[..n]), Once(keys);
      OnceKeepsEach(front);
      assert keys == front + [keys[n]];
      forall i, j | 0 <= i < j < |once|
        ensures once[i] != once[j] && StandsBefore(keys, once[i], once[j])
      {
        if j < |before| {
          StandsBeforeStill(front, keys, once[i], once[j]);
        } else {
          assert before[i] in front && keys[n] !in front;
          var k :| 0 <= k < n && front[k] == before[i];
          assert keys[k] == once[i] && forall m :: 0 <= m <= k ==> keys[m] in front;
        }
      }
    }
  }

  /** resolveAlertTarget: resolved exactly when something matched and all of it is one service, and then to
      each matching key once. */
  method ResolveAlertTarget(labels: Labels, fleet: seq<Runner>) returns (r: Resolution)
    ensures r.Resolved? <==>
      && (exists k :: Advertised(labels, fleet, k))
      && forall j, k :: Advertised(labels, fleet, j) && Advertised(labels, fleet, k) ==> ServiceOf(j) == ServiceOf(k)
    ensures r.Resolved? ==>
      && r.keys == Once(AllMatches(labels, fleet))
      && (forall k :: k in r.keys <==> Advertised(labels, fleet, k))
      && forall i, j :: 0 <= i < j < |r.keys| ==> r.keys[i] != r.keys[j]
  {
    var keys: seq<string> := [];
    for i := 0 to |fleet|
      invariant keys == AllMatches(labels, fleet[..i])
    {
      assert fleet[..i + 1][..i] == fleet[..i];
      keys := keys + Matches(labels, fleet[i]);
    }
    assert fleet[..|fleet|] == fleet;
    var services := set k | k in keys :: ServiceOf(k);
    OneService(keys, services);
    OnceKeepsEach(keys);
    forall k
      ensures k in keys <==> Advertised(labels, fleet, k)
    {
      AllMatchesMean(labels, fleet, k);
    }
    assert keys != [] ==> keys[0] in keys;
    return if |services| != 1 then Unresolved else Resolved(Once(keys));
  }

  lemma Singleton(s: set<string>, a: string, b: string)
    requires a in s && b in s
    ensures |s| == 1 ==> a == b
  {
    if |s| == 1 {
      assert |s - {a}| == 0;
    }
  }

  lemma OneService(keys: seq<string>, services: set<string>)
    requires services == set k | k in keys :: ServiceOf(k)
    ensures |services| == 1 <==> keys != [] && forall k :: k in keys ==> ServiceOf(k) == ServiceOf(keys[0])
  {
    if keys == [] {
      assert services == {};
    } else {
      var s := ServiceOf(keys[0]);
      assert keys[0] in keys && s in services;
      forall k | k in keys
        ensures |services| == 1 ==> ServiceOf(k) == s
      {
        Singleton(services, s, ServiceOf(k));
      }
      if forall k :: k in keys ==> ServiceOf(k) == s {
        assert services == {s};
      }
    }
  }

  /** Two well-formed keys are one service exactly when their scope and name agree, on whatever servers. */
  lemma SameServiceMeans(a: TargetKey, b: TargetKey)
    requires WellFormed(a) && WellFormed(b)
    ensures ServiceOf(Print(a)) == ServiceOf(Print(b)) <==> a.scope == b.scope && a.name == b.name
  {
    ParseInvertsPrint(Print(a), a);
    ParseInvertsPrint(Print(b), b);
    PrintSplits(a);
    PrintSplits(b);
    assert [a.scope, a.name] == [b.scope, b.name] ==> a.scope == b.scope && a.name == b.name by {
      assert [a.scope, a.name][0] == a.scope && [a.scope, a.name][1] == a.name;
    }
  }
}
