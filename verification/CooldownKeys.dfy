/**
  Cooldown keys: `policy-ns/policy-name/object-ns/object-identifier`, where pods of a
  Job or CronJob are identified by their owner.
 */
module CooldownKeys {
  import opened Basics
  import opened Text

  // ---------------------------------------------------------------- CronJob pod names

  predicate AllDigits(s: string) {
    forall i | 0 <= i < |s| :: '0' <= s[i] <= '9'
  }

  /** The CronJob name inside a pod name of the form name-timestamp-suffix. */
  function ParseCronJobName(pod: string): Option<string> {
    var segments := Split(pod, '-');
    if |segments| < 3 then None
    else
      var timestamp := segments[|segments| - 2];
      var suffix := segments[|segments| - 1];
      var name := Join(segments[..|segments| - 2], '-');
      if |timestamp| == 0 || !AllDigits(timestamp) then None
      else if |suffix| == 0 then None
      else if |name| == 0 then None
      else Some(name)
  }

  ghost predicate PodNameParts(pod: string, name: string, timestamp: string, suffix: string) {
    && pod == name + "-" + timestamp + "-" + suffix
    && name != "" && timestamp != "" && suffix != ""
    && (forall i | 0 <= i < |timestamp| :: '0' <= timestamp[i] <= '9') && '-' !in suffix
  }

  /** `pod` is a pod name that the CronJob `name` could have produced. */
  ghost predicate CronJobPodName(pod: string, name: string) {
    exists timestamp, suffix :: PodNameParts(pod, name, timestamp, suffix)
  }

  lemma SplitCronJobPodName(name: string, timestamp: string, suffix: string)
    requires '-' !in timestamp && '-' !in suffix
    ensures Split(name + "-" + timestamp + "-" + suffix, '-') == Split(name, '-') + [timestamp, suffix]
  {
    Regroup(name, timestamp, suffix);
    SplitConcat(name, '-', timestamp + ['-'] + suffix);
    SplitConcat(timestamp, '-', suffix);
  }

  lemma JoinTwo(a: string, b: string)
    ensures Join([a, b], '-') == a + ['-'] + b
  {
    assert [a, b][1..] == [b];
  }

  lemma Regroup(name: string, timestamp: string, suffix: string)
    ensures name + ['-'] + (timestamp + ['-'] + suffix) == name + "-" + timestamp + "-" + suffix
  {
  }

  lemma JoinCronJobPodName(front: seq<string>, timestamp: string, suffix: string)
    requires |front| >= 1
    ensures Join(front + [timestamp, suffix], '-') == Join(front, '-') + "-" + timestamp + "-" + suffix
  {
    JoinTwo(timestamp, suffix);
    calc {
      Join(front + [timestamp, suffix], '-');
      { JoinConcat(front, [timestamp, suffix], '-'); }
      Join(front, '-') + ['-'] + Join([timestamp, suffix], '-');
      Join(front, '-') + ['-'] + (timestamp + ['-'] + suffix);
      { Regroup(Join(front, '-'), timestamp, suffix); }
      Join(front, '-') + "-" + timestamp + "-" + suffix;
    }
  }

  lemma ParsedPodNameParts(pod: string, name: string)
    requires ParseCronJobName(pod) == Some(name)
    ensures CronJobPodName(pod, name)
  {
    var segments := Split(pod, '-');
    var n := |segments|;
    JoinSplit(pod, '-');
    assert segments == segments[..n - 2] + [segments[n - 2], segments[n - 1]];
    JoinCronJobPodName(segments[..n - 2], segments[n - 2], segments[n - 1]);
    assert segments[n - 1] in segments;
    assert PodNameParts(pod, name, segments[n - 2], segments[n - 1]);
  }

  lemma PartsParse(pod: string, name: string, timestamp: string, suffix: string)
    requires PodNameParts(pod, name, timestamp, suffix)
    ensures ParseCronJobName(pod) == Some(name)
  {
    var segments := Split(pod, '-');
    SplitCronJobPodName(name, timestamp, suffix);
    assert segments[..|segments| - 2] == Split(name, '-');
    JoinSplit(name, '-');
  }

  /** Parsing succeeds exactly on name-digits-suffix and returns that name, dashes included. */
  lemma ParseCronJobNameExact(pod: string, name: string)
    ensures ParseCronJobName(pod) == Some(name) <==> CronJobPodName(pod, name)
  {
    if ParseCronJobName(pod) == Some(name) {
      ParsedPodNameParts(pod, name);
    }
    if CronJobPodName(pod, name) {
      var timestamp, suffix :| PodNameParts(pod, name, timestamp, suffix);
      PartsParse(pod, name, timestamp, suffix);
    }
  }

  // ---------------------------------------------------------------- owner resolution

  datatype OwnerRef = OwnerRef(kind: string, name: string)
  datatype ObjectRef = ObjectRef(kind: string, ns: string, name: string)
  datatype ObjectKey = ObjectKey(ns: string, name: string)

  /** What the API server answers for a present object; an absent key means NotFound. */
  datatype Lookup = Found(owners: seq<OwnerRef>) | Unavailable

  /** The API server as seen during one reconcile. */
  datatype Cluster = Cluster(pods: map<ObjectKey, Lookup>, jobs: map<ObjectKey, Lookup>)

  datatype Owner = Owner(kind: string, name: string)

  /** The name of the first owner of the given kind. */
  function FirstOwner(owners: seq<OwnerRef>, kind: string): Option<string> {
    if |owners| == 0 then None
    else if owners[0].kind == kind then Some(owners[0].name)
    else FirstOwner(owners[1..], kind)
  }

  function ResolveOwner(cluster: Cluster, obj: ObjectRef): Owner {
    var podKey := ObjectKey(obj.ns, obj.name);
    if obj.kind != "Pod" then Owner("", obj.name)
    else if podKey !in cluster.pods then
      match ParseCronJobName(obj.name)
      case Some(parsed) => Owner("cronjob", parsed)
      case None => Owner("", obj.name)
    else if cluster.pods[podKey].Unavailable? then Owner("", obj.name)
    else match FirstOwner(cluster.pods[podKey].owners, "Job")
      case None => Owner("", obj.name)
      case Some(job) =>
        var jobKey := ObjectKey(obj.ns, job);
        if jobKey !in cluster.jobs || cluster.jobs[jobKey].Unavailable? then Owner("job", job)
        else match FirstOwner(cluster.jobs[jobKey].owners, "CronJob")
          case Some(cronJob) => Owner("cronjob", cronJob)
          case None => Owner("job", job)
  }

  function OwnerText(owner: Owner): string {
    if owner.kind != "" then owner.kind + ":" + owner.name else owner.name
  }

  function RateLimitKey(cluster: Cluster, policyNs: string, policyName: string, obj: ObjectRef): string {
    policyNs + "/" + (policyName + "/" + (obj.ns + "/" + OwnerText(ResolveOwner(cluster, obj))))
  }

  // ---------------------------------------------------------------- the key of every object, as text

  /** The first of the owners of that kind has that name; there is none for `None`. */
  ghost predicate IsFirstOwner(owners: seq<OwnerRef>, kind: string, name: Option<string>) {
    match name
    case None => forall i | 0 <= i < |owners| :: owners[i].kind != kind
    case Some(n) =>
      exists i :: 0 <= i < |owners| && owners[i] == OwnerRef(kind, n) && forall j | 0 <= j < i :: owners[j].kind != kind
  }

  lemma {:induction false} FirstOwnerIs(owners: seq<OwnerRef>, kind: string, name: Option<string>)
    ensures FirstOwner(owners, kind) == name <==> IsFirstOwner(owners, kind, name)
  {
    if |owners| > 0 && owners[0].kind != kind {
      var rest := owners[1..];
      FirstOwnerIs(rest, kind, name);
      if name.Some? && IsFirstOwner(rest, kind, name) {
        var i :| 0 <= i < |rest| && rest[i] == OwnerRef(kind, name.value) && forall j | 0 <= j < i :: rest[j].kind != kind;
        assert owners[i + 1] == rest[i] && forall j | 0 < j < i + 1 :: owners[j] == rest[j - 1];
      }
    }
  }

  /** What identifies an object, by all cases of the owner chain. */
  ghost predicate Identifies(cluster: Cluster, obj: ObjectRef, text: string) {
    var podKey := ObjectKey(obj.ns, obj.name);
    if obj.kind != "Pod" then text == obj.name
    else if podKey !in cluster.pods then IdentifiesGone(obj.name, text)
    else match cluster.pods[podKey]
      case Unavailable => text == obj.name
      case Found(owners) => IdentifiesPod(cluster, obj, owners, text)
  }

  /** A deleted pod is identified by the CronJob whose name it carries, else by its own. */
  ghost predicate IdentifiesGone(pod: string, text: string) {
    if exists name :: CronJobPodName(pod, name) then exists name :: CronJobPodName(pod, name) && text == "cronjob:" + name
    else text == pod
  }

  /** A present pod is identified by its first owner that is a Job, if there is one. */
  ghost predicate IdentifiesPod(cluster: Cluster, pod: ObjectRef, owners: seq<OwnerRef>, text: string) {
    if IsFirstOwner(owners, "Job", None) then text == pod.name
    else exists job :: IsFirstOwner(owners, "Job", Some(job)) && IdentifiesJob(cluster, ObjectKey(pod.ns, job), text)
  }

  /** A Job is identified by its first owner that is a CronJob, if it can be read and has one. */
  ghost predicate IdentifiesJob(cluster: Cluster, jobKey: ObjectKey, text: string) {
    if jobKey in cluster.jobs && cluster.jobs[jobKey].Found? && !IsFirstOwner(cluster.jobs[jobKey].owners, "CronJob", None) then
      exists cronJob :: IsFirstOwner(cluster.jobs[jobKey].owners, "CronJob", Some(cronJob)) && text == "cronjob:" + cronJob
    else text == "job:" + jobKey.name
  }

  lemma OwnerIdentifiesJob(cluster: Cluster, jobKey: ObjectKey, cronJob: Option<string>)
    requires cronJob == if jobKey in cluster.jobs && cluster.jobs[jobKey].Found? then FirstOwner(cluster.jobs[jobKey].owners, "CronJob") else None
    ensures cronJob.Some? ==> IdentifiesJob(cluster, jobKey, "cronjob:" + cronJob.value)
    ensures cronJob.None? ==> IdentifiesJob(cluster, jobKey, "job:" + jobKey.name)
  {
    if jobKey in cluster.jobs && cluster.jobs[jobKey].Found? {
      FirstOwnerIs(cluster.jobs[jobKey].owners, "CronJob", None);
      FirstOwnerIs(cluster.jobs[jobKey].owners, "CronJob", cronJob);
    }
  }

  lemma OwnerTexts(name: string)
    ensures OwnerText(Owner("", name)) == name
    ensures OwnerText(Owner("job", name)) == "job:" + name
    ensures OwnerText(Owner("cronjob", name)) == "cronjob:" + name
  {
    assert "job" + ":" == "job:" && "cronjob" + ":" == "cronjob:";
  }

  lemma OwnerIdentifiesGone(pod: string, parsed: Option<string>)
    requires parsed == ParseCronJobName(pod)
    ensures parsed.Some? ==> IdentifiesGone(pod, "cronjob:" + parsed.value)
    ensures parsed.None? ==> IdentifiesGone(pod, pod)
  {
    forall name
      ensures parsed == Some(name) <==> CronJobPodName(pod, name)
    {
      ParseCronJobNameExact(pod, name);
    }
  }

  lemma OwnerIdentifiesPod(cluster: Cluster, pod: ObjectRef, owners: seq<OwnerRef>)
    requires pod.kind == "Pod" && ObjectKey(pod.ns, pod.name) in cluster.pods && cluster.pods[ObjectKey(pod.ns, pod.name)] == Found(owners)
    ensures IdentifiesPod(cluster, pod, owners, OwnerText(ResolveOwner(cluster, pod)))
  {
    var job := FirstOwner(owners, "Job");
    FirstOwnerIs(owners, "Job", None);
    FirstOwnerIs(owners, "Job", job);
    if job.Some? {
      var jobKey := ObjectKey(pod.ns, job.value);
      var cronJob := if jobKey in cluster.jobs && cluster.jobs[jobKey].Found? then FirstOwner(cluster.jobs[jobKey].owners, "CronJob") else None;
      var owner := ResolveOwner(cluster, pod);
      assert owner == if cronJob.Some? then Owner("cronjob", cronJob.value) else Owner("job", job.value);
      OwnerIdentifiesJob(cluster, jobKey, cronJob);
      OwnerTexts(owner.name);
      assert IdentifiesJob(cluster, jobKey, OwnerText(owner));
    }
  }

  lemma OwnerIdentifies(cluster: Cluster, obj: ObjectRef)
    ensures Identifies(cluster, obj, OwnerText(ResolveOwner(cluster, obj)))
  {
    var podKey := ObjectKey(obj.ns, obj.name);
    if obj.kind == "Pod" {
      if podKey !in cluster.pods {
        var parsed := ParseCronJobName(obj.name);
        OwnerIdentifiesGone(obj.name, parsed);
        if parsed.Some? {
          OwnerTexts(parsed.value);
        }
      } else if cluster.pods[podKey].Found? {
        OwnerIdentifiesPod(cluster, obj, cluster.pods[podKey].owners);
      }
    }
  }

  lemma FourParts(a: string, b: string, c: string, d: string)
    ensures a + "/" + (b + "/" + (c + "/" + d)) == a + "/" + b + "/" + c + "/" + d
  {
  }

  /** A key is the policy, the object's namespace and what identifies the object, joined by slashes. */
  lemma RateLimitKeyText(cluster: Cluster, policyNs: string, policyName: string, obj: ObjectRef)
    ensures exists text :: Identifies(cluster, obj, text)
              && RateLimitKey(cluster, policyNs, policyName, obj) == policyNs + "/" + policyName + "/" + obj.ns + "/" + text
  {
    var text := OwnerText(ResolveOwner(cluster, obj));
    OwnerIdentifies(cluster, obj);
    FourParts(policyNs, policyName, obj.ns, text);
  }

  // ---------------------------------------------------------------- keys of CronJob pods

  /** The pod exists, its first Job owner exists, and that Job's first CronJob owner is `cronJob`. */
  predicate IntactChain(cluster: Cluster, pod: ObjectRef, cronJob: string) {
    var podKey := ObjectKey(pod.ns, pod.name);
    && podKey in cluster.pods && cluster.pods[podKey].Found?
    && var job := FirstOwner(cluster.pods[podKey].owners, "Job");
    && job.Some?
    && var jobKey := ObjectKey(pod.ns, job.value);
    && jobKey in cluster.jobs && cluster.jobs[jobKey].Found?
    && FirstOwner(cluster.jobs[jobKey].owners, "CronJob") == Some(cronJob)
  }

  predicate Deleted(cluster: Cluster, pod: ObjectRef) {
    ObjectKey(pod.ns, pod.name) !in cluster.pods
  }

  lemma SamePrefix(prefix: string, a: string, b: string)
    ensures prefix + a == prefix + b <==> a == b
  {
    assert (prefix + a)[|prefix|..] == a && (prefix + b)[|prefix|..] == b;
  }

  /**
    A pod of a CronJob keeps its key across its own deletion exactly when its name has the
    CronJob shape for that CronJob (pod names hold no colon).
   */
  lemma KeySurvivesDeletion(alive: Cluster, gone: Cluster, policyNs: string, policyName: string,
                            pod: ObjectRef, cronJob: string)
    requires pod.kind == "Pod" && ':' !in pod.name
    requires IntactChain(alive, pod, cronJob) && Deleted(gone, pod)
    ensures RateLimitKey(alive, policyNs, policyName, pod) == RateLimitKey(gone, policyNs, policyName, pod)
        <==> CronJobPodName(pod.name, cronJob)
  {
    var before := OwnerText(ResolveOwner(alive, pod));
    var after := OwnerText(ResolveOwner(gone, pod));
    assert before == "cronjob:" + cronJob;
    SamePrefix(policyNs + "/", policyName + "/" + (pod.ns + "/" + before), policyName + "/" + (pod.ns + "/" + after));
    SamePrefix(policyName + "/", pod.ns + "/" + before, pod.ns + "/" + after);
    SamePrefix(pod.ns + "/", before, after);
    SamePrefix("cronjob:", cronJob, after[Min(8, |after|)..]);
    ParseCronJobNameExact(pod.name, cronJob);
    match ParseCronJobName(pod.name)
    case Some(parsed) =>
      assert after == "cronjob:" + parsed;
      assert before[8..] == cronJob && after[8..] == parsed;
    case None =>
      assert before[7] == ':';
      assert after == pod.name;
  }

  /** All pods of one CronJob share one key, whether still alive or already deleted. */
  lemma CronJobPodsShareKey(c1: Cluster, c2: Cluster, policyNs: string, policyName: string,
                            pod1: ObjectRef, pod2: ObjectRef, cronJob: string)
    requires pod1.kind == pod2.kind == "Pod" && pod1.ns == pod2.ns
    requires IntactChain(c1, pod1, cronJob) || (Deleted(c1, pod1) && CronJobPodName(pod1.name, cronJob))
    requires IntactChain(c2, pod2, cronJob) || (Deleted(c2, pod2) && CronJobPodName(pod2.name, cronJob))
    ensures RateLimitKey(c1, policyNs, policyName, pod1) == RateLimitKey(c2, policyNs, policyName, pod2)
  {
    OwnedByCronJob(c1, pod1, cronJob);
    OwnedByCronJob(c2, pod2, cronJob);
  }

  lemma OwnedByCronJob(cluster: Cluster, pod: ObjectRef, cronJob: string)
    requires pod.kind == "Pod"
    requires IntactChain(cluster, pod, cronJob) || (Deleted(cluster, pod) && CronJobPodName(pod.name, cronJob))
    ensures ResolveOwner(cluster, pod) == Owner("cronjob", cronJob)
  {
    ParseCronJobNameExact(pod.name, cronJob);
  }

  // ---------------------------------------------------------------- full keys

  datatype PolicyId = PolicyId(ns: string, name: string)
  datatype FullKey = FullKey(policy: PolicyId, shortKey: string)

  function MakeFullKey(policy: PolicyId, shortKey: string): string {
    policy.ns + "/" + (policy.name + "/" + shortKey)
  }

  function ParseFullKey(key: string): Option<FullKey> {
    var parts := SplitN(key, '/', 4);
    if |parts| < 4 then None
    else Some(FullKey(PolicyId(parts[0], parts[1]), Join(parts[2..], '/')))
  }

  predicate ValidPolicyId(policy: PolicyId) {
    '/' !in policy.ns && '/' !in policy.name
  }

  /** The key components for which building and parsing are inverse. */
  predicate ValidFullKey(k: FullKey) {
    ValidPolicyId(k.policy) && '/' in k.shortKey
  }

  /** Exactly the strings with three or more slashes parse, and building undoes parsing. */
  lemma ParseThenMake(key: string)
    ensures ParseFullKey(key).Some? <==> multiset(key)['/'] >= 3
    ensures ParseFullKey(key).Some? ==>
              var k := ParseFullKey(key).value;
              ValidFullKey(k) && MakeFullKey(k.policy, k.shortKey) == key
  {
    SplitNLength(key, '/', 4);
    if ParseFullKey(key).Some? {
      SplitFullKey(key);
    }
  }

  lemma SplitFullKey(key: string)
    requires |SplitN(key, '/', 4)| == 4
    ensures var parts := SplitN(key, '/', 4);
            var shortKey := Join(parts[2..], '/');
            && '/' !in parts[0] && '/' !in parts[1] && '/' in shortKey
            && key == parts[0] + "/" + (parts[1] + "/" + shortKey)
  {
    var (a, afterA) := Cut(key, '/').value;
    var (b, afterB) := Cut(afterA, '/').value;
    var (c, d) := Cut(afterB, '/').value;
    assert SplitN(afterB, '/', 2) == [c, d];
    assert SplitN(afterA, '/', 3) == [b, c, d];
    assert SplitN(key, '/', 4) == [a, b, c, d];
    assert [a, b, c, d][2..] == [c, d] && [c, d][1..] == [d];
    assert Join([c, d], '/') == afterB;
  }

  lemma SplitBuilt(ns: string, name: string, shortKey: string, rest: string, limit: nat)
    requires '/' !in ns && '/' !in name && rest == name + "/" + shortKey && limit >= 3
    ensures SplitN(ns + "/" + rest, '/', limit) == [ns] + ([name] + SplitN(shortKey, '/', limit - 2))
  {
    calc {
      SplitN(ns + "/" + rest, '/', limit);
      { SplitNConcat(ns, '/', rest, limit); }
      [ns] + SplitN(rest, '/', limit - 1);
      { SplitNConcat(name, '/', shortKey, limit - 1); }
      [ns] + ([name] + SplitN(shortKey, '/', limit - 2));
    }
  }

  lemma JoinShortKey(shortKey: string)
    requires '/' in shortKey
    ensures |SplitN(shortKey, '/', 2)| == 2 && Join(SplitN(shortKey, '/', 2), '/') == shortKey
  {
    var (c, d) := Cut(shortKey, '/').value;
    assert SplitN(shortKey, '/', 2) == [c, d];
    assert [c, d][1..] == [d];
  }

  lemma ParseBuilt(k: FullKey)
    requires ValidFullKey(k)
    ensures ParseFullKey(MakeFullKey(k.policy, k.shortKey)) == Some(k)
  {
    SplitBuilt(k.policy.ns, k.policy.name, k.shortKey, k.policy.name + "/" + k.shortKey, 4);
    JoinShortKey(k.shortKey);
    var parts := [k.policy.ns] + ([k.policy.name] + SplitN(k.shortKey, '/', 2));
    assert parts[2..] == SplitN(k.shortKey, '/', 2);
  }

  /** Parsing undoes building exactly on valid components. */
  lemma MakeThenParse(k: FullKey)
    ensures ParseFullKey(MakeFullKey(k.policy, k.shortKey)) == Some(k) <==> ValidFullKey(k)
  {
    if ValidFullKey(k) {
      ParseBuilt(k);
    }
    ParseThenMake(MakeFullKey(k.policy, k.shortKey));
  }

  /** Distinct valid components never share a key, so policies cannot mix in one map. */
  lemma FullKeysDisjoint(k1: FullKey, k2: FullKey)
    requires ValidPolicyId(k1.policy) && ValidPolicyId(k2.policy)
    requires MakeFullKey(k1.policy, k1.shortKey) == MakeFullKey(k2.policy, k2.shortKey)
    ensures k1 == k2
  {
    CutAt(k1.policy.ns, '/', k1.policy.name + ['/'] + k1.shortKey);
    CutAt(k2.policy.ns, '/', k2.policy.name + ['/'] + k2.shortKey);
    CutAt(k1.policy.name, '/', k1.shortKey);
    CutAt(k2.policy.name, '/', k2.shortKey);
  }

  /** Every rate-limit key is a full key of the policy that produced it. */
  lemma RateLimitKeyBelongsToPolicy(cluster: Cluster, policy: PolicyId, obj: ObjectRef)
    requires ValidPolicyId(policy)
    ensures ParseFullKey(RateLimitKey(cluster, policy.ns, policy.name, obj))
            == Some(FullKey(policy, obj.ns + "/" + OwnerText(ResolveOwner(cluster, obj))))
  {
    var shortKey := obj.ns + "/" + OwnerText(ResolveOwner(cluster, obj));
    assert '/' in shortKey by { assert shortKey[|obj.ns|] == '/'; }
    assert RateLimitKey(cluster, policy.ns, policy.name, obj) == MakeFullKey(policy, shortKey);
    MakeThenParse(FullKey(policy, shortKey));
  }

  // ---------------------------------------------------------------- owners of arbitrary keys

  /**
    The policy and short key that `MakeFullKey` could have joined into `key`. Unlike
    `ParseFullKey` it also answers for short keys without a slash, which only a ConfigMap
    edited by hand can hold.
   */
  function SplitKey(key: string): Option<FullKey> {
    var parts := SplitN(key, '/', 3);
    if |parts| < 3 then None else Some(FullKey(PolicyId(parts[0], parts[1]), parts[2]))
  }

  lemma SplitThenMake(key: string)
    ensures SplitKey(key).Some? ==>
              var k := SplitKey(key).value;
              ValidPolicyId(k.policy) && MakeFullKey(k.policy, k.shortKey) == key
  {
    if SplitKey(key).Some? {
      var (a, afterA) := Cut(key, '/').value;
      var (b, afterB) := Cut(afterA, '/').value;
      assert SplitN(afterA, '/', 2) == [b, afterB];
      assert SplitN(key, '/', 3) == [a, b, afterB];
    }
  }

  lemma MakeThenSplit(k: FullKey)
    requires ValidPolicyId(k.policy)
    ensures SplitKey(MakeFullKey(k.policy, k.shortKey)) == Some(k)
  {
    SplitBuilt(k.policy.ns, k.policy.name, k.shortKey, k.policy.name + "/" + k.shortKey, 3);
  }
}
