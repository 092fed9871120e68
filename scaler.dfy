/** The in-place vertical scaler's matching and patch logic (main.go):
    deriving a pod's workload key from its first owner reference, looking
    the key up among the recommendations, and shaping the resource patch
    for one recommendation. */
module Scaler {
  import opened GoStrings
  import opened GoFmt
  import opened Quantities

  const STATEFUL_SET_KIND := "StatefulSet"
  const REPLICA_SET_KIND := "ReplicaSet"

  /** ReplicaSet names are `<deployment>-<pod template hash>`. */
  const HASH_SEPARATOR := '-'

  /** One recommendation record; CPU in millicores, memory in bytes. */
  datatype Recommendation = Recommendation(
    namespace: string,
    podName: string,
    containerName: string,
    cpuRequest: Int64,
    cpuLimit: Int64,
    memRequest: Int64,
    memLimit: Int64)

  /** The part of a pod's metadata the matcher reads. */
  datatype OwnerReference = OwnerReference(kind: string, name: string)
  datatype Pod = Pod(namespace: string, name: string, ownerReferences: seq<OwnerReference>)

  /** The four ways a lookup fails, with the values each error message
      reports. */
  datatype LookupError =
    | NoOwner(podNamespace: string, podName: string)
    | UnsupportedOwnerKind(kind: string)
    | MalformedReplicaSetName(ownerName: string)
    | NoRecommendationFound(key: string)

  datatype Result<T> = Ok(value: T) | Err(error: LookupError)

  /** getRecommendationForPod: only the first owner reference is read;
      a ReplicaSet owner's name loses its last `-`-separated segment; the
      key is owner name and namespace run together. */
  function GetRecommendationForPod(pod: Pod, recs: map<string, Recommendation>): (r: Result<Recommendation>)
    ensures |pod.ownerReferences| == 0 ==> r == Err(NoOwner(pod.namespace, pod.name))
    ensures |pod.ownerReferences| > 0 && pod.ownerReferences[0].kind !in {STATEFUL_SET_KIND, REPLICA_SET_KIND}
      ==> r == Err(UnsupportedOwnerKind(pod.ownerReferences[0].kind))
    ensures r.Ok? ==> r.value in recs.Values
  {
    if |pod.ownerReferences| == 0 then Err(NoOwner(pod.namespace, pod.name))
    else
      var owner := pod.ownerReferences[0];
      if owner.kind != STATEFUL_SET_KIND && owner.kind != REPLICA_SET_KIND then
        Err(UnsupportedOwnerKind(owner.kind))
      else
        var parts := Split(owner.name, HASH_SEPARATOR);
        if owner.kind == REPLICA_SET_KIND && |parts| < 2 then
          Err(MalformedReplicaSetName(owner.name))
        else
          var ownerName :=
            if owner.kind == REPLICA_SET_KIND then Join(parts[..|parts| - 1], HASH_SEPARATOR)
            else owner.name;
          var key := ownerName + pod.namespace;
          if key !in recs then Err(NoRecommendationFound(key))
          else Ok(recs[key])
  }

  /** The workload key stated without Split and Join: a StatefulSet keeps
      its name, a ReplicaSet keeps what precedes the last `-` of its name. */
  function WorkloadKey(pod: Pod): (key: Result<string>)
    ensures key.Ok? ==> |pod.ownerReferences| > 0
    ensures key.Ok? ==> |key.value| >= |pod.namespace| && key.value[|key.value| - |pod.namespace|..] == pod.namespace
  {
    if |pod.ownerReferences| == 0 then Err(NoOwner(pod.namespace, pod.name))
    else
      var owner := pod.ownerReferences[0];
      if owner.kind == STATEFUL_SET_KIND then Ok(owner.name + pod.namespace)
      else if owner.kind == REPLICA_SET_KIND then
        if HASH_SEPARATOR in owner.name then
          Ok(owner.name[..LastIndexOf(owner.name, HASH_SEPARATOR)] + pod.namespace)
        else Err(MalformedReplicaSetName(owner.name))
      else Err(UnsupportedOwnerKind(owner.kind))
  }

  /** Looking a derived key up: the stored record, or NoRecommendationFound. */
  function Lookup(key: Result<string>, recs: map<string, Recommendation>): (r: Result<Recommendation>)
    ensures r.Ok? <==> key.Ok? && key.value in recs
    ensures r.Ok? ==> r.value == recs[key.value]
  {
    match key
    case Err(e) => Err(e)
    case Ok(k) => if k in recs then Ok(recs[k]) else Err(NoRecommendationFound(k))
  }

  /** The matcher is the reference key derivation followed by a map lookup. */
  lemma GetRecommendationForPodMatchesWorkloadKey(pod: Pod, recs: map<string, Recommendation>)
    ensures GetRecommendationForPod(pod, recs) == Lookup(WorkloadKey(pod), recs)
  {
    if |pod.ownerReferences| > 0 && pod.ownerReferences[0].kind == REPLICA_SET_KIND {
      var name := pod.ownerReferences[0].name;
      SplitHasTwoPieces(name, HASH_SEPARATOR);
      if HASH_SEPARATOR in name {
        JoinAllButLast(name, HASH_SEPARATOR, LastIndexOf(name, HASH_SEPARATOR));
      }
    }
  }

  /** Owner references after the first never change the outcome. */
  lemma OnlyFirstOwnerMatters(pod: Pod, others: seq<OwnerReference>, recs: map<string, Recommendation>)
    requires |pod.ownerReferences| > 0
    ensures GetRecommendationForPod(pod.(ownerReferences := [pod.ownerReferences[0]] + others), recs)
         == GetRecommendationForPod(pod, recs)
  {
  }

  /** A StatefulSet owner's name is used unchanged in the key. */
  lemma StatefulSetKey(pod: Pod, recs: map<string, Recommendation>)
    requires |pod.ownerReferences| > 0 && pod.ownerReferences[0].kind == STATEFUL_SET_KIND
    ensures var key := pod.ownerReferences[0].name + pod.namespace;
      GetRecommendationForPod(pod, recs)
        == if key in recs then Ok(recs[key]) else Err(NoRecommendationFound(key))
  {
  }

  /** A ReplicaSet name without `-`, the empty name included, is malformed,
      whatever the recommendations hold. */
  lemma ReplicaSetWithoutHash(pod: Pod, recs: map<string, Recommendation>)
    requires |pod.ownerReferences| > 0 && pod.ownerReferences[0].kind == REPLICA_SET_KIND
    ensures GetRecommendationForPod(pod, recs) == Err(MalformedReplicaSetName(pod.ownerReferences[0].name))
        <==> HASH_SEPARATOR !in pod.ownerReferences[0].name
  {
    GetRecommendationForPodMatchesWorkloadKey(pod, recs);
  }

  /** A ReplicaSet name with a `-` contributes what precedes its last `-`. */
  lemma ReplicaSetKey(pod: Pod, recs: map<string, Recommendation>)
    requires |pod.ownerReferences| > 0 && pod.ownerReferences[0].kind == REPLICA_SET_KIND
    requires HASH_SEPARATOR in pod.ownerReferences[0].name
    ensures var name := pod.ownerReferences[0].name;
      var key := name[..LastIndexOf(name, HASH_SEPARATOR)] + pod.namespace;
      GetRecommendationForPod(pod, recs)
        == if key in recs then Ok(recs[key]) else Err(NoRecommendationFound(key))
  {
    GetRecommendationForPodMatchesWorkloadKey(pod, recs);
  }

  /** Deployment names are recovered from the ReplicaSet names they generate. */
  lemma WorkloadKeyExamples(namespace: string)
    ensures WorkloadKey(Pod(namespace, "p", [OwnerReference(REPLICA_SET_KIND, "my-deployment-75cb66cbcf")]))
         == Ok("my-deployment" + namespace)
    ensures WorkloadKey(Pod(namespace, "p", [OwnerReference(REPLICA_SET_KIND, "a-")])) == Ok("a" + namespace)
  {
    var name := "my-deployment-75cb66cbcf";
    assert LastIndexOf(name, '-') == 13 by {
      var hash := "75cb66cbcf";
      assert forall k :: 0 <= k < |hash| ==> hash[k] != '-';
      assert name[13] == '-' && name[14..] == hash;
      LastIndexOfUnique(name, '-', 13);
    }
    assert name[..13] == "my-deployment";
    assert LastIndexOf("a-", '-') == 1 by {
      LastIndexOfUnique("a-", '-', 1);
    }
    assert "a-"[..1] == "a";
  }

  /** The same examples, for the matcher itself. */
  lemma ReplicaSetKeyExamples(namespace: string, recs: map<string, Recommendation>)
    ensures GetRecommendationForPod(Pod(namespace, "p", [OwnerReference(REPLICA_SET_KIND, "my-deployment-75cb66cbcf")]), recs)
         == Lookup(Ok("my-deployment" + namespace), recs)
    ensures GetRecommendationForPod(Pod(namespace, "p", [OwnerReference(REPLICA_SET_KIND, "a-")]), recs)
         == Lookup(Ok("a" + namespace), recs)
  {
    var deployment := Pod(namespace, "p", [OwnerReference(REPLICA_SET_KIND, "my-deployment-75cb66cbcf")]);
    var short := Pod(namespace, "p", [OwnerReference(REPLICA_SET_KIND, "a-")]);
    WorkloadKeyExamples(namespace);
    GetRecommendationForPodMatchesWorkloadKey(deployment, recs);
    GetRecommendationForPodMatchesWorkloadKey(short, recs);
  }

  /** The key has no delimiter, so pods whose owner name and namespace run
      together alike receive the same answer, whatever their pairs. */
  lemma KeysCollide(p: Pod, q: Pod, recs: map<string, Recommendation>)
    requires WorkloadKey(p) == WorkloadKey(q)
    ensures GetRecommendationForPod(p, recs) == GetRecommendationForPod(q, recs)
  {
    GetRecommendationForPodMatchesWorkloadKey(p, recs);
    GetRecommendationForPodMatchesWorkloadKey(q, recs);
  }

  /** Owner "ab" in namespace "c" and owner "a" in namespace "bc" share a key. */
  lemma KeysCollideExample()
    ensures WorkloadKey(Pod("c", "p", [OwnerReference(STATEFUL_SET_KIND, "ab")]))
         == WorkloadKey(Pod("bc", "q", [OwnerReference(STATEFUL_SET_KIND, "a")]))
  {
    assert "ab" + "c" == "a" + "bc";
  }

  /** The strategic-merge patch body built by patchPodResources. */
  datatype ResourceList = ResourceList(cpu: string, memory: string)
  datatype Resources = Resources(requests: ResourceList, limits: ResourceList)
  datatype ContainerPatch = ContainerPatch(name: string, resources: Resources)
  datatype PodSpecPatch = PodSpecPatch(containers: seq<ContainerPatch>)
  datatype PodPatch = PodPatch(spec: PodSpecPatch)

  /** The memory amounts lie where formatMemory's float arithmetic is exact. */
  predicate MemoryInExactRange(rec: Recommendation) {
    && -MAX_EXACT_BYTES <= rec.memRequest <= MAX_EXACT_BYTES
    && -MAX_EXACT_BYTES <= rec.memLimit <= MAX_EXACT_BYTES
  }

  /** The list holds `%d` of the millicores with unit `m`, and `%d` of the
      rounded mebibytes with unit `Mi`. */
  predicate Carries(list: ResourceList, millicores: Int64, bytes: Int64) {
    && WellFormed(list.cpu, "m") && ReadQuantity(list.cpu, "m") == Some(millicores as int)
    && WellFormed(list.memory, "Mi") && ReadQuantity(list.memory, "Mi") == Some(MebibytesRounded(bytes))
  }

  /** The patch names the recommendation's container alone and carries its
      CPU amounts exactly and its memory amounts to the nearest mebibyte. */
  function BuildPatch(rec: Recommendation): (p: PodPatch)
    requires MemoryInExactRange(rec)
    ensures |p.spec.containers| == 1
    ensures var c := p.spec.containers[0];
      && c.name == rec.containerName
      && Carries(c.resources.requests, rec.cpuRequest, rec.memRequest)
      && Carries(c.resources.limits, rec.cpuLimit, rec.memLimit)
  {
    PodPatch(PodSpecPatch([
      ContainerPatch(rec.containerName, Resources(
        ResourceList(FormatCPU(rec.cpuRequest), FormatMemory(rec.memRequest)),
        ResourceList(FormatCPU(rec.cpuLimit), FormatMemory(rec.memLimit))))]))
  }

  /** Two recommendations with the same patch agree on container and CPU;
      their memory amounts agree to within one mebibyte. */
  lemma BuildPatchDeterminesRecommendation(a: Recommendation, b: Recommendation)
    requires MemoryInExactRange(a) && MemoryInExactRange(b)
    requires BuildPatch(a) == BuildPatch(b)
    ensures a.containerName == b.containerName
    ensures a.cpuRequest == b.cpuRequest && a.cpuLimit == b.cpuLimit
    ensures -MEBIBYTE <= a.memRequest - b.memRequest <= MEBIBYTE
    ensures -MEBIBYTE <= a.memLimit - b.memLimit <= MEBIBYTE
  {
  }

  /** The contract of BuildPatch fixes the payload: any patch of that shape
      is the one built. */
  lemma BuildPatchUnique(rec: Recommendation, p: PodPatch)
    requires MemoryInExactRange(rec)
    requires |p.spec.containers| == 1
    requires var c := p.spec.containers[0];
      && c.name == rec.containerName
      && Carries(c.resources.requests, rec.cpuRequest, rec.memRequest)
      && Carries(c.resources.limits, rec.cpuLimit, rec.memLimit)
    ensures p == BuildPatch(rec)
  {
    var c := p.spec.containers[0];
    FormatCPUIsDecimal(rec.cpuRequest, c.resources.requests.cpu);
    FormatCPUIsDecimal(rec.cpuLimit, c.resources.limits.cpu);
    FormatMemoryIsDecimal(rec.memRequest, c.resources.requests.memory);
    FormatMemoryIsDecimal(rec.memLimit, c.resources.limits.memory);
    assert p.spec.containers == [c];
  }
}
