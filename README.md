# Kubernetes in-place vertical scaler: matching and patch model

The scaler applies precomputed CPU and memory recommendations to running
pods. Its logic has two parts, and this project models both as pure
Dafny functions and proves properties about them:

- **Workload matching** (`getRecommendationForPod`). The matcher reads only
  the pod's first owner reference and accepts only a `StatefulSet` or a
  `ReplicaSet`. For a ReplicaSet it drops the trailing pod-template hash: it
  splits the name on `-` and rejoins every piece but the last. The key is the
  owner name followed directly by the namespace. The matcher looks that key
  up in the recommendation map.
  - Four error outcomes are modelled as `LookupError` constructors. Each
    carries the values its message reports: no owner, unsupported owner kind,
    malformed ReplicaSet name, and no recommendation found.
  - Go's `strings.Split` and `strings.Join` are modelled exactly (module
    `GoStrings`).
  - `WorkloadKey` is a second definition of the key that does not use split
    and join: it takes the prefix before the last `-`. It is proved to agree
    with the matcher for every pod and every map.
- **Resource quantities and the patch body** (`formatCPU`, `formatMemory`,
  the payload inside `patchPodResources`).
  - CPU is rendered as Go's `%d` followed by `m`.
  - Memory is rendered as bytes divided by 1,048,576, rounded half away from
    zero, followed by `Mi`. The model uses integer arithmetic. It agrees with
    the source's float64 arithmetic whenever |bytes| ≤ 2^53.
  - `ReadQuantity` reads a quantity string back, and `WellFormed` says it is
    written as `%d` writes integers: no leading zero, no `-0`. The formatters
    are specified by both together, which fixes their output string.
  - The patch body is a nested datatype. It mirrors the `spec.containers`
    map literal.

Modules follow the source: `Scaler` covers main.go, and `Quantities` covers
utils.go. `GoStrings` and `GoFmt` model the Go library functions the two
files call.

Two facts about the code shape the model:
- Owner kinds are compared as strings, so the model keeps them as strings.
- No recommendation store is built. `main` applies each record of the
  loaded list directly and never calls `getRecommendationForPod`. The map is
  therefore a parameter of the matcher, and the model links the matcher to
  nothing else.

## Model

| member | source | states |
|---|---|---|
| GoStrings.Split | main.go:86 | `strings.Split` on `-` always yields at least one piece, and no piece contains `-` |
| GoStrings.SplitCount | main.go:86 | the split has exactly one more piece than the name has `-` characters |
| GoStrings.Join | main.go:90 | `strings.Join`: the first piece is a prefix of the result (its separators and inverse are stated by JoinCount and SplitJoin) |
| GoStrings.JoinCount | main.go:90 | joining n pieces without `-` puts exactly n-1 `-` characters in the result |
| GoStrings.SplitJoin | main.go:86-90 | splitting a join of one or more `-`-free pieces gives back those pieces |
| GoStrings.JoinSplit | main.go:86-90 | joining the pieces of a split with the same separator gives back the original string |
| GoStrings.SplitHasTwoPieces | main.go:86-87 | the split has two or more pieces exactly when the name contains `-`, so the `len(parts) < 2` guard fires exactly for names without `-` |
| GoStrings.JoinAllButLast | main.go:86-90 | joining every piece except the last gives the prefix of the name before its last `-` |
| GoFmt.IntToDecimal | utils.go:9 | `%d` rendering: the string is canonical (no leading zero, no `-0`), reading it back gives the integer, and it starts with `-` exactly when the integer is negative |
| GoFmt.DecimalRoundTrip | utils.go:9 | every canonical integer string is the rendering of the value it reads as, so the rendering is the only canonical string for its value |
| GoFmt.IntToDecimalInjective | utils.go:9 | distinct integers render as distinct decimal strings |
| Quantities.FormatCPU | utils.go:8-10 | the quantity is a canonical integer followed by `m` that reads back as exactly the millicore count (no conversion), and a negative count keeps its leading `-` |
| Quantities.FormatCPUIsDecimal | utils.go:8-10 | any canonical integer followed by `m` that reads back as the count equals FormatCPU of it: the output is the decimal rendering followed by `m` |
| Quantities.FormatCPUInjective | utils.go:8-10 | distinct millicore counts give distinct CPU quantities |
| Quantities.FormatCPUExamples | utils.go:8-10 | 250 gives "250m", 0 gives "0m", -10 gives "-10m" |
| Quantities.MebibytesRounded | utils.go:19-20 | the result is the nearest whole mebibyte, with ties away from zero, and it lies within half a mebibyte of the byte count |
| Quantities.RoundsToUnique | utils.go:19-20 | the nearest-mebibyte condition with ties away from zero admits only one integer, the computed one |
| Quantities.MebibytesRoundedOdd | utils.go:20 | rounding is symmetric under negation, as `math.Round` is |
| Quantities.MebibytesRoundedMonotone | utils.go:19-20 | more bytes never give fewer mebibytes |
| Quantities.FormatMemory | utils.go:18-21 | for byte counts of magnitude at most 2^53 the quantity is a canonical integer followed by `Mi` that reads back as the rounded mebibyte count |
| Quantities.FormatMemoryIsDecimal | utils.go:18-21 | any canonical integer followed by `Mi` that reads back as the rounded count equals FormatMemory of the byte count |
| Quantities.FormatMemoryExactMultiple | utils.go:18-21 | k·1048576 bytes render as the decimal of k followed by `Mi` |
| Quantities.FormatMemoryExamples | utils.go:18-21 | 0 gives "0Mi", 1048576 gives "1Mi", 524288 gives "1Mi", 1572864 gives "2Mi", -524288 gives "-1Mi" |
| Scaler.GetRecommendationForPod | main.go:70-101 | no owner references give the no-owner error, and an unsupported first owner kind gives that error whatever the map holds; a success returns a value stored in the map |
| Scaler.WorkloadKey | main.go:80-93 | a derived key exists only for a pod with an owner reference, and it ends with the pod's namespace |
| Scaler.Lookup | main.go:95-100 | the lookup succeeds exactly when the key was derived and is in the map, and then returns the stored record unchanged |
| Scaler.GetRecommendationForPodMatchesWorkloadKey | main.go:70-101 | for every pod and map, the matcher equals the reference key derivation followed by the lookup: the stored record when the key is present, otherwise no-recommendation-found with that key |
| Scaler.OnlyFirstOwnerMatters | main.go:75 | replacing or adding owner references after the first never changes the result |
| Scaler.StatefulSetKey | main.go:80-100 | for a StatefulSet owner the key is the owner name, unchanged, followed by the namespace |
| Scaler.ReplicaSetWithoutHash | main.go:83-89 | a ReplicaSet owner gives the malformed-name error exactly when its name has no `-`, the empty name included |
| Scaler.ReplicaSetKey | main.go:83-100 | for a ReplicaSet owner whose name has a `-`, the key is the prefix before the last `-`, followed by the namespace |
| Scaler.WorkloadKeyExamples | main.go:84-90 | "my-deployment-75cb66cbcf" gives "my-deployment", and "a-" gives "a" |
| Scaler.ReplicaSetKeyExamples | main.go:84-100 | the matcher looks up "my-deployment" + namespace for "my-deployment-75cb66cbcf", and "a" + namespace for "a-" |
| Scaler.KeysCollide | main.go:93-100 | any two pods with the same derived key get the same answer, whatever their owner names and namespaces |
| Scaler.KeysCollideExample | main.go:93 | owner "ab" in namespace "c" and owner "a" in namespace "bc" derive the same key, because the key has no delimiter |
| Scaler.BuildPatch | main.go:114-132 | the patch names exactly one container, the record's; each of requests and limits holds a canonical CPU quantity reading back as the record's millicores and a canonical memory quantity reading back as its rounded mebibytes |
| Scaler.BuildPatchUnique | main.go:114-132 | any patch meeting BuildPatch's contract is BuildPatch's result, so the four strings are formatCPU and formatMemory of the matching fields |
| Scaler.BuildPatchDeterminesRecommendation | main.go:114-132 | two records with the same patch agree on container name and both CPU values, and their memory values differ by at most one mebibyte |

## Left out

- `getClientset` (main.go:50-68): it reads `KUBECONFIG`, builds the cluster client and exits on failure. This is environment and client I/O.
- `loadRecommendations` (main.go:103-111): a file read plus `json.Unmarshal`. The recommendation map is a parameter of the matcher instead.
- The JSON marshalling of the patch and the `Pods(...).Patch` call (main.go:133-145): a network call. Only the payload's shape is modelled.
- The loop in `main` (main.go:38-47): logging and the 300 ms sleep between records are side-effecting glue.
- The commented-out truncating `formatMemory` (utils.go:12-16): dead code.
- The wording of the error messages: errors are constructors that carry the values the messages report.
- Quantities.FormatMemory: requires |bytes| ≤ 2^53. Beyond that, the source's int64-to-float64 conversion rounds, and that float rounding is not modelled.
- Scaler.BuildPatch: requires both memory values within the same bound, because it calls FormatMemory.
- Names are modelled as sequences of characters, while Go splits byte strings. Splitting on `-` gives the same pieces either way, because `-` is one ASCII byte and UTF-8 never uses that byte inside a multi-byte character.
- Go's `int` is taken to be 64 bits wide, the same as `int64` (`GoFmt.Int64`).
- Determinism: the matcher is a function, so matching the same pod against the same map twice gives the same answer by construction. No separate lemma states it.
