# Mooncake device topology, modelled in Dafny

This project models the device-topology core of the Mooncake transfer engine. It has two parts.

- **PCIe path matcher.** These are string algorithms over resolved sysfs paths:
  - `getCommonParentLength` and `getCommonParent` find the longest common ancestor directory of two paths by a lock-step scan;
  - `isPciRootComplex` recognises a `/sys/devices/pci<domain>:<bus>` directory;
  - `isSamePcieRootComplex` resolves two PCI bus IDs and walks up from their common parent, looking for a root complex directory.
- **Affinity matrix and selector** (`mooncake::Topology`). This is a matrix from locality key (`cpu:N`, `gpu:N`, or the wildcard) to an entry holding `preferred_hca` and `avail_hca` name lists. Around it sit:
  - the device registry `getHcaList`;
  - `parse`, and the structure `toString` writes;
  - `getMatrix`, `clear` and `empty`;
  - `selectDevice`, which takes a locality and a retry ordinal;
  - `disableDevice`.

C strings are `CStrings.CString`, a `seq<char>` with no NUL inside, one character per byte of an ASCII path. Offset `|s|` reads as the terminator. A null pointer is `Outcomes.None`.

The implementation file of `mooncake::Topology` is not part of this model. Its operations are modelled from what the test file `mooncake-transfer-engine/tests/topology_test.cpp` asserts about them. Where the tests leave a behaviour open, the model makes its own choice, and "## Left out" names each such choice. The path matcher is modelled from its code, which is reproduced in that test file (lines 119-191).

Modules, one per component:

- `Outcomes`: `Option` and `Result`.
- `CStrings`: C strings, and the terminator-aware read `At`.
- `CommonParent`: `getCommonParentLength` (as a method mirroring the do-while loop, and as a declarative function) and `getCommonParent`.
- `RootComplex`: `isPciRootComplex`, and its exact grammar.
- `SameRootComplex`: `find_last_of('/')`, the upward walk, and `isSamePcieRootComplex`.
- `NameLists`: removal, first-seen deduplication, and index lookup on name lists.
- `Affinity`: the matrix, the registry, `getMatrix`, `clear`, `empty` and `disableDevice`.
- `Selector`: `selectDevice`.
- `TopologyJson`: the JSON value `parse` reads and `toString` writes.
- `Scenarios`: the concrete cases of the test file, derived from the general lemmas.

## Model

| member | source | states |
|---|---|---|
| `CStrings.At` | mooncake-transfer-engine/tests/topology_test.cpp:128-132 | reading a C string yields NUL exactly at its end; reads beyond the terminator cannot be written |
| `CommonParent.ScanEnd` | mooncake-transfer-engine/tests/topology_test.cpp:132 | the scan stops where the paths first differ or both end: they agree on everything before it |
| `CommonParent.LastSharedBoundary` | mooncake-transfer-engine/tests/topology_test.cpp:128-131 | the last offset, up to a bound, where both paths hold `/` or end; no later such offset exists up to the bound |
| `CommonParent.CommonParentLength` | mooncake-transfer-engine/tests/topology_test.cpp:119-135 | 0 for a null path; otherwise at most both lengths, both paths agree before it, both end a component at it unless it is 0, and no later shared boundary lies within the common prefix |
| `CommonParent.GetCommonParentLength` | mooncake-transfer-engine/tests/topology_test.cpp:119-135 | the do-while loop computes exactly `CommonParentLength`, reading no character past either terminator |
| `CommonParent.GetCommonParent` | mooncake-transfer-engine/tests/topology_test.cpp:137-140 | the empty string for a null path; otherwise a prefix of both paths of the common parent length |
| `CommonParent.CommonParentLengthSymmetric` | mooncake-transfer-engine/tests/topology_test.cpp:505-515 | the result does not depend on argument order |
| `CommonParent.IdenticalPathsShareWholePath` | mooncake-transfer-engine/tests/topology_test.cpp:197-201 | identical paths have the whole path as common parent |
| `CommonParent.DirectoryIsParentOfDescendant` | mooncake-transfer-engine/tests/topology_test.cpp:252-257 | `d` against `d/q` (either order) has parent `d` |
| `CommonParent.TrailingSlashDropped` | mooncake-transfer-engine/tests/topology_test.cpp:259-264 | `d/` against `d/q` has parent `d` when `q` starts a name |
| `CommonParent.DivergingComponentsShareDirectory` | mooncake-transfer-engine/tests/topology_test.cpp:266-271 | paths leaving `d` through different names share only `d`, even when the names share a prefix |
| `RootComplex.HexRun` | mooncake-transfer-engine/tests/topology_test.cpp:148 | a `%x` conversion consumes the maximal leading run of hex digits |
| `RootComplex.IsPciRootComplex` | mooncake-transfer-engine/tests/topology_test.cpp:142-152 | false for null; an accepted path starts with `/sys/devices/pci` and has no `/` after it |
| `RootComplex.AcceptedPathIsRootComplexPath` | mooncake-transfer-engine/tests/topology_test.cpp:147-151 | every accepted path is `/sys/devices/pci` + hex digits + `:` + hex digits |
| `RootComplex.RootComplexPathIsAccepted` | mooncake-transfer-engine/tests/topology_test.cpp:147-151 | every path of that grammar is accepted |
| `RootComplex.IsPciRootComplexIff` | mooncake-transfer-engine/tests/topology_test.cpp:142-152 | acceptance if and only if the path matches the grammar exactly |
| `RootComplex.NoRootComplexBelowRootComplex` | mooncake-transfer-engine/tests/topology_test.cpp:290-303 | no path below a root complex directory (trailing `/` or extra component) is accepted |
| `SameRootComplex.LastSlash` | mooncake-transfer-engine/tests/topology_test.cpp:183-186 | `find_last_of('/')`: a `/` with none after it, or none at all |
| `SameRootComplex.WalkUpIff` | mooncake-transfer-engine/tests/topology_test.cpp:178-190 | the truncating walk succeeds if and only if some cut of the path, at its end or at a `/`, is a root complex directory |
| `SameRootComplex.IsSamePcieRootComplex` | mooncake-transfer-engine/tests/topology_test.cpp:154-191 | false for a null bus ID; true only when both bus IDs resolve |
| `SameRootComplex.CommonParentCutsIff` | mooncake-transfer-engine/tests/topology_test.cpp:173-188 | a non-empty common parent has a root complex cut if and only if one root complex directory lies at or above both paths |
| `SameRootComplex.IsSamePcieRootComplexIff` | mooncake-transfer-engine/tests/topology_test.cpp:154-191 | once both resolve, true if and only if both device paths lie below one root complex directory |
| `NameLists.RemoveAll` | mooncake-transfer-engine/tests/topology_test.cpp:413-429 | removes every occurrence of a name and keeps every other occurrence |
| `NameLists.RemoveAllAppend` | mooncake-transfer-engine/tests/topology_test.cpp:413-429 | removal works piecewise over concatenation, so the names kept stay in order |
| `NameLists.Dedup` | mooncake-transfer-engine/tests/topology_test.cpp:34-70 | a duplicate-free list with exactly the names of its input |
| `NameLists.DedupSnoc` | mooncake-transfer-engine/tests/topology_test.cpp:34-46 | one more name extends the deduplicated list exactly when the name is new |
| `NameLists.DedupOfDistinctList` | mooncake-transfer-engine/tests/topology_test.cpp:48-56 | a list without duplicates is its own deduplication |
| `NameLists.DedupAppendSeen` | mooncake-transfer-engine/tests/topology_test.cpp:34-46 | appending names that already occur leaves the deduplication unchanged |
| `NameLists.FirstIndex` | mooncake-transfer-engine/tests/topology_test.cpp:34-70 | the first position holding a name |
| `NameLists.DedupFirstSeenOrder` | mooncake-transfer-engine/tests/topology_test.cpp:58-70 | deduplicated names keep the order of their first occurrences |
| `NameLists.DedupRemoveAllCommute` | mooncake-transfer-engine/tests/topology_test.cpp:413-429 | removing then deduplicating equals deduplicating then removing |
| `NameLists.IndexOf` | mooncake-transfer-engine/tests/topology_test.cpp:82-96 | the unique position of a name in a duplicate-free list |
| `Affinity.AllNames` | mooncake-transfer-engine/tests/topology_test.cpp:34-56 | a name is listed if and only if some entry holds it |
| `Affinity.Registry` | mooncake-transfer-engine/tests/topology_test.cpp:34-70 | `getHcaList`: no duplicates, and a name is registered if and only if some entry holds it |
| `Affinity.RegistryFirstSeenOrder` | mooncake-transfer-engine/tests/topology_test.cpp:58-70 | registered names are in order of first appearance in the matrix |
| `Affinity.RegistrySize` | mooncake-transfer-engine/tests/topology_test.cpp:34-56 | the registry size is the number of distinct names |
| `Affinity.Lookup` | mooncake-transfer-engine/tests/topology_test.cpp:72-80 | finds an entry exactly when a row has the key, and returns that row's entry |
| `Affinity.MatrixView` | mooncake-transfer-engine/tests/topology_test.cpp:72-80 | `getMatrix`: one map entry per row, carrying the row's entry, and the same size as the matrix |
| `Affinity.KeySetSize` | mooncake-transfer-engine/tests/topology_test.cpp:386-394 | a matrix with distinct keys has as many keys as rows |
| `Affinity.Clear` | mooncake-transfer-engine/tests/topology_test.cpp:19 | `clear` leaves an empty matrix and an empty registry |
| `Affinity.DisableDevice` | mooncake-transfer-engine/tests/topology_test.cpp:413-429 | keys and row order are kept, and both lists of every row lose exactly the disabled name |
| `Affinity.AllNamesAfterDisable` | mooncake-transfer-engine/tests/topology_test.cpp:413-429 | the matrix's names after disabling are the old names without the disabled one |
| `Affinity.RegistryAfterDisable` | mooncake-transfer-engine/tests/topology_test.cpp:413-429 | the new registry is the old one without the name, other devices in the same relative order |
| `Affinity.DisableDeviceIdempotent` | mooncake-transfer-engine/tests/topology_test.cpp:413-429 | disabling twice is disabling once |
| `Selector.Consulted` | mooncake-transfer-engine/tests/topology_test.cpp:98-112 | every name a key consults is registered; a key with a row consults that row's entry; the wildcard, or a key with no row, consults the whole registry as one preferred tier |
| `Selector.Pick` | mooncake-transfer-engine/tests/topology_test.cpp:338-411 | a name is picked exactly when the key has a candidate, and it is a registered candidate |
| `Selector.SelectDevice` | mooncake-transfer-engine/tests/topology_test.cpp:338-411 | an index exists exactly when there is a candidate; it lies within the registry; attempt 0 stays in the first non-empty tier; attempt n picks candidate (n-1) mod T |
| `Selector.RetryWalk` | mooncake-transfer-engine/tests/topology_test.cpp:365-370 | attempts 1..n yield n names |
| `Selector.RetryWalkCoversCandidates` | mooncake-transfer-engine/tests/topology_test.cpp:357-377 | attempts 1..T visit the candidates in order, each position once |
| `Selector.RetryWalkPeriodic` | mooncake-transfer-engine/tests/topology_test.cpp:357-377 | attempts T apart pick the same device; no test retries past the T-th attempt, so the wrap-around is the model's reading of retry n picking candidate (n-1) mod T |
| `Selector.RetryWalkDistinct` | mooncake-transfer-engine/tests/topology_test.cpp:374-376 | within one cycle, distinct attempts pick distinct devices when candidates are distinct |
| `Selector.RetryPicksCandidate` | mooncake-transfer-engine/tests/topology_test.cpp:366-373 | attempt r of the first cycle returns the index of candidate r-1 |
| `Selector.FirstRetryPicksFirstPreferred` | mooncake-transfer-engine/tests/topology_test.cpp:372-373 | attempt 1 picks the first preferred device |
| `Selector.FirstAttemptSupport` | mooncake-transfer-engine/tests/topology_test.cpp:338-355 | a first attempt can pick a device if and only if it is in the first non-empty tier |
| `Selector.WildcardWalksRegistry` | mooncake-transfer-engine/tests/topology_test.cpp:98-112 | for the wildcard, attempt i+1 returns registry index i |
| `TopologyJson.EncodeNames` | mooncake-transfer-engine/tests/topology_test.cpp:17 | item i is the JSON string of name i, and there is one item per name |
| `TopologyJson.Encode` | mooncake-transfer-engine/tests/topology_test.cpp:17 | `toString` writes one object member per row |
| `TopologyJson.DecodeNames` | mooncake-transfer-engine/tests/topology_test.cpp:314-336 | succeeds if and only if every item is a string, and returns the names in order |
| `TopologyJson.DecodeEntry` | mooncake-transfer-engine/tests/topology_test.cpp:314-336 | succeeds if and only if the value is exactly two arrays of strings, and re-encodes to that value |
| `TopologyJson.DecodeMembers` | mooncake-transfer-engine/tests/topology_test.cpp:314-336 | succeeds if and only if keys are distinct and every value is an entry, and re-encodes to the members |
| `TopologyJson.Parse` | mooncake-transfer-engine/tests/topology_test.cpp:314-336 | succeeds (code 0) if and only if the value is well-formed; what it returns re-encodes to the input |
| `TopologyJson.ParseEncode` | mooncake-transfer-engine/tests/topology_test.cpp:17-21 | parsing what `toString` wrote gives back the matrix |
| `TopologyJson.EncodeNamesInjective` | mooncake-transfer-engine/tests/topology_test.cpp:17-21 | different name lists are written differently |
| `TopologyJson.EncodeInjective` | mooncake-transfer-engine/tests/topology_test.cpp:17-21 | different matrices are written differently |
| `TopologyJson.ParseKeepsOrder` | mooncake-transfer-engine/tests/topology_test.cpp:324-335 | row i has the key and lists of member i, in input order |
| `TopologyJson.ParsedKeysDistinct` | mooncake-transfer-engine/tests/topology_test.cpp:388-394 | a parsed matrix has one row per key |
| `Scenarios.RepeatedNameRegisteredOnce` | mooncake-transfer-engine/tests/topology_test.cpp:34-46 | one name repeated four times registers one device |
| `Scenarios.DistinctNamesRegisteredEach` | mooncake-transfer-engine/tests/topology_test.cpp:48-56 | four distinct names register four devices |
| `Scenarios.CrossedNamesRegisteredOnce` | mooncake-transfer-engine/tests/topology_test.cpp:58-70 | two names shared crosswise register two devices |
| `Scenarios.TwoRetriesUseBothDevices` | mooncake-transfer-engine/tests/topology_test.cpp:82-112 | retries 1 and 2 use devices 0 and 1, for the key and for the wildcard |
| `Scenarios.RetriesWalkPreferredThenAvailable` | mooncake-transfer-engine/tests/topology_test.cpp:357-377 | retries 1, 2, 3 use devices 0, 1, 2 |
| `Scenarios.FirstAttemptStaysPreferred` | mooncake-transfer-engine/tests/topology_test.cpp:338-355 | a first attempt returns an index below 2, a preferred device |
| `Scenarios.EmptyPreferredFallsBackToAvailable` | mooncake-transfer-engine/tests/topology_test.cpp:400-411 | with no preferred device, a first attempt returns an available device |
| `Scenarios.DisableFirstPreferred` | mooncake-transfer-engine/tests/topology_test.cpp:413-429 | disabling `mlx5_0` leaves `[["mlx5_1"],["mlx5_2"]]` |
| `Scenarios.ParsedCrossedMatrixNotEmpty` | mooncake-transfer-engine/tests/topology_test.cpp:24-32 | the crossed two-row matrix, written and parsed back, is not empty |
| `Scenarios.ParseTwoTierEntry` | mooncake-transfer-engine/tests/topology_test.cpp:314-336 | the two-tier entry parses with both lists in order |
| `Scenarios.TwoAcceleratorsShareFourDevices` | mooncake-transfer-engine/tests/topology_test.cpp:379-398 | two accelerators over four names register four devices |
| `Scenarios.RootComplexAccepted` | mooncake-transfer-engine/tests/topology_test.cpp:282-307 | `/sys/devices/pci0000:17` and `/sys/devices/pci000a:0b` are root complexes |
| `Scenarios.RootComplexRefused` | mooncake-transfer-engine/tests/topology_test.cpp:290-310 | null, empty, short, wrong-prefix, missing-domain, missing-bus and trailing-slash paths are refused |
| `Scenarios.PartialComponentNotShared` | mooncake-transfer-engine/tests/topology_test.cpp:266-271 | `pci0000:17abc` against `pci0000:17def` shares only `/sys/devices` |
| `Scenarios.LoneRootNotShared` | mooncake-transfer-engine/tests/topology_test.cpp:517-523 | `/` against `/sys` has the empty parent |

## Left out

- `Topology::discover` (line 16) is not modelled. It enumerates NUMA nodes, accelerators and HCAs through sysfs, which is I/O.
- The `snprintf` and `realpath` calls of `isSamePcieRootComplex` are not modelled. They become the `resolve` parameter, which maps the link path to `Some` resolved path or `None`. `PATH_MAX` truncation of the buffers is not modelled.
- RootComplex.IsPciRootComplex: models each `%x` as a strict run of one or more hex digits. `sscanf`'s leading whitespace, sign, `0x` prefix and overflow leniencies are not modelled, so paths such as `/sys/devices/pci 0:1` are refused here but accepted by the C code.
- JSON text is not modelled, only the decoded value. The character-level reader and writer are library code. The text round trip of line 21 also depends on `discover`.
- TopologyJson.Parse: refuses an object with a repeated key. How the JSON library treats repeated keys is not part of this model.
- TopologyJson.Parse: returns `Ok` or a `ParseError` instead of an integer code. Only "0 on success, non-zero on failure" is modelled. The matrix left behind by a failed parse is unspecified, so the model produces none.
- Selector.SelectDevice: the random draw of attempt 0 is an injected `draw` parameter, reduced modulo the tier size. Uniformity of the draw is not modelled; `FirstAttemptSupport` states that every device of the tier can be drawn.
- Affinity.Registry: the matrix is a sequence of rows in JSON member order. `getMatrix` returns an associative container whose iteration order need not be input order. The tests (lines 72-80, 324-328, 386-394) only look rows up by key, so the row order is the model's own choice. Registry indices and the member order `toString` writes (`TopologyJson.Encode`, `TopologyJson.Parse`) rest on it.
- Affinity.Registry: device names are registered in first-seen order, row by row, preferred before available. The tests at lines 41-45, 55, 65-69 and 397 check only the size and the membership of the list, so this order is the model's own choice.
- Selector.SelectDevice: retry n (n at least 1) picks candidate (n-1) mod T of preferred followed by available. The tests at lines 89-111 check only that retries 1 and 2 give the set {0, 1}; the test at lines 372-376 fixes only retry 1 and lets retries 2 and 3 give devices 1 and 2 in either order. The exact order is the model's own choice.
- Selector.SelectDevice: attempt 0 draws only from the first non-empty tier. The test at lines 350-351 allows any of the three devices, so keeping a first attempt on the preferred devices is the model's own choice.
- Selector.SelectDevice: the retry ordinal is a `nat`. Negative ordinals and integer overflow are not modelled.
- Selector.Consulted: the wildcard is taken to be `"*"`, the value of `kWildcardLocation`. The header defining it is not part of this model.
- Selector.Consulted: a key with no row consults the whole registry. This is the model's own choice: the implementation of `selectDevice` is not part of this model, and no test uses a key without a row.
- Affinity.DisableDevice: removes every occurrence of the name. This is the model's own choice: the implementation of `disableDevice` is not part of this model, and the test at lines 413-429 disables a name that occurs once.
- CommonParent.GetCommonParentLength: lengths are counted in characters, not bytes. A C `char` is a byte, so for a path with non-ASCII characters the C code counts UTF-8 bytes where the model counts characters; for `/é/a` against `/é/b` the C code returns 3 and the model 2. Byte strings that are not valid UTF-8 cannot be represented at all. Resolved sysfs paths are ASCII, where the two counts agree.
- Offsets and lengths are unbounded integers. `size_t` cannot wrap for paths that fit in memory.
- Logging (glog), the gtest harness, `main` and concurrency are not modelled.
