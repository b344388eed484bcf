# Watch-event consistency checkers

This project models two offline checkers. Each one reads the trace lines that an instrumented
Kubernetes control plane writes while it propagates watch events. Each asks whether every
checkpoint on the path from etcd to the clients saw the same resourceVersions.

- **eventCheck** (`hack/eventLoad/eventCheck.go`), modelled in the `EventCheck` and `MergeDiff` modules.
  - It parses the lines tagged `eventTracker` into seven-field entries.
  - It collects the pods announced at the watch cache.
  - For each pod, it buckets the integer resourceVersions seen at nine API-server checkpoints and at the
    scheduler's and controller-manager's reflectors. The result is eleven lists.
  - It sorts each list and compares it with the etcd watcher's list, using a two-pointer merge that
    reports the versions that do not pair up.
  - The pods that fail are counted and collected.
- **rvComparor** (`staging/src/k8s.io/apiserver/pkg/rvComparor/main.go`), modelled in the `RvComparor` module.
  - It works on lines tagged `SWAT`, optionally narrowed to one event key.
  - It fills six lists of resourceVersion strings. Some of those lists accept a version only when it is
    larger than everything already there.
  - It sorts the lists and compares five of them with a base list, which is chosen by a
    case-insensitive name.

Shared pieces:

- `Text`:
  - `strings.Split` and its inverse, a join;
  - prefix and substring tests, and upper-casing as far as a comparison with upper-case ASCII names can see it;
  - Go's byte-wise string order;
  - `sort.SearchStrings`;
  - `sort.Strings`, as an insertion sort whose result is proved unique.
- `Numbers`: `strconv.Atoi`, including its 64-bit clamping and its zero-on-error result.
- `Lists`:
  - `AppendIfMissing` / `AppendPodIfMissing`;
  - deduplication;
  - `sort.Ints`.

A panic caused by indexing past the end of a split line becomes a `crashed` result. Log files are
given as sequences of lines.

## Model

| member | source | states |
|---|---|---|
| EventCheck.ParseLine | hack/eventLoad/eventCheck.go:252-266 | a line is kept exactly when field 0 is `eventTracker`; such a line with fewer than eight fields is the index panic; a kept line's entry holds fields 1..7 in order |
| EventCheck.ParseFormat | hack/eventLoad/eventCheck.go:252-266 | every entry whose fields hold no comma is read back unchanged from the line that logs it |
| EventCheck.FormatParse | hack/eventLoad/eventCheck.go:252-266 | a kept line of exactly eight fields is the join of its entry's fields, so parsing loses nothing |
| EventCheck.ReadLines | hack/eventLoad/eventCheck.go:241-269 | the scan panics exactly when some line is a truncated tracker line; the kept lines are the tracker lines before the first such line, in order, and the entries correspond to them one for one |
| EventCheck.KeptLinesAnnouncePods | hack/eventLoad/eventCheck.go:271-287 | every line `readLines` keeps has the fields `getPodsList` reads, and it announces its entry's object exactly when that entry is a watch-cache event on `*core.Pod` |
| EventCheck.GetPodsList | hack/eventLoad/eventCheck.go:271-287 | the result is the deduplication, in order of first appearance, of the pods the lines announce; it has no duplicates and holds exactly the announced pods |
| EventCheck.ApiListIndexLabels | hack/eventLoad/eventCheck.go:294-321 | the dataPoint switch sends each of the twelve labels to its own list among 0..8 and no other label anywhere |
| EventCheck.ApiRoutedMembers | hack/eventLoad/eventCheck.go:289-326 | list k receives exactly the pod's entries whose label routes to k |
| EventCheck.ClientRoutedMembers | hack/eventLoad/eventCheck.go:328-342 | a client list receives exactly the pod's entries whose dataPoint starts with `reflector/watchHandler` |
| EventCheck.ApiRoutedSkipsClientLists | hack/eventLoad/eventCheck.go:289-326 | the API-server fill never touches lists 9 and 10 |
| EventCheck.PodLists.FillForApiServer | hack/eventLoad/eventCheck.go:289-326 | after the loop, each of lists 0..8 is its old contents with the versions of its routed entries appended when missing, each event list has its routed entries appended, and lists 9 and 10 are unchanged |
| EventCheck.PodLists.FillForClient | hack/eventLoad/eventCheck.go:328-342 | only list `listNum` changes: it gains the reflector entries' versions when missing, and its event list gains those entries |
| EventCheck.PodLists.SortAll | hack/eventLoad/eventCheck.go:176-178 | every version list is replaced by its ascending sort; the event lists are unchanged |
| EventCheck.PodLists.CompareLists | hack/eventLoad/eventCheck.go:344-392 | `isSame` holds exactly when every list equals the base list; the returned list is `FalseList` of the lists |
| EventCheck.FalseList | hack/eventLoad/eventCheck.go:344-392 | empty exactly when all lists agree; otherwise the base index comes first, followed by the ascending indices of exactly the lists that differ, never including the base |
| EventCheck.CheckPod | hack/eventLoad/eventCheck.go:171-179 | fresh lists filled from the three logs, sorted and compared pass exactly when the pod is consistent, that is, when all eleven sorted deduplicated version lists equal the etcd watcher's |
| EventCheck.CheckPods | hack/eventLoad/eventCheck.go:170-187 | the failing pods are collected in the order examined, and the count equals their number |
| EventCheck.FilledListsArePodRvLists | hack/eventLoad/eventCheck.go:171-178 | the API-server fill and the two client fills into lists 9 and 10, starting from empty lists and followed by the sort, give the pod's eleven lists as the specification function defines them |
| EventCheck.PodConsistentIffSameVersions | hack/eventLoad/eventCheck.go:170-187 | a pod passes exactly when every checkpoint saw the same set of versions as the etcd watcher, regardless of repeats and order |
| EventCheck.PodRvListsOnlySeeMembers | hack/eventLoad/eventCheck.go:289-342 | logs holding the same entries, in any order and with any repeats, give the same eleven lists |
| EventCheck.AppendEventIfMissing | hack/eventLoad/eventCheck.go:506-513 | the entry is appended exactly when its resourceVersion is not in the separate version list; the old slice stays a prefix |
| EventCheck.GetNewPodNameList | hack/eventLoad/eventCheck.go:537-545 | the result holds exactly the failing pods whose names contain the text, and is no longer than the input |
| EventCheck.GetNewPodNameListKeepsOrder | hack/eventLoad/eventCheck.go:537-545 | the filter keeps the input's order: filtering a concatenation is concatenating the filtered parts, and a single pod is kept exactly when its name contains the text |
| EventCheck.EmptyFilterKeepsAll | hack/eventLoad/eventCheck.go:537-545 | filtering by the empty text keeps the whole list in order |
| EventCheck.FilterIdempotent | hack/eventLoad/eventCheck.go:537-545 | filtering twice by the same text is filtering once |
| Lists.AppendIfMissing | hack/eventLoad/eventCheck.go:486-502 | the old list stays a prefix; the element is present afterwards; the list grows exactly when the element was missing; a duplicate-free list stays duplicate-free |
| Lists.AppendAllIdempotent | hack/eventLoad/eventCheck.go:486-493 | appending the same versions again changes nothing |
| Lists.SortInts | hack/eventLoad/eventCheck.go:176-178 | `sort.Ints` yields an ascending permutation |
| Lists.StrictlyAscendingUnique | hack/eventLoad/eventCheck.go:176-178 | two strictly ascending lists with the same elements are equal, so sorted deduplicated lists compare as sets |
| Numbers.AtoiItoa | hack/eventLoad/eventCheck.go:293 | `strconv.Atoi` reads back every decimal numeral of a value up to the 64-bit maximum |
| Numbers.AtoiSyntaxError | hack/eventLoad/eventCheck.go:293 | a syntax error before any 64-bit overflow reads as 0, since the error is ignored: no digits after an optional sign (the empty version, a lone `+` or `-`), or a non-digit met while the digits before it still fit in 64 bits |
| Numbers.AtoiShortSyntaxError | hack/eventLoad/eventCheck.go:332 | a non-digit after at most nineteen digits and an optional sign makes the version read as 0 |
| Numbers.AtoiOverflowFirst | hack/eventLoad/eventCheck.go:293 | once the digits scanned exceed 64 bits the version is clamped to the int64 bound of its sign, even if a non-digit follows |
| Numbers.AtoiNegative | hack/eventLoad/eventCheck.go:332 | a minus sign before a written number within int64 reads as its negation |
| Numbers.AtoiClamps | hack/eventLoad/eventCheck.go:332 | a numeral of any value above the int64 maximum, with or without a minus sign, reads as the nearest int64 bound |
| MergeDiff.CompareWithBase | hack/eventLoad/eventCheck.go:394-483 | `isSame` holds exactly when the two lists are equal; the reported list is `DiffReport`; on ascending inputs that are merged, it is ascending and holds exactly the multiset symmetric difference |
| MergeDiff.SymDiffEmptyIffEqual | hack/eventLoad/eventCheck.go:394-483 | the merge reports nothing exactly when the two lists are identical |
| MergeDiff.SymDiffMultiset | hack/eventLoad/eventCheck.go:394-483 | on ascending lists, the merge reports each version that one side holds more often than the other, once for each extra copy |
| MergeDiff.SymDiffSorted | hack/eventLoad/eventCheck.go:394-483 | on ascending lists the report is ascending |
| MergeDiff.EmptySideReports | hack/eventLoad/eventCheck.go:394-483 | with `eventdiff` an empty side reports the whole other list; without it, an empty side reports nothing |
| MergeDiff.DuplicateSurplusReported | hack/eventLoad/eventCheck.go:394-483 | a version held twice in the base and once in the current list is reported once |
| MergeDiff.ReportIsSymmetricDifference | hack/eventLoad/eventCheck.go:394-483 | for ascending inputs, either with `eventdiff` or when both sides are non-empty, the report is the ascending multiset symmetric difference |
| RvComparor.BaseNum | staging/src/k8s.io/apiserver/pkg/rvComparor/main.go:35-51 | the index is below 6; a known name, upper-cased, selects its own list; any other name selects list 0 |
| RvComparor.BaseNumOfName | staging/src/k8s.io/apiserver/pkg/rvComparor/main.go:36-48 | each of the six names selects its own list |
| RvComparor.BaseNumAnyCase | staging/src/k8s.io/apiserver/pkg/rvComparor/main.go:36 | any spelling whose upper case is a list's name selects that list |
| RvComparor.ClassifyLine | staging/src/k8s.io/apiserver/pkg/rvComparor/main.go:106-109 | a line is used only when field 0 is `SWAT`, it has at least five fields, and with an event key its field 3 equals the key; a line without `SWAT` is skipped |
| RvComparor.ClassifySwatLine | staging/src/k8s.io/apiserver/pkg/rvComparor/main.go:106-109 | a well-formed trace line is used, giving its checkpoint and version, exactly when there is no key or the key matches; otherwise it is skipped |
| RvComparor.GuardedAppendAscending | staging/src/k8s.io/apiserver/pkg/rvComparor/main.go:112-114 | the `SearchStrings` guard appends exactly when the version is larger than every version held, so guarded lists stay strictly ascending |
| RvComparor.OutOfOrderDropped | staging/src/k8s.io/apiserver/pkg/rvComparor/main.go:112-114 | the guard compares strings: after "9", version "10" is dropped |
| RvComparor.GuardedAppendAllAscending | staging/src/k8s.io/apiserver/pkg/rvComparor/main.go:104-131 | a guarded list fed any sequence of versions stays strictly ascending |
| RvComparor.FillRvListsForApiServer | staging/src/k8s.io/apiserver/pkg/rvComparor/main.go:104-131 | the loop panics exactly when some line crashes; up to that line, lists 0 and 3 receive guarded appends, lists 1 and 2 plain appends of their checkpoints' versions, and lists 4 and 5 are unchanged |
| RvComparor.FillRvListsForClient | staging/src/k8s.io/apiserver/pkg/rvComparor/main.go:134-152 | the loop panics exactly when some line crashes; up to that line, only list `listNum` changes, by guarded appends of the reflector versions |
| RvComparor.CompareWithBase | staging/src/k8s.io/apiserver/pkg/rvComparor/main.go:172-187 | the lists are judged the same exactly when they are equal |
| RvComparor.OtherLists | staging/src/k8s.io/apiserver/pkg/rvComparor/main.go:156-160 | the compared indices are exactly those below 6 other than the base, in ascending order |
| RvComparor.CompareLists | staging/src/k8s.io/apiserver/pkg/rvComparor/main.go:154-170 | one verdict per non-base list, in index order, each true exactly when that list equals the base list |
| RvComparor.FillAllLists | staging/src/k8s.io/apiserver/pkg/rvComparor/main.go:53-56 | six fresh empty lists are filled from the API server's, the scheduler's (list 4) and the controller-manager's (list 5) lines; the run panics exactly when one of the three logs has a crashing line, and otherwise the array holds the specification's six lists |
| RvComparor.FillsMakeFilledLists | staging/src/k8s.io/apiserver/pkg/rvComparor/main.go:53-56 | the API-server fill, then the scheduler fill into list 4 and the controller-manager fill into list 5, from empty lists, give the specification's six lists |
| RvComparor.GuardedListsSortUnchanged | staging/src/k8s.io/apiserver/pkg/rvComparor/main.go:58-61 | sorting leaves the guarded lists 0, 3, 4 and 5 as they were |
| RvComparor.SortLists | staging/src/k8s.io/apiserver/pkg/rvComparor/main.go:58-61 | every list in the array is replaced by its `sort.Strings` result |
| RvComparor.Run | staging/src/k8s.io/apiserver/pkg/rvComparor/main.go:35-62 | the run panics exactly when one of the three logs has a crashing line; otherwise it gives five verdicts, for the non-base lists in order, each true exactly when that list holds the same multiset of versions as the base |
| Text.JoinSplit | staging/src/k8s.io/apiserver/pkg/rvComparor/main.go:106 | the fields of `strings.Split` hold no separator, and joining them gives back the line |
| Text.SearchStringsAtEnd | staging/src/k8s.io/apiserver/pkg/rvComparor/main.go:112 | on a strictly ascending list, `SearchStrings` returns the length exactly when the version is larger than every element |
| Text.SortStringsSorted | staging/src/k8s.io/apiserver/pkg/rvComparor/main.go:59 | `sort.Strings` yields an ascending permutation |
| Text.SortedEqualIffSameMultiset | staging/src/k8s.io/apiserver/pkg/rvComparor/main.go:59 | two lists sort to the same result exactly when they hold the same multiset |

## Left out

- Files, flags and output:
  - Opening files, `bufio.Scanner` (and its line-length error), `log.Fatalf`, command-line flags and all printing are left out.
  - Log contents are parameters, each a sequence of lines.
  - This covers the `listtype` / `podName` / `podNameHas` branches inside `compareLists`, which only print.
  - It also covers the print helpers `listEntry4FalsePod`, `listRV4FalsePod`, `printEvents4FalsePods` and `printRV4FalsePods`.
  - It also covers `readLogs`, `readLogsAndFillRVLists4*` and `FilterDirs`, which locate and open log files.
- Panics: an index-out-of-range panic is a `crashed` result or a `Truncated` / `Crash` line kind. No stack unwinding or exit status is modelled.
- Strings are sequences of characters, not bytes.
- `Text.ToUpper` maps ASCII letters and the two non-ASCII letters whose upper case is ASCII (`ı` and `ſ`); it leaves other non-ASCII letters such as `é` unchanged. This cannot change a match against the six ASCII list names.
- Global state: the eleven (eventCheck) and six (rvComparor) lists are global slices in the source. Here they are a `PodLists` object that `CheckPod` creates fresh for each pod, and an array of six `seq<string>` that the run allocates.
- Base list:
  - eventCheck's base-list switch is commented out, and `runEventCheck` always compares against list 0 (hack/eventLoad/eventCheck.go:91). `EventCheck.BaseNum` is that constant; `PodLists.CompareLists` still takes any base index.
  - The usage text of eventCheck names a checkpoint `cacher/add/case3`; the code routes `cacher/add3`, and the model follows the code.
- Sorting: `sort.Ints` and `sort.Strings` are modelled as insertion-sort functions. Their results are the unique ascending permutations, so the choice of algorithm does not show.
- `eventdiff` changes only what `compareWithBase` reports and prints. It is modelled in `MergeDiff.DiffReport`; the verdicts do not depend on it.
- The `eventLists` of the newer checker are filled and proved to hold the routed entries, but the source only prints them, so no verdict depends on them.
- EventCheck.GetPodsList: it requires every sentinel line to have seven fields. The source would panic on a shorter one, but its only caller passes lines that `readLines` kept, and `KeptLinesAnnouncePods` shows those always qualify.
- RvComparor.Run: the verdict compares the sorted lists. It is stated as multiset equality of the filled lists, through `Text.SortedEqualIffSameMultiset`, rather than as the sorted sequences themselves.
