/**
 * The older checker, staging/src/k8s.io/apiserver/pkg/rvComparor/main.go: trace
 * lines tagged `SWAT`, optionally narrowed to one event key, feed six lists of
 * resourceVersion strings, which are compared with a chosen base list.
 */
module RvComparor {
  import opened Text

  /** The names of the six lists, in index order, as the base-list switch spells them. */
  const BaseNames: seq<string> :=
    ["ETCD", "OUTETCD", "INAPISERVER", "OUTAPISERVER", "SCHEDULER", "CONTROLLERMANAGER"]

  /** The base-list switch of `main`: the name is upper-cased and looked up; an
      unknown name (the empty default included) selects list 0. */
  function BaseNum(baseList: string): (n: nat)
    ensures n < |BaseNames|
    ensures ToUpper(baseList) in BaseNames ==> BaseNames[n] == ToUpper(baseList)
    ensures ToUpper(baseList) !in BaseNames ==> n == 0
  {
    var u := ToUpper(baseList);
    if u == "ETCD" then 0
    else if u == "OUTETCD" then 1
    else if u == "INAPISERVER" then 2
    else if u == "OUTAPISERVER" then 3
    else if u == "SCHEDULER" then 4
    else if u == "CONTROLLERMANAGER" then 5
    else 0
  }

  /** Each list is selected by its own name. */
  lemma BaseNumOfName(k: nat)
    requires k < |BaseNames|
    ensures BaseNum(BaseNames[k]) == k
  {
    ToUpperOfUpper(BaseNames[k]);
  }

  /** The case of the name does not matter: any spelling whose upper case is a list's
      name selects that list. */
  lemma BaseNumAnyCase(baseList: string, k: nat)
    requires k < |BaseNames| && ToUpper(baseList) == BaseNames[k]
    ensures BaseNum(baseList) == k
  {
  }

  const SwatSentinel: string := "SWAT"

  /** What a fill loop makes of one line. `Crash` is a line on which the source
      indexes past the end of the split result and panics. */
  datatype LineKind = Skipped | Crash | Swat(checkpoint: string, rv: string)

  /** The test and the reads at the head of both fill loops: field 0 must be `SWAT`;
      with an event key, field 3 is read and must equal it; then field 4 is read
      as the resourceVersion and field 1 as the checkpoint. Go's `&&` and `||` stop
      early, so a short line crashes only once a missing field is actually read. */
  function ClassifyLine(line: string, eventKey: string): (c: LineKind)
    ensures c.Swat? ==> Split(line, ',')[0] == SwatSentinel && |Split(line, ',')| >= 5
    ensures c.Swat? ==> eventKey == "" || Split(line, ',')[3] == eventKey
    ensures Split(line, ',')[0] != SwatSentinel ==> c.Skipped?
  {
    var f := Split(line, ',');
    if f[0] != SwatSentinel then Skipped
    else if eventKey != "" && |f| < 4 then Crash
    else if eventKey != "" && f[3] != eventKey then Skipped
    else if |f| < 5 then Crash
    else Swat(f[1], f[4])
  }

  /** The trace line the instrumented components write: sentinel, checkpoint, a field the
      checker does not read, event key, resourceVersion. */
  function SwatLine(checkpoint: string, other: string, key: string, rv: string): string {
    Join([SwatSentinel, checkpoint, other, key, rv], ',')
  }

  /** A well-formed trace line is read back as its checkpoint and resourceVersion when no
      key is asked for or its key is the one asked for, and skipped otherwise. */
  lemma ClassifySwatLine(checkpoint: string, other: string, key: string, rv: string, eventKey: string)
    requires ',' !in checkpoint && ',' !in other && ',' !in key && ',' !in rv
    ensures eventKey == "" || eventKey == key ==> ClassifyLine(SwatLine(checkpoint, other, key, rv), eventKey) == Swat(checkpoint, rv)
    ensures eventKey != "" && eventKey != key ==> ClassifyLine(SwatLine(checkpoint, other, key, rv), eventKey) == Skipped
  {
    var fields := [SwatSentinel, checkpoint, other, key, rv];
    assert forall k :: 0 <= k < |fields| ==> ',' !in fields[k];
    SplitJoin(fields, ',');
  }

  /** The index of the first line that crashes a fill loop, or |lines| if none does. */
  function FirstCrash(lines: seq<string>, eventKey: string): (r: nat)
    ensures r <= |lines|
    ensures forall k :: 0 <= k < r ==> !ClassifyLine(lines[k], eventKey).Crash?
    ensures r < |lines| ==> ClassifyLine(lines[r], eventKey).Crash?
  {
    if |lines| == 0 then 0
    else if ClassifyLine(lines[0], eventKey).Crash? then 0
    else 1 + FirstCrash(lines[1..], eventKey)
  }

  /** No line before index `i` crashes a fill loop. */
  ghost predicate NoCrash(lines: seq<string>, i: nat, eventKey: string) {
    i <= |lines| && forall k :: 0 <= k < i ==> !ClassifyLine(lines[k], eventKey).Crash?
  }

  /** Where the crash-free prefix ends, FirstCrash is. */
  lemma FirstCrashIs(lines: seq<string>, i: nat, eventKey: string)
    requires NoCrash(lines, i, eventKey)
    requires i < |lines| ==> ClassifyLine(lines[i], eventKey).Crash?
    ensures FirstCrash(lines, eventKey) == i
  {
  }

  /** The resourceVersions of the `SWAT` lines whose checkpoint is in `labels`, in order. */
  function SwatRvs(lines: seq<string>, eventKey: string, labels: seq<string>): seq<string> {
    if |lines| == 0 then []
    else
      var rest := SwatRvs(lines[..|lines| - 1], eventKey, labels);
      var c := ClassifyLine(lines[|lines| - 1], eventKey);
      if c.Swat? && c.checkpoint in labels then rest + [c.rv] else rest
  }

  /** Whether a line contributes its resourceVersion to a list fed by `labels`. */
  predicate Feeds(line: string, eventKey: string, labels: seq<string>) {
    var c := ClassifyLine(line, eventKey);
    c.Swat? && c.checkpoint in labels
  }

  lemma SwatRvsSnoc(before: seq<string>, line: string, eventKey: string, labels: seq<string>)
    ensures SwatRvs(before + [line], eventKey, labels) ==
      if Feeds(line, eventKey, labels) then SwatRvs(before, eventKey, labels) + [ClassifyLine(line, eventKey).rv]
      else SwatRvs(before, eventKey, labels)
  {
    assert (before + [line])[..|before|] == before;
  }

  const CurOldLabels: seq<string> := ["etcd3/watcher/transform/curObj", "etcd3/watcher/transform/oldObj"]
  const ProcessEventLabels: seq<string> := ["etcd3/watcher/processEvent"]
  const WatchCacheLabels: seq<string> := ["watch_cache/processEvent"]
  const SendLabels: seq<string> := ["cacher/sendWatchCacheEvent"]
  const ReflectorLabels: seq<string> := ["reflector/watchHandler"]

  /** The guarded append: `x` is added only when `sort.SearchStrings` places it past
      the end of the list. */
  function GuardedAppend(s: seq<string>, x: string): (r: seq<string>)
    ensures r == s || r == s + [x]
  {
    if SearchStrings(s, x) == |s| then s + [x] else s
  }

  /** On an ascending list the guard admits exactly the versions above every version
      already kept, and the list stays strictly ascending. */
  lemma GuardedAppendAscending(s: seq<string>, x: string)
    requires StrictlyAscendingStrings(s)
    ensures StrictlyAscendingStrings(GuardedAppend(s, x))
    ensures GuardedAppend(s, x) == s + [x] <==> forall k :: 0 <= k < |s| ==> Less(s[k], x)
  {
    SearchStringsAtEnd(s, x);
    if |s| > 0 && GuardedAppend(s, x) == s {
      assert |s + [x]| != |s|;
    }
  }

  /** Versions arriving out of string order are dropped: "10" after "9" is lost. */
  lemma OutOfOrderDropped()
    ensures GuardedAppend(["9"], "10") == ["9"]
  {
    assert Less("10", "9");
    GuardedAppendAscending(["9"], "10");
  }

  /** The guarded list after taking `xs` one after another. */
  function GuardedAppendAll(s: seq<string>, xs: seq<string>): seq<string> {
    if |xs| == 0 then s
    else GuardedAppend(GuardedAppendAll(s, xs[..|xs| - 1]), xs[|xs| - 1])
  }

  lemma GuardedAppendAllSnoc(s: seq<string>, xs: seq<string>, x: string)
    ensures GuardedAppendAll(s, xs + [x]) == GuardedAppend(GuardedAppendAll(s, xs), x)
  {
    assert (xs + [x])[..|xs|] == xs;
  }

  /** A guarded list never loses its order or gains a duplicate, whatever arrives. */
  lemma {:induction false} GuardedAppendAllAscending(s: seq<string>, xs: seq<string>)
    requires StrictlyAscendingStrings(s)
    ensures StrictlyAscendingStrings(GuardedAppendAll(s, xs))
  {
    if |xs| > 0 {
      GuardedAppendAllAscending(s, xs[..|xs| - 1]);
      GuardedAppendAscending(GuardedAppendAll(s, xs[..|xs| - 1]), xs[|xs| - 1]);
    }
  }

  /** A guarded list built from `l0` by the lines read so far. */
  ghost predicate GuardedFed(l: seq<string>, l0: seq<string>, lines: seq<string>, eventKey: string, labels: seq<string>) {
    l == GuardedAppendAll(l0, SwatRvs(lines, eventKey, labels))
  }

  /** A plain list built from `l0` by the lines read so far. */
  ghost predicate PlainFed(l: seq<string>, l0: seq<string>, lines: seq<string>, eventKey: string, labels: seq<string>) {
    l == l0 + SwatRvs(lines, eventKey, labels)
  }

  lemma GuardedFedStep(l: seq<string>, l0: seq<string>, before: seq<string>, line: string, eventKey: string, labels: seq<string>)
    requires GuardedFed(l, l0, before, eventKey, labels)
    ensures Feeds(line, eventKey, labels) ==>
      GuardedFed(GuardedAppend(l, ClassifyLine(line, eventKey).rv), l0, before + [line], eventKey, labels)
    ensures !Feeds(line, eventKey, labels) ==> GuardedFed(l, l0, before + [line], eventKey, labels)
  {
    SwatRvsSnoc(before, line, eventKey, labels);
    if Feeds(line, eventKey, labels) {
      GuardedAppendAllSnoc(l0, SwatRvs(before, eventKey, labels), ClassifyLine(line, eventKey).rv);
    }
  }

  lemma PlainFedStep(l: seq<string>, l0: seq<string>, before: seq<string>, line: string, eventKey: string, labels: seq<string>)
    requires PlainFed(l, l0, before, eventKey, labels)
    ensures Feeds(line, eventKey, labels) ==>
      PlainFed(l + [ClassifyLine(line, eventKey).rv], l0, before + [line], eventKey, labels)
    ensures !Feeds(line, eventKey, labels) ==> PlainFed(l, l0, before + [line], eventKey, labels)
  {
    SwatRvsSnoc(before, line, eventKey, labels);
    if Feeds(line, eventKey, labels) {
      assert l0 + SwatRvs(before, eventKey, labels) + [ClassifyLine(line, eventKey).rv] ==
        l0 + (SwatRvs(before, eventKey, labels) + [ClassifyLine(line, eventKey).rv]);
    }
  }

  /** What the API-server fill has done once it has read `lines`: lists 0 and 3 are
      guarded, lists 1 and 2 take every version, and nothing else changes. */
  ghost predicate ApiServerFilled(rv: seq<seq<string>>, rv0: seq<seq<string>>, lines: seq<string>, eventKey: string) {
    |rv| == |rv0| >= 4 &&
    GuardedFed(rv[0], rv0[0], lines, eventKey, CurOldLabels) &&
    PlainFed(rv[1], rv0[1], lines, eventKey, ProcessEventLabels) &&
    PlainFed(rv[2], rv0[2], lines, eventKey, WatchCacheLabels) &&
    GuardedFed(rv[3], rv0[3], lines, eventKey, SendLabels) &&
    forall k :: 4 <= k < |rv| ==> rv[k] == rv0[k]
  }

  /** What one line does to the lists in the API-server fill. */
  function ApiServerStep(rv: seq<seq<string>>, c: LineKind): seq<seq<string>>
    requires |rv| >= 4
  {
    if !c.Swat? then rv
    else if c.checkpoint in CurOldLabels then rv[0 := GuardedAppend(rv[0], c.rv)]
    else if c.checkpoint in ProcessEventLabels then rv[1 := rv[1] + [c.rv]]
    else if c.checkpoint in WatchCacheLabels then rv[2 := rv[2] + [c.rv]]
    else if c.checkpoint in SendLabels then rv[3 := GuardedAppend(rv[3], c.rv)]
    else rv
  }

  /** Reading one more line in the API-server fill. */
  lemma ApiServerFilledStep(rv: seq<seq<string>>, rv0: seq<seq<string>>, before: seq<string>, line: string, eventKey: string)
    requires ApiServerFilled(rv, rv0, before, eventKey)
    ensures ApiServerFilled(ApiServerStep(rv, ClassifyLine(line, eventKey)), rv0, before + [line], eventKey)
  {
    var c := ClassifyLine(line, eventKey);
    GuardedFedStep(rv[0], rv0[0], before, line, eventKey, CurOldLabels);
    PlainFedStep(rv[1], rv0[1], before, line, eventKey, ProcessEventLabels);
    PlainFedStep(rv[2], rv0[2], before, line, eventKey, WatchCacheLabels);
    GuardedFedStep(rv[3], rv0[3], before, line, eventKey, SendLabels);
    if c.Swat? {
      LabelsDisjoint(c.checkpoint);
    }
  }

  /** The checkpoints of the four lists are distinct. */
  lemma LabelsDisjoint(x: string)
    ensures x in CurOldLabels ==> x !in ProcessEventLabels && x !in WatchCacheLabels && x !in SendLabels
    ensures x in ProcessEventLabels ==> x !in WatchCacheLabels && x !in SendLabels
    ensures x in WatchCacheLabels ==> x !in SendLabels
  {
  }

  /** The checkpoint switch of `fillRVList4APIServer` for one trace line. */
  method FeedApiServerLine(rvLists: array<seq<string>>, checkpoint: string, rvStr: string)
    requires 4 <= rvLists.Length
    modifies rvLists
    ensures rvLists[..] == ApiServerStep(old(rvLists[..]), Swat(checkpoint, rvStr))
  {
    if checkpoint == "etcd3/watcher/transform/curObj" || checkpoint == "etcd3/watcher/transform/oldObj" {
      if SearchStrings(rvLists[0], rvStr) == |rvLists[0]| {
        rvLists[0] := rvLists[0] + [rvStr];
      }
    } else if checkpoint == "etcd3/watcher/processEvent" {
      rvLists[1] := rvLists[1] + [rvStr];
    } else if checkpoint == "watch_cache/processEvent" {
      rvLists[2] := rvLists[2] + [rvStr];
    } else if checkpoint == "cacher/sendWatchCacheEvent" {
      if SearchStrings(rvLists[3], rvStr) == |rvLists[3]| {
        rvLists[3] := rvLists[3] + [rvStr];
      }
    }
  }

  /** `fillRVList4APIServer`. `crashed` says the source panics; the lists then hold
      what the lines before the offending one put there. */
  method FillRvListsForApiServer(lines: seq<string>, rvLists: array<seq<string>>, eventKey: string)
    returns (crashed: bool)
    requires 4 <= rvLists.Length
    modifies rvLists
    ensures crashed <==> FirstCrash(lines, eventKey) < |lines|
    ensures ApiServerFilled(rvLists[..], old(rvLists[..]), lines[..FirstCrash(lines, eventKey)], eventKey)
  {
    crashed := false;
    var i := 0;
    assert lines[..0] == [];
    while i < |lines|
      invariant i <= |lines|
      invariant NoCrash(lines, i, eventKey)
      invariant ApiServerFilled(rvLists[..], old(rvLists[..]), lines[..i], eventKey)
    {
      var line := lines[i];
      assert lines[..i + 1] == lines[..i] + [line];
      ApiServerFilledStep(rvLists[..], old(rvLists[..]), lines[..i], line, eventKey);
      var c := ClassifyLine(line, eventKey);
      if c.Crash? {
        FirstCrashIs(lines, i, eventKey);
        crashed := true;
        return;
      }
      if c.Swat? {
        FeedApiServerLine(rvLists, c.checkpoint, c.rv);
      }
      i := i + 1;
    }
    FirstCrashIs(lines, i, eventKey);
    assert lines[..i] == lines;
  }

  /** What the client fill has done to list `listNum` once it has read `lines`: only
      the reflector checkpoint feeds it, through the guard; no other list changes. */
  ghost predicate ClientFilled(rv: seq<seq<string>>, rv0: seq<seq<string>>, listNum: nat, lines: seq<string>, eventKey: string) {
    |rv| == |rv0| && listNum < |rv| &&
    GuardedFed(rv[listNum], rv0[listNum], lines, eventKey, ReflectorLabels) &&
    forall k :: 0 <= k < |rv| && k != listNum ==> rv[k] == rv0[k]
  }

  /** What one line does to the lists in the client fill. */
  function ClientStep(rv: seq<seq<string>>, listNum: nat, c: LineKind): seq<seq<string>>
    requires listNum < |rv|
  {
    if c.Swat? && c.checkpoint in ReflectorLabels then rv[listNum := GuardedAppend(rv[listNum], c.rv)]
    else rv
  }

  lemma ClientFilledStep(rv: seq<seq<string>>, rv0: seq<seq<string>>, listNum: nat, before: seq<string>, line: string, eventKey: string)
    requires ClientFilled(rv, rv0, listNum, before, eventKey)
    ensures ClientFilled(ClientStep(rv, listNum, ClassifyLine(line, eventKey)), rv0, listNum, before + [line], eventKey)
  {
    GuardedFedStep(rv[listNum], rv0[listNum], before, line, eventKey, ReflectorLabels);
  }

  /** `fillRVList4Client`: the versions at the reflector checkpoint go through the
      guard into list `listNum`; other trace lines are only printed. */
  method FillRvListsForClient(lines: seq<string>, rvLists: array<seq<string>>, listNum: nat, eventKey: string)
    returns (crashed: bool)
    requires listNum < rvLists.Length
    modifies rvLists
    ensures crashed <==> FirstCrash(lines, eventKey) < |lines|
    ensures ClientFilled(rvLists[..], old(rvLists[..]), listNum, lines[..FirstCrash(lines, eventKey)], eventKey)
  {
    crashed := false;
    var i := 0;
    assert lines[..0] == [];
    while i < |lines|
      invariant i <= |lines|
      invariant NoCrash(lines, i, eventKey)
      invariant ClientFilled(rvLists[..], old(rvLists[..]), listNum, lines[..i], eventKey)
    {
      var line := lines[i];
      assert lines[..i + 1] == lines[..i] + [line];
      ClientFilledStep(rvLists[..], old(rvLists[..]), listNum, lines[..i], line, eventKey);
      var c := ClassifyLine(line, eventKey);
      if c.Crash? {
        FirstCrashIs(lines, i, eventKey);
        crashed := true;
        return;
      }
      if c.Swat? && c.checkpoint == "reflector/watchHandler" {
        if SearchStrings(rvLists[listNum], c.rv) == |rvLists[listNum]| {
          rvLists[listNum] := rvLists[listNum] + [c.rv];
        }
      }
      i := i + 1;
    }
    FirstCrashIs(lines, i, eventKey);
    assert lines[..i] == lines;
  }

  /** `compareWithBase`: lengths first, then element by element; the lists are the
      same exactly when they are equal. */
  method CompareWithBase(baseRvList: seq<string>, currRvList: seq<string>) returns (same: bool)
    ensures same <==> baseRvList == currRvList
  {
    if |baseRvList| != |currRvList| {
      return false;
    }
    var i := 0;
    while i < |baseRvList|
      invariant i <= |baseRvList|
      invariant baseRvList[..i] == currRvList[..i]
    {
      if baseRvList[i] != currRvList[i] {
        return false;
      }
      assert baseRvList[..i + 1] == baseRvList[..i] + [baseRvList[i]];
      assert currRvList[..i + 1] == currRvList[..i] + [currRvList[i]];
      i := i + 1;
    }
    assert baseRvList[..i] == baseRvList && currRvList[..i] == currRvList;
    return true;
  }

  /** One line of the comparison report: list `list` is or is not the same as the base. */
  datatype Verdict = Verdict(list: nat, same: bool)

  /** The lists below `n` other than the base, in ascending order. */
  function OtherLists(baseNum: nat, n: nat): (r: seq<nat>)
    ensures forall k: nat :: k in r <==> k < n && k != baseNum
    ensures forall i :: 0 <= i < |r| ==> r[i] < n
    ensures forall i, j :: 0 <= i < j < |r| ==> r[i] < r[j]
    ensures |r| == if baseNum < n then n - 1 else n
  {
    if n == 0 then []
    else if n - 1 == baseNum then OtherLists(baseNum, n - 1)
    else OtherLists(baseNum, n - 1) + [n - 1]
  }

  /** `compareLists`: every list other than the base, in order, is compared with it. */
  method CompareLists(rvLists: array<seq<string>>, baseNum: nat) returns (verdicts: seq<Verdict>)
    requires baseNum < rvLists.Length && 6 <= rvLists.Length
    ensures |verdicts| == |OtherLists(baseNum, 6)|
    ensures forall j :: 0 <= j < |verdicts| ==> verdicts[j].list == OtherLists(baseNum, 6)[j]
    ensures forall j :: 0 <= j < |verdicts| ==>
      (verdicts[j].same <==> rvLists[verdicts[j].list] == rvLists[baseNum])
  {
    var baseList := rvLists[baseNum];
    verdicts := [];
    for i := 0 to 6
      invariant |verdicts| == |OtherLists(baseNum, i)|
      invariant forall j :: 0 <= j < |verdicts| ==> verdicts[j].list == OtherLists(baseNum, i)[j]
      invariant forall j :: 0 <= j < |verdicts| ==>
        verdicts[j].list < rvLists.Length && (verdicts[j].same <==> rvLists[verdicts[j].list] == baseList)
    {
      if i == baseNum {
        continue;
      }
      var same := CompareWithBase(baseList, rvLists[i]);
      verdicts := verdicts + [Verdict(i, same)];
    }
  }

  /** A fill loop panics on some line of `lines`. */
  predicate CrashesOn(lines: seq<string>, eventKey: string) {
    FirstCrash(lines, eventKey) < |lines|
  }

  /** The six lists as the three logs fill them, before sorting: lists 0 and 3 keep
      only versions above every one kept so far, lists 1 and 2 keep every version,
      and lists 4 and 5 take the reflector versions of the scheduler and the
      controller-manager through the same guard. */
  function FilledLists(apiLines: seq<string>, schedLines: seq<string>, cmLines: seq<string>, eventKey: string): (rv: seq<seq<string>>)
    ensures |rv| == 6
  {
    [GuardedAppendAll([], SwatRvs(apiLines, eventKey, CurOldLabels)),
     SwatRvs(apiLines, eventKey, ProcessEventLabels),
     SwatRvs(apiLines, eventKey, WatchCacheLabels),
     GuardedAppendAll([], SwatRvs(apiLines, eventKey, SendLabels)),
     GuardedAppendAll([], SwatRvs(schedLines, eventKey, ReflectorLabels)),
     GuardedAppendAll([], SwatRvs(cmLines, eventKey, ReflectorLabels))]
  }

  /** The three fills, one after the other, from six empty lists produce FilledLists. */
  lemma FillsMakeFilledLists(rv0: seq<seq<string>>, rv1: seq<seq<string>>, rv2: seq<seq<string>>, rv3: seq<seq<string>>,
                             apiLines: seq<string>, schedLines: seq<string>, cmLines: seq<string>, eventKey: string)
    requires |rv0| == 6 && forall k :: 0 <= k < 6 ==> rv0[k] == []
    requires ApiServerFilled(rv1, rv0, apiLines, eventKey)
    requires ClientFilled(rv2, rv1, 4, schedLines, eventKey)
    requires ClientFilled(rv3, rv2, 5, cmLines, eventKey)
    ensures rv3 == FilledLists(apiLines, schedLines, cmLines, eventKey)
  {
    var f := FilledLists(apiLines, schedLines, cmLines, eventKey);
    assert rv3[1] == rv0[1] + SwatRvs(apiLines, eventKey, ProcessEventLabels);
    assert rv3[2] == rv0[2] + SwatRvs(apiLines, eventKey, WatchCacheLabels);
    assert forall k :: 0 <= k < 6 ==> rv3[k] == f[k];
  }

  /** The guarded lists are strictly ascending already, so `sort.Strings` leaves
      them as they are; only lists 1 and 2 can be reordered by it. */
  lemma GuardedListsSortUnchanged(apiLines: seq<string>, schedLines: seq<string>, cmLines: seq<string>, eventKey: string, k: nat)
    requires k in [0, 3, 4, 5]
    ensures var rv := FilledLists(apiLines, schedLines, cmLines, eventKey);
      StrictlyAscendingStrings(rv[k]) && SortStrings(rv[k]) == rv[k]
  {
    var rv := FilledLists(apiLines, schedLines, cmLines, eventKey);
    var xs := if k == 0 then SwatRvs(apiLines, eventKey, CurOldLabels)
      else if k == 3 then SwatRvs(apiLines, eventKey, SendLabels)
      else if k == 4 then SwatRvs(schedLines, eventKey, ReflectorLabels)
      else SwatRvs(cmLines, eventKey, ReflectorLabels);
    assert rv[k] == GuardedAppendAll([], xs);
    GuardedAppendAllAscending([], xs);
    SortAscending(rv[k]);
  }

  /** The lists `main` builds (`make` and the two `readLogsAndFill…` calls): six
      empty lists, then the API-server log, then the scheduler log into list 4 and
      the controller-manager log into list 5. A panic in any fill stops the run. */
  method FillAllLists(apiLines: seq<string>, schedLines: seq<string>, cmLines: seq<string>, eventKey: string)
    returns (crashed: bool, rvLists: array<seq<string>>)
    ensures rvLists.Length == 6 && fresh(rvLists)
    ensures crashed <==> CrashesOn(apiLines, eventKey) || CrashesOn(schedLines, eventKey) || CrashesOn(cmLines, eventKey)
    ensures !crashed ==> rvLists[..] == FilledLists(apiLines, schedLines, cmLines, eventKey)
  {
    rvLists := new seq<string>[6](_ => []);
    ghost var rv0 := rvLists[..];
    crashed := FillRvListsForApiServer(apiLines, rvLists, eventKey);
    if crashed {
      return;
    }
    assert apiLines[..FirstCrash(apiLines, eventKey)] == apiLines;
    ghost var rv1 := rvLists[..];
    crashed := FillRvListsForClient(schedLines, rvLists, 4, eventKey);
    if crashed {
      return;
    }
    assert schedLines[..FirstCrash(schedLines, eventKey)] == schedLines;
    ghost var rv2 := rvLists[..];
    crashed := FillRvListsForClient(cmLines, rvLists, 5, eventKey);
    if crashed {
      return;
    }
    assert cmLines[..FirstCrash(cmLines, eventKey)] == cmLines;
    FillsMakeFilledLists(rv0, rv1, rv2, rvLists[..], apiLines, schedLines, cmLines, eventKey);
  }

  /** Every list sorted. */
  function SortEach(rv: seq<seq<string>>): (r: seq<seq<string>>)
    ensures |r| == |rv| && forall m :: 0 <= m < |rv| ==> r[m] == SortStrings(rv[m])
  {
    if |rv| == 0 then [] else SortEach(rv[..|rv| - 1]) + [SortStrings(rv[|rv| - 1])]
  }

  /** The `sort.Strings` loop of `main`: every list is sorted in place. */
  method SortLists(rvLists: array<seq<string>>)
    modifies rvLists
    ensures rvLists[..] == SortEach(old(rvLists[..]))
  {
    ghost var before := rvLists[..];
    for k := 0 to rvLists.Length
      invariant rvLists[..] == SortEach(before[..k]) + before[k..]
    {
      SortEachStep(before, k, rvLists[..]);
      rvLists[k] := SortStrings(rvLists[k]);
    }
    assert before[..rvLists.Length] == before;
  }

  lemma SortEachStep(before: seq<seq<string>>, k: nat, cur: seq<seq<string>>)
    requires k < |before| && cur == SortEach(before[..k]) + before[k..]
    ensures cur[k := SortStrings(cur[k])] == SortEach(before[..k + 1]) + before[k + 1..]
  {
    assert before[..k + 1] == before[..k] + [before[k]];
  }

  /** `main` after the flags: fill the six lists from the three logs, sort each, and
      compare every list with the base. A list is reported the same as the base
      exactly when the two hold the same resourceVersions the same number of times.
      When a fill panics, nothing is reported. */
  method Run(apiLines: seq<string>, schedLines: seq<string>, cmLines: seq<string>, eventKey: string, baseList: string)
    returns (crashed: bool, verdicts: seq<Verdict>)
    ensures crashed <==> CrashesOn(apiLines, eventKey) || CrashesOn(schedLines, eventKey) || CrashesOn(cmLines, eventKey)
    ensures crashed ==> verdicts == []
    ensures !crashed ==> |verdicts| == 5
    ensures !crashed ==> forall j :: 0 <= j < |verdicts| ==>
      verdicts[j].list == OtherLists(BaseNum(baseList), 6)[j]
    ensures !crashed ==> forall j :: 0 <= j < |verdicts| ==>
      var rv := FilledLists(apiLines, schedLines, cmLines, eventKey);
      verdicts[j].list < 6 &&
      (verdicts[j].same <==> multiset(rv[verdicts[j].list]) == multiset(rv[BaseNum(baseList)]))
  {
    verdicts := [];
    var rvLists;
    crashed, rvLists := FillAllLists(apiLines, schedLines, cmLines, eventKey);
    if crashed {
      return;
    }
    ghost var filled := rvLists[..];
    SortLists(rvLists);
    var baseNum := BaseNum(baseList);
    verdicts := CompareLists(rvLists, baseNum);
    forall j | 0 <= j < |verdicts|
      ensures verdicts[j].same <==> multiset(filled[verdicts[j].list]) == multiset(filled[baseNum])
    {
      SortedEqualIffSameMultiset(filled[verdicts[j].list], filled[baseNum]);
    }
  }
}
