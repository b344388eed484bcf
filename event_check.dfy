/**
 * The newer checker, hack/eventLoad/eventCheck.go: trace lines tagged
 * `eventTracker` are parsed into entries, the pods seen at the watch cache are
 * collected, and for every pod the resourceVersions observed at eleven
 * checkpoints are bucketed, sorted and compared with the etcd watcher's list.
 */
module EventCheck {
  import opened Options
  import opened Text
  import opened Numbers
  import opened Lists
  import MergeDiff

  /** `eventTrackerEntry`: the seven fields that follow the sentinel of a trace line. */
  datatype Entry = Entry(dataPoint: string, timestamp: string, eventType: string,
                         namespace: string, objName: string, reflectType: string,
                         resourceVersion: string)

  const Sentinel: string := "eventTracker"

  /** What the per-line step of `readLines` makes of a line. A line whose first field
      is the sentinel but which has fewer than eight fields makes the source index
      past the end of the split result and panic: that is `Truncated`. */
  datatype Parsed = Untracked | Tracked(entry: Entry) | Truncated

  /** The fields of the trace line an entry is read from, sentinel first. */
  function Fields(e: Entry): seq<string> {
    [Sentinel, e.dataPoint, e.timestamp, e.eventType, e.namespace, e.objName, e.reflectType, e.resourceVersion]
  }

  /** The trace line that logs `e`. */
  function FormatLine(e: Entry): string {
    Join(Fields(e), ',')
  }

  predicate CommaFree(e: Entry) {
    forall k :: 0 <= k < 8 ==> ',' !in Fields(e)[k]
  }

  /** Split on commas, keep the line only when field 0 is exactly the sentinel, and
      read fields 1..7 into an entry; fields beyond the eighth are ignored. */
  function ParseLine(line: string): (p: Parsed)
    ensures p.Untracked? <==> Split(line, ',')[0] != Sentinel
    ensures p.Truncated? <==> Split(line, ',')[0] == Sentinel && |Split(line, ',')| < 8
    ensures p.Tracked? ==> Fields(p.entry) == Split(line, ',')[..8]
  {
    var f := Split(line, ',');
    if f[0] != Sentinel then Untracked
    else if |f| < 8 then Truncated
    else Tracked(Entry(f[1], f[2], f[3], f[4], f[5], f[6], f[7]))
  }

  /** Every entry whose fields hold no comma is read back from the line that logs it. */
  lemma ParseFormat(e: Entry)
    requires CommaFree(e)
    ensures ParseLine(FormatLine(e)) == Tracked(e)
  {
    SplitJoin(Fields(e), ',');
    assert Split(FormatLine(e), ',') == Fields(e);
  }

  /** A tracked line of exactly eight fields is the line that logs its own entry. */
  lemma FormatParse(line: string)
    requires ParseLine(line).Tracked? && |Split(line, ',')| == 8
    ensures FormatLine(ParseLine(line).entry) == line
  {
    var f := Split(line, ',');
    JoinSplit(line, ',');
    assert f[..8] == f;
  }

  /** The index of the first line that makes `readLines` panic, or |lines| if none does. */
  function FirstTruncated(lines: seq<string>): (r: nat)
    ensures r <= |lines|
    ensures forall k :: 0 <= k < r ==> !ParseLine(lines[k]).Truncated?
    ensures r < |lines| ==> ParseLine(lines[r]).Truncated?
  {
    if |lines| == 0 then 0
    else if ParseLine(lines[0]).Truncated? then 0
    else 1 + FirstTruncated(lines[1..])
  }

  /** The tracked lines among `lines`, in order. */
  function KeptLines(lines: seq<string>): (kept: seq<string>)
    ensures |kept| <= |lines|
    ensures forall k :: 0 <= k < |kept| ==> ParseLine(kept[k]).Tracked?
    ensures forall l :: l in kept <==> l in lines && ParseLine(l).Tracked?
  {
    if |lines| == 0 then []
    else
      var init := lines[..|lines| - 1];
      var l := lines[|lines| - 1];
      assert lines == init + [l];
      if ParseLine(l).Tracked? then KeptLines(init) + [l] else KeptLines(init)
  }

  /** No line before index `i` makes `readLines` panic. */
  ghost predicate NoneTruncated(lines: seq<string>, i: nat) {
    i <= |lines| && forall k :: 0 <= k < i ==> !ParseLine(lines[k]).Truncated?
  }

  /** Where the panic-free prefix ends, FirstTruncated is. */
  lemma FirstTruncatedIs(lines: seq<string>, i: nat)
    requires NoneTruncated(lines, i)
    requires i < |lines| ==> ParseLine(lines[i]).Truncated?
    ensures FirstTruncated(lines) == i
  {
  }

  /** `entries` are the entries of the tracked lines `kept`, one for one. */
  ghost predicate EntriesOf(entries: seq<Entry>, kept: seq<string>) {
    |entries| == |kept| && forall k :: 0 <= k < |kept| ==> ParseLine(kept[k]) == Tracked(entries[k])
  }

  lemma KeptLinesSnoc(lines: seq<string>, i: nat)
    requires i < |lines|
    ensures KeptLines(lines[..i + 1]) ==
      if ParseLine(lines[i]).Tracked? then KeptLines(lines[..i]) + [lines[i]] else KeptLines(lines[..i])
  {
    assert lines[..i + 1][..i] == lines[..i];
  }

  lemma EntriesOfSnoc(entries: seq<Entry>, kept: seq<string>, line: string)
    requires EntriesOf(entries, kept) && ParseLine(line).Tracked?
    ensures EntriesOf(entries + [ParseLine(line).entry], kept + [line])
  {
  }

  /** The state of `readLines` after the first `i` lines, none of which panicked. */
  ghost predicate ReadSoFar(lines: seq<string>, i: nat, entries: seq<Entry>, kept: seq<string>) {
    NoneTruncated(lines, i) && kept == KeptLines(lines[..i]) && EntriesOf(entries, kept)
  }

  lemma ReadStep(lines: seq<string>, i: nat, entries: seq<Entry>, kept: seq<string>)
    requires ReadSoFar(lines, i, entries, kept) && i < |lines| && !ParseLine(lines[i]).Truncated?
    ensures ParseLine(lines[i]).Tracked? ==>
      ReadSoFar(lines, i + 1, entries + [ParseLine(lines[i]).entry], kept + [lines[i]])
    ensures ParseLine(lines[i]).Untracked? ==> ReadSoFar(lines, i + 1, entries, kept)
  {
    KeptLinesSnoc(lines, i);
    if ParseLine(lines[i]).Tracked? {
      EntriesOfSnoc(entries, kept, lines[i]);
    }
  }

  /** `readLines` on the lines of one log file: the entries of the tracked lines and
      the lines themselves. `crashed` says the source panics; the lists returned then
      are those gathered from the lines before the offending one. */
  method ReadLines(lines: seq<string>) returns (entries: seq<Entry>, kept: seq<string>, crashed: bool)
    ensures crashed <==> FirstTruncated(lines) < |lines|
    ensures kept == KeptLines(lines[..FirstTruncated(lines)])
    ensures EntriesOf(entries, kept)
  {
    entries, kept, crashed := [], [], false;
    var i := 0;
    while i < |lines|
      invariant ReadSoFar(lines, i, entries, kept)
      decreases |lines| - i
    {
      var parsed := ParseLine(lines[i]);
      if parsed.Truncated? {
        FirstTruncatedIs(lines, i);
        crashed := true;
        return;
      }
      ReadStep(lines, i, entries, kept);
      if parsed.Tracked? {
        kept := kept + [lines[i]];
        entries := entries + [parsed.entry];
      }
      i := i + 1;
    }
    FirstTruncatedIs(lines, i);
    assert lines[..i] == lines;
  }

  /** What `getPodsList` demands of its input: a line carrying the sentinel has the
      seven fields it reads. The lines `readLines` keeps always do. */
  predicate PodLineReady(line: string) {
    var f := Split(line, ',');
    f[0] == Sentinel ==> |f| >= 7
  }

  /** The pod a line announces: a watch-cache event on a `*core.Pod`. */
  function PodOf(line: string): Option<string>
    requires PodLineReady(line)
  {
    var f := Split(line, ',');
    if f[0] == Sentinel && f[1] == "watch_cache/processEvent" && f[6] == "*core.Pod" then Some(f[5])
    else None
  }

  /** The pods announced by `lines`, repeats included, in order. */
  function PodCandidates(lines: seq<string>): (pods: seq<string>)
    requires forall k :: 0 <= k < |lines| ==> PodLineReady(lines[k])
    ensures forall p :: p in pods <==> exists k :: 0 <= k < |lines| && PodOf(lines[k]) == Some(p)
  {
    if |lines| == 0 then []
    else
      var init := lines[..|lines| - 1];
      var l := lines[|lines| - 1];
      assert forall k :: 0 <= k < |init| ==> init[k] == lines[k];
      var rest := PodCandidates(init);
      var r := match PodOf(l) case Some(p) => rest + [p] case None => rest;
      assert forall p :: (exists k :: 0 <= k < |lines| && PodOf(lines[k]) == Some(p)) ==> p in r by {
        forall p | exists k :: 0 <= k < |lines| && PodOf(lines[k]) == Some(p) ensures p in r {
          var k :| 0 <= k < |lines| && PodOf(lines[k]) == Some(p);
          if k < |init| {
            assert PodOf(init[k]) == Some(p);
          }
        }
      }
      r
  }

  /** `getPodsList`: every pod announced by the API server's tracked lines, once, in
      the order first seen (`AppendPodIfMissing`). */
  method GetPodsList(apiLogEntries: seq<string>) returns (pods: seq<string>)
    requires forall k :: 0 <= k < |apiLogEntries| ==> PodLineReady(apiLogEntries[k])
    ensures pods == Dedup(PodCandidates(apiLogEntries))
    ensures NoDuplicates(pods)
    ensures forall p :: p in pods <==> exists k :: 0 <= k < |apiLogEntries| && PodOf(apiLogEntries[k]) == Some(p)
  {
    pods := [];
    for i := 0 to |apiLogEntries|
      invariant pods == AppendAllIfMissing([], PodCandidates(apiLogEntries[..i]))
    {
      var line := apiLogEntries[i];
      var prefix := apiLogEntries[..i + 1];
      assert prefix[..i] == apiLogEntries[..i];
      var result := Split(line, ',');
      if result[0] == Sentinel {
        var loc, objName, reflectType := result[1], result[5], result[6];
        if loc == "watch_cache/processEvent" && reflectType == "*core.Pod" {
          pods := AppendIfMissing(pods, objName);
        }
      }
      assert PodCandidates(prefix) == PodCandidates(apiLogEntries[..i]) +
        (match PodOf(line) case Some(p) => [p] case None => []);
    }
    assert apiLogEntries[..|apiLogEntries|] == apiLogEntries;
  }

  /** The lines `readLines` keeps are all fit for `getPodsList`, and the pod such a line
      announces is the object of a watch-cache entry of type `*core.Pod`. */
  lemma KeptLinesAnnouncePods(line: string)
    requires ParseLine(line).Tracked?
    ensures PodLineReady(line)
    ensures var e := ParseLine(line).entry;
      PodOf(line) == if e.dataPoint == "watch_cache/processEvent" && e.reflectType == "*core.Pod"
                     then Some(e.objName) else None
  {
    var f := Split(line, ',');
    assert Fields(ParseLine(line).entry) == f[..8];
  }

  /** The dataPoint labels `fillList4APIServer` routes to lists 0 to 8. */
  const ApiLabels: seq<seq<string>> := [
    ["etcd3/watcher/transform/curObj", "etcd3/watcher/transform/oldObj"],
    ["etcd3/watcher/processEvent"],
    ["watch_cache/processEvent"],
    ["cacher/dispatchEvent"],
    ["cacher/add0"],
    ["cacher/add1", "cacher/add2", "cacher/add3"],
    ["cacher/send0"],
    ["cacher/send1"],
    ["cacher/send2"]
  ]

  /** The switch of `fillList4APIServer`: the list a dataPoint label is routed to. */
  function ApiListIndex(dataPoint: string): (k: Option<nat>)
    ensures k.Some? ==> k.value < 9
  {
    if dataPoint == "etcd3/watcher/transform/curObj" || dataPoint == "etcd3/watcher/transform/oldObj" then Some(0)
    else if dataPoint == "etcd3/watcher/processEvent" then Some(1)
    else if dataPoint == "watch_cache/processEvent" then Some(2)
    else if dataPoint == "cacher/dispatchEvent" then Some(3)
    else if dataPoint == "cacher/add0" then Some(4)
    else if dataPoint == "cacher/add1" || dataPoint == "cacher/add2" || dataPoint == "cacher/add3" then Some(5)
    else if dataPoint == "cacher/send0" then Some(6)
    else if dataPoint == "cacher/send1" then Some(7)
    else if dataPoint == "cacher/send2" then Some(8)
    else None
  }

  /** A known label has exactly the list of its group in ApiLabels; any other label has none. */
  lemma ApiListIndexLabels(dataPoint: string)
    ensures var k := ApiListIndex(dataPoint);
      k.Some? ==> dataPoint in ApiLabels[k.value]
    ensures forall n :: 0 <= n < 9 && dataPoint in ApiLabels[n] ==> ApiListIndex(dataPoint) == Some(n)
  {
  }

  /** The entries of `podName` that `fillList4APIServer` appends to list `k`, in order. */
  function ApiRouted(entries: seq<Entry>, podName: string, k: nat): seq<Entry> {
    if |entries| == 0 then []
    else
      var init := entries[..|entries| - 1];
      var e := entries[|entries| - 1];
      if e.objName == podName && ApiListIndex(e.dataPoint) == Some(k) then ApiRouted(init, podName, k) + [e]
      else ApiRouted(init, podName, k)
  }

  /** List `k` holds exactly the entries of the pod whose label routes there. */
  lemma {:induction false} ApiRoutedMembers(entries: seq<Entry>, podName: string, k: nat)
    ensures forall e :: e in ApiRouted(entries, podName, k) <==>
      e in entries && e.objName == podName && ApiListIndex(e.dataPoint) == Some(k)
  {
    if |entries| > 0 {
      var init := entries[..|entries| - 1];
      assert entries == init + [entries[|entries| - 1]];
      ApiRoutedMembers(init, podName, k);
    }
  }

  const ReflectorLabel: string := "reflector/watchHandler"

  /** The entries of `podName` that `fillList4Client` appends to its list, in order. */
  function ClientRouted(entries: seq<Entry>, podName: string): seq<Entry> {
    if |entries| == 0 then []
    else
      var init := entries[..|entries| - 1];
      var e := entries[|entries| - 1];
      if e.objName == podName && HasPrefix(e.dataPoint, ReflectorLabel) then ClientRouted(init, podName) + [e]
      else ClientRouted(init, podName)
  }

  /** The client list holds exactly the reflector entries of the pod. */
  lemma {:induction false} ClientRoutedMembers(entries: seq<Entry>, podName: string)
    ensures forall e :: e in ClientRouted(entries, podName) <==>
      e in entries && e.objName == podName && HasPrefix(e.dataPoint, ReflectorLabel)
  {
    if |entries| > 0 {
      var init := entries[..|entries| - 1];
      assert entries == init + [entries[|entries| - 1]];
      ClientRoutedMembers(init, podName);
    }
  }

  /** The resourceVersions of some entries as `strconv.Atoi` reads them, errors dropped. */
  function Rvs(es: seq<Entry>): seq<int> {
    seq(|es|, k requires 0 <= k < |es| => Atoi(es[k].resourceVersion))
  }

  /** Appending all of `xs + [x]` is appending all of `xs`, then `x`. */
  lemma AppendAllSnoc(s: seq<int>, xs: seq<int>, x: int)
    ensures AppendAllIfMissing(s, xs + [x]) == AppendIfMissing(AppendAllIfMissing(s, xs), x)
  {
    assert (xs + [x])[..|xs|] == xs;
  }

  /** No API-server label routes to the client lists 9 and 10. */
  lemma {:induction false} ApiRoutedSkipsClientLists(entries: seq<Entry>, podName: string, k: nat)
    requires k >= 9
    ensures ApiRouted(entries, podName, k) == []
  {
    if |entries| > 0 {
      ApiRoutedSkipsClientLists(entries[..|entries| - 1], podName, k);
    }
  }

  /** The lists after `fillList4APIServer` has read `entries`, starting from `rv0`
      and `ev0`: each version list has taken the new versions of its label, each
      event list every entry of its label. */
  ghost predicate ApiFilled(rv: seq<seq<int>>, ev: seq<seq<Entry>>, rv0: seq<seq<int>>, ev0: seq<seq<Entry>>,
                            entries: seq<Entry>, podName: string) {
    |rv| == |ev| == |rv0| == |ev0| == 11 &&
    forall k :: 0 <= k < 11 ==>
      rv[k] == AppendAllIfMissing(rv0[k], Rvs(ApiRouted(entries, podName, k))) &&
      ev[k] == ev0[k] + ApiRouted(entries, podName, k)
  }

  lemma ApiFilledStart(rv: seq<seq<int>>, ev: seq<seq<Entry>>, podName: string)
    requires |rv| == |ev| == 11
    ensures ApiFilled(rv, ev, rv, ev, [], podName)
  {
    forall k | 0 <= k < 11 ensures ev[k] + [] == ev[k] {}
  }

  lemma RvsSnoc(es: seq<Entry>, e: Entry)
    ensures Rvs(es + [e]) == Rvs(es) + [Atoi(e.resourceVersion)]
  {
  }

  /** One more entry extends the routed list of its own label only. */
  lemma ApiRoutedSnoc(entries: seq<Entry>, i: nat, podName: string, k: nat)
    requires i < |entries|
    ensures ApiRouted(entries[..i + 1], podName, k) ==
      if entries[i].objName == podName && ApiListIndex(entries[i].dataPoint) == Some(k)
      then ApiRouted(entries[..i], podName, k) + [entries[i]]
      else ApiRouted(entries[..i], podName, k)
  {
    assert entries[..i + 1][..i] == entries[..i];
  }

  /** Taking one more version into a list built from `routed`. */
  lemma TakeOneMore(s0: seq<int>, e0: seq<Entry>, routed: seq<Entry>, e: Entry)
    ensures AppendIfMissing(AppendAllIfMissing(s0, Rvs(routed)), Atoi(e.resourceVersion)) ==
      AppendAllIfMissing(s0, Rvs(routed + [e]))
    ensures e0 + routed + [e] == e0 + (routed + [e])
  {
    RvsSnoc(routed, e);
    AppendAllSnoc(s0, Rvs(routed), Atoi(e.resourceVersion));
  }

  /** An entry of the pod with a known label is taken into the list of its label. */
  lemma ApiFilledTake(rv: seq<seq<int>>, ev: seq<seq<Entry>>, rv0: seq<seq<int>>, ev0: seq<seq<Entry>>,
                      entries: seq<Entry>, i: nat, podName: string, n: nat)
    requires i < |entries| && ApiFilled(rv, ev, rv0, ev0, entries[..i], podName)
    requires entries[i].objName == podName && ApiListIndex(entries[i].dataPoint) == Some(n)
    ensures ApiFilled(rv[n := AppendIfMissing(rv[n], Atoi(entries[i].resourceVersion))], ev[n := ev[n] + [entries[i]]],
                      rv0, ev0, entries[..i + 1], podName)
  {
    var e := entries[i];
    var rv1, ev1 := rv[n := AppendIfMissing(rv[n], Atoi(e.resourceVersion))], ev[n := ev[n] + [e]];
    forall k | 0 <= k < 11
      ensures rv1[k] == AppendAllIfMissing(rv0[k], Rvs(ApiRouted(entries[..i + 1], podName, k)))
      ensures ev1[k] == ev0[k] + ApiRouted(entries[..i + 1], podName, k)
    {
      ApiRoutedSnoc(entries, i, podName, k);
      if k == n {
        TakeOneMore(rv0[n], ev0[n], ApiRouted(entries[..i], podName, n), e);
      }
    }
  }

  /** Any other entry leaves the lists as they are. */
  lemma ApiFilledSkip(rv: seq<seq<int>>, ev: seq<seq<Entry>>, rv0: seq<seq<int>>, ev0: seq<seq<Entry>>,
                      entries: seq<Entry>, i: nat, podName: string)
    requires i < |entries| && ApiFilled(rv, ev, rv0, ev0, entries[..i], podName)
    requires !(entries[i].objName == podName && ApiListIndex(entries[i].dataPoint).Some?)
    ensures ApiFilled(rv, ev, rv0, ev0, entries[..i + 1], podName)
  {
    forall k | 0 <= k < 11 {
      ApiRoutedSnoc(entries, i, podName, k);
    }
  }

  /** The lists after `fillList4Client` has read `entries` into list `listNum`. */
  ghost predicate ClientFilled(rv: seq<seq<int>>, ev: seq<seq<Entry>>, rv0: seq<seq<int>>, ev0: seq<seq<Entry>>,
                               listNum: nat, entries: seq<Entry>, podName: string) {
    |rv| == |ev| == |rv0| == |ev0| == 11 && listNum < 11 &&
    rv[listNum] == AppendAllIfMissing(rv0[listNum], Rvs(ClientRouted(entries, podName))) &&
    ev[listNum] == ev0[listNum] + ClientRouted(entries, podName) &&
    forall k :: 0 <= k < 11 && k != listNum ==> rv[k] == rv0[k] && ev[k] == ev0[k]
  }

  lemma ClientFilledStart(rv: seq<seq<int>>, ev: seq<seq<Entry>>, listNum: nat, podName: string)
    requires |rv| == |ev| == 11 && listNum < 11
    ensures ClientFilled(rv, ev, rv, ev, listNum, [], podName)
  {
    assert ev[listNum] + [] == ev[listNum];
  }

  /** One more entry extends the client-routed list only when it is a reflector entry of the pod. */
  lemma ClientRoutedSnoc(entries: seq<Entry>, i: nat, podName: string)
    requires i < |entries|
    ensures ClientRouted(entries[..i + 1], podName) ==
      if entries[i].objName == podName && HasPrefix(entries[i].dataPoint, ReflectorLabel)
      then ClientRouted(entries[..i], podName) + [entries[i]]
      else ClientRouted(entries[..i], podName)
  {
    assert entries[..i + 1][..i] == entries[..i];
  }

  /** A reflector entry of the pod is taken into list `listNum`. */
  lemma ClientFilledTake(rv: seq<seq<int>>, ev: seq<seq<Entry>>, rv0: seq<seq<int>>, ev0: seq<seq<Entry>>,
                         listNum: nat, entries: seq<Entry>, i: nat, podName: string)
    requires i < |entries| && ClientFilled(rv, ev, rv0, ev0, listNum, entries[..i], podName)
    requires entries[i].objName == podName && HasPrefix(entries[i].dataPoint, ReflectorLabel)
    ensures ClientFilled(rv[listNum := AppendIfMissing(rv[listNum], Atoi(entries[i].resourceVersion))],
                         ev[listNum := ev[listNum] + [entries[i]]], rv0, ev0, listNum, entries[..i + 1], podName)
  {
    ClientRoutedSnoc(entries, i, podName);
    TakeOneMore(rv0[listNum], ev0[listNum], ClientRouted(entries[..i], podName), entries[i]);
  }

  /** Any other entry leaves the lists as they are. */
  lemma ClientFilledSkip(rv: seq<seq<int>>, ev: seq<seq<Entry>>, rv0: seq<seq<int>>, ev0: seq<seq<Entry>>,
                         listNum: nat, entries: seq<Entry>, i: nat, podName: string)
    requires i < |entries| && ClientFilled(rv, ev, rv0, ev0, listNum, entries[..i], podName)
    requires !(entries[i].objName == podName && HasPrefix(entries[i].dataPoint, ReflectorLabel))
    ensures ClientFilled(rv, ev, rv0, ev0, listNum, entries[..i + 1], podName)
  {
    ClientRoutedSnoc(entries, i, podName);
  }

  /** The per-pod buckets: the package-level `rvLists` and `eventLists` of the source,
      eleven of each, made afresh for every pod. */
  class PodLists {
    var rvLists: seq<seq<int>>
    var eventLists: seq<seq<Entry>>

    ghost predicate Valid()
      reads this
    {
      |rvLists| == 11 && |eventLists| == 11
    }

    /** `make([][]int, 11)` and `make([][]eventTrackerEntry, 11)`. */
    constructor ()
      ensures Valid()
      ensures forall k :: 0 <= k < 11 ==> rvLists[k] == [] && eventLists[k] == []
    {
      rvLists := seq(11, _ => []);
      eventLists := seq(11, _ => []);
    }

    /** `fillList4APIServer`: each entry of `podName` with a known label goes to the
        list of its label; the version list skips a version already present, the
        event list takes every entry. */
    method FillForApiServer(entries: seq<Entry>, podName: string)
      requires Valid()
      modifies this
      ensures Valid()
      ensures ApiFilled(rvLists, eventLists, old(rvLists), old(eventLists), entries, podName)
    {
      ghost var rv0, ev0 := rvLists, eventLists;
      ApiFilledStart(rvLists, eventLists, podName);
      for i := 0 to |entries|
        invariant ApiFilled(rvLists, eventLists, rv0, ev0, entries[..i], podName)
      {
        TakeApiEntry(entries, i, podName, rv0, ev0);
      }
      assert entries[..|entries|] == entries;
    }

    /** The body of the loop of `fillList4APIServer`, for entry `i`. */
    method TakeApiEntry(entries: seq<Entry>, i: nat, podName: string, ghost rv0: seq<seq<int>>, ghost ev0: seq<seq<Entry>>)
      requires i < |entries| && ApiFilled(rvLists, eventLists, rv0, ev0, entries[..i], podName)
      modifies this
      ensures ApiFilled(rvLists, eventLists, rv0, ev0, entries[..i + 1], podName)
    {
      var entry := entries[i];
      if entry.objName == podName {
        var rv := Atoi(entry.resourceVersion);
        match ApiListIndex(entry.dataPoint)
        case Some(n) =>
          ApiFilledTake(rvLists, eventLists, rv0, ev0, entries, i, podName, n);
          rvLists := rvLists[n := AppendIfMissing(rvLists[n], rv)];
          eventLists := eventLists[n := eventLists[n] + [entry]];
        case None =>
          ApiFilledSkip(rvLists, eventLists, rv0, ev0, entries, i, podName);
      } else {
        ApiFilledSkip(rvLists, eventLists, rv0, ev0, entries, i, podName);
      }
    }

    /** `fillList4Client`: the reflector entries of `podName` go to list `listNum`; no
        other list changes. */
    method FillForClient(entries: seq<Entry>, listNum: nat, podName: string)
      requires Valid() && listNum < 11
      modifies this
      ensures Valid()
      ensures ClientFilled(rvLists, eventLists, old(rvLists), old(eventLists), listNum, entries, podName)
    {
      ghost var rv0, ev0 := rvLists, eventLists;
      ClientFilledStart(rvLists, eventLists, listNum, podName);
      for i := 0 to |entries|
        invariant ClientFilled(rvLists, eventLists, rv0, ev0, listNum, entries[..i], podName)
      {
        var entry := entries[i];
        if entry.objName == podName && HasPrefix(entry.dataPoint, ReflectorLabel) {
          ClientFilledTake(rvLists, eventLists, rv0, ev0, listNum, entries, i, podName);
        } else {
          ClientFilledSkip(rvLists, eventLists, rv0, ev0, listNum, entries, i, podName);
        }
        if entry.objName == podName {
          var rv := Atoi(entry.resourceVersion);
          if HasPrefix(entry.dataPoint, ReflectorLabel) {
            rvLists := rvLists[listNum := AppendIfMissing(rvLists[listNum], rv)];
            eventLists := eventLists[listNum := eventLists[listNum] + [entry]];
          }
        }
      }
      assert entries[..|entries|] == entries;
    }

    /** `sort.Ints` applied to every version list. */
    method SortAll()
      requires Valid()
      modifies this
      ensures Valid()
      ensures forall k :: 0 <= k < 11 ==> rvLists[k] == SortInts(old(rvLists[k]))
      ensures eventLists == old(eventLists)
    {
      for n := 0 to 11
        invariant Valid() && eventLists == old(eventLists)
        invariant forall k :: 0 <= k < n ==> rvLists[k] == SortInts(old(rvLists[k]))
        invariant forall k :: n <= k < 11 ==> rvLists[k] == old(rvLists[k])
      {
        rvLists := rvLists[n := SortInts(rvLists[n])];
      }
    }

    /** `compareLists`: every list other than the base is compared with the base by
        `compareWithBase`. The verdict is true exactly when every list equals the
        base; otherwise the returned list is the base index followed by the indices
        of the lists that differ, in ascending order. */
    method CompareLists(baseNum: nat, eventDiff: bool) returns (falseList: seq<nat>, isSame: bool)
      requires Valid() && baseNum < 11
      ensures isSame <==> forall k :: 0 <= k < 11 ==> rvLists[k] == rvLists[baseNum]
      ensures falseList == FalseList(rvLists, baseNum)
    {
      var lists := rvLists;
      isSame := true;
      falseList := [];
      var baseRvList := lists[baseNum];
      for i := 0 to 11
        invariant |lists| == 11
        invariant Compared(lists, baseNum, i, isSame, falseList)
      {
        if i == baseNum {
          ComparedSkip(lists, baseNum, i, isSame, falseList);
          continue;
        }
        var issame, _ := MergeDiff.CompareWithBase(baseRvList, lists[i], eventDiff);
        ComparedStep(lists, baseNum, i, isSame, falseList, issame);
        if !issame {
          if |falseList| == 0 {
            falseList := falseList + [baseNum];
          }
          falseList := falseList + [i];
          isSame := false;
        }
      }
      ComparedAll(lists, baseNum, isSame, falseList);
    }
  }

  lemma FalseListVerdict(lists: seq<seq<int>>, baseNum: nat)
    requires baseNum < |lists|
    ensures Differing(lists, baseNum, |lists|) == [] <==> forall k :: 0 <= k < |lists| ==> lists[k] == lists[baseNum]
    ensures FalseList(lists, baseNum) ==
      if Differing(lists, baseNum, |lists|) == [] then [] else [baseNum] + Differing(lists, baseNum, |lists|)
  {
    var d := Differing(lists, baseNum, |lists|);
    if d != [] {
      var k := d[0];
      assert k in d;
    }
  }

  /** The verdict and the list `compareLists` holds after comparing the lists below `i`. */
  ghost predicate Compared(lists: seq<seq<int>>, baseNum: nat, i: nat, isSame: bool, falseList: seq<nat>)
    requires baseNum < |lists| && i <= |lists|
  {
    (isSame <==> Differing(lists, baseNum, i) == []) &&
    falseList == if isSame then [] else [baseNum] + Differing(lists, baseNum, i)
  }

  /** Once every list is compared, the verdict and the list are those of FalseList. */
  lemma ComparedAll(lists: seq<seq<int>>, baseNum: nat, isSame: bool, falseList: seq<nat>)
    requires baseNum < |lists| && Compared(lists, baseNum, |lists|, isSame, falseList)
    ensures isSame <==> forall k :: 0 <= k < |lists| ==> lists[k] == lists[baseNum]
    ensures falseList == FalseList(lists, baseNum)
  {
    FalseListVerdict(lists, baseNum);
  }

  /** The base itself is passed over. */
  lemma ComparedSkip(lists: seq<seq<int>>, baseNum: nat, i: nat, isSame: bool, falseList: seq<nat>)
    requires baseNum == i < |lists| && Compared(lists, baseNum, i, isSame, falseList)
    ensures Compared(lists, baseNum, i + 1, isSame, falseList)
  {
  }

  /** Comparing list `i`: a difference clears the verdict and records `i`, after the
      base index when it is the first. */
  lemma ComparedStep(lists: seq<seq<int>>, baseNum: nat, i: nat, isSame: bool, falseList: seq<nat>, same: bool)
    requires baseNum < |lists| && i < |lists| && i != baseNum
    requires Compared(lists, baseNum, i, isSame, falseList)
    requires same <==> lists[baseNum] == lists[i]
    ensures same ==> Compared(lists, baseNum, i + 1, isSame, falseList)
    ensures !same ==>
      Compared(lists, baseNum, i + 1, false, (if |falseList| == 0 then falseList + [baseNum] else falseList) + [i])
  {
  }

  /** The indices below `n`, other than the base, of the lists that differ from the
      base, in ascending order. */
  function Differing(lists: seq<seq<int>>, baseNum: nat, n: nat): (ks: seq<nat>)
    requires baseNum < |lists| && n <= |lists|
    ensures forall k: nat :: k in ks <==> k < n && k != baseNum && lists[k] != lists[baseNum]
    ensures forall a, b :: 0 <= a < b < |ks| ==> ks[a] < ks[b]
  {
    if n == 0 then []
    else
      var d := Differing(lists, baseNum, n - 1);
      assert forall a :: 0 <= a < |d| ==> d[a] in d;
      if n - 1 != baseNum && lists[n - 1] != lists[baseNum] then d + [n - 1] else d
  }

  /** The list `compareLists` returns: empty when all lists agree, otherwise the base
      index and then the ascending indices of the differing lists, which never
      include the base. */
  function FalseList(lists: seq<seq<int>>, baseNum: nat): (r: seq<nat>)
    requires baseNum < |lists|
    ensures |r| == 0 <==> forall k :: 0 <= k < |lists| ==> lists[k] == lists[baseNum]
    ensures |r| > 0 ==> r[0] == baseNum && baseNum !in r[1..]
    ensures forall a, b :: 1 <= a < b < |r| ==> r[a] < r[b]
    ensures |r| > 0 ==> forall k: nat :: k in r[1..] <==> k < |lists| && lists[k] != lists[baseNum]
  {
    var d := Differing(lists, baseNum, |lists|);
    if d == [] then
      assert forall k :: 0 <= k < |lists| ==> lists[k] == lists[baseNum] by {
        forall k | 0 <= k < |lists| ensures lists[k] == lists[baseNum] {
          var kn: nat := k;
          assert kn !in d;
        }
      }
      []
    else
      var r := [baseNum] + d;
      assert r[1..] == d;
      var k := d[0];
      assert k in d;
      r
  }

  /** The list that `runEventCheck` compares against: list 0, the etcd watcher, since
      the base-list switch is disabled there. */
  const BaseNum: nat := 0

  /** The entries feeding list `k` for one pod: the API server's for lists 0 to 8,
      the scheduler's reflector for 9, the controller-manager's for 10. */
  function RoutedTo(api: seq<Entry>, scheduler: seq<Entry>, kcm: seq<Entry>, podName: string, k: nat): seq<Entry> {
    if k < 9 then ApiRouted(api, podName, k)
    else if k == 9 then ClientRouted(scheduler, podName)
    else ClientRouted(kcm, podName)
  }

  /** The eleven version lists of one pod once filled and sorted. */
  function PodRvLists(api: seq<Entry>, scheduler: seq<Entry>, kcm: seq<Entry>, podName: string): seq<seq<int>> {
    seq(11, k requires 0 <= k < 11 => SortInts(Dedup(Rvs(RoutedTo(api, scheduler, kcm, podName, k)))))
  }

  /** A pod passes when all eleven lists equal the base list. */
  ghost predicate PodConsistent(api: seq<Entry>, scheduler: seq<Entry>, kcm: seq<Entry>, podName: string) {
    var lists := PodRvLists(api, scheduler, kcm, podName);
    forall k :: 0 <= k < 11 ==> lists[k] == lists[BaseNum]
  }

  /** The pods that fail, in the order examined. */
  ghost function FalsePods(api: seq<Entry>, scheduler: seq<Entry>, kcm: seq<Entry>, pods: seq<string>): seq<string> {
    if |pods| == 0 then []
    else
      var rest := FalsePods(api, scheduler, kcm, pods[..|pods| - 1]);
      if PodConsistent(api, scheduler, kcm, pods[|pods| - 1]) then rest else rest + [pods[|pods| - 1]]
  }

  /** The body of the per-pod loop of `runEventCheck` without its printing: fresh
      lists, filled from the three logs, sorted, and compared with the base. */
  method CheckPod(apiEntries: seq<Entry>, schedulerEntries: seq<Entry>, kcmEntries: seq<Entry>,
                  podName: string, eventDiff: bool)
    returns (isSame: bool)
    ensures isSame <==> PodConsistent(apiEntries, schedulerEntries, kcmEntries, podName)
  {
    var lists := new PodLists();
    ghost var rv0, ev0 := lists.rvLists, lists.eventLists;
    lists.FillForApiServer(apiEntries, podName);
    ghost var rv1, ev1 := lists.rvLists, lists.eventLists;
    lists.FillForClient(schedulerEntries, 9, podName);
    ghost var rv2, ev2 := lists.rvLists, lists.eventLists;
    lists.FillForClient(kcmEntries, 10, podName);
    ghost var rv3, ev3 := lists.rvLists, lists.eventLists;
    lists.SortAll();
    FilledListsArePodRvLists(rv0, ev0, rv1, ev1, rv2, ev2, rv3, ev3, lists.rvLists,
                             apiEntries, schedulerEntries, kcmEntries, podName);
    var falseList;
    falseList, isSame := lists.CompareLists(BaseNum, eventDiff);
  }

  lemma FalsePodsSnoc(api: seq<Entry>, scheduler: seq<Entry>, kcm: seq<Entry>, pods: seq<string>, n: nat)
    requires n < |pods|
    ensures FalsePods(api, scheduler, kcm, pods[..n + 1]) ==
      if PodConsistent(api, scheduler, kcm, pods[n]) then FalsePods(api, scheduler, kcm, pods[..n])
      else FalsePods(api, scheduler, kcm, pods[..n]) + [pods[n]]
  {
    assert pods[..n + 1][..n] == pods[..n];
  }

  /** The per-pod loop of `runEventCheck`: every pod is checked, and the failing ones
      are counted and collected in order. */
  method CheckPods(apiEntries: seq<Entry>, schedulerEntries: seq<Entry>, kcmEntries: seq<Entry>,
                   podsList: seq<string>, eventDiff: bool)
    returns (falsePodsCnt: nat, falsePodList: seq<string>)
    ensures falsePodList == FalsePods(apiEntries, schedulerEntries, kcmEntries, podsList)
    ensures falsePodsCnt == |falsePodList|
  {
    falsePodsCnt, falsePodList := 0, [];
    for n := 0 to |podsList|
      invariant falsePodList == FalsePods(apiEntries, schedulerEntries, kcmEntries, podsList[..n])
      invariant falsePodsCnt == |falsePodList|
    {
      var podName := podsList[n];
      FalsePodsSnoc(apiEntries, schedulerEntries, kcmEntries, podsList, n);
      var isSame := CheckPod(apiEntries, schedulerEntries, kcmEntries, podName, eventDiff);
      if !isSame {
        falsePodsCnt := falsePodsCnt + 1;
        falsePodList := falsePodList + [podName];
      }
    }
    assert podsList[..|podsList|] == podsList;
  }

  /** The three fills from empty lists, then the sort, give the pod's eleven lists. */
  lemma FilledListsArePodRvLists(rv0: seq<seq<int>>, ev0: seq<seq<Entry>>, rv1: seq<seq<int>>, ev1: seq<seq<Entry>>,
                                 rv2: seq<seq<int>>, ev2: seq<seq<Entry>>, rv3: seq<seq<int>>, ev3: seq<seq<Entry>>,
                                 sorted: seq<seq<int>>,
                                 api: seq<Entry>, scheduler: seq<Entry>, kcm: seq<Entry>, podName: string)
    requires |rv0| == 11 && forall k :: 0 <= k < 11 ==> rv0[k] == []
    requires ApiFilled(rv1, ev1, rv0, ev0, api, podName)
    requires ClientFilled(rv2, ev2, rv1, ev1, 9, scheduler, podName)
    requires ClientFilled(rv3, ev3, rv2, ev2, 10, kcm, podName)
    requires |sorted| == 11 && forall k :: 0 <= k < 11 ==> sorted[k] == SortInts(rv3[k])
    ensures sorted == PodRvLists(api, scheduler, kcm, podName)
  {
    ApiRoutedSkipsClientLists(api, podName, 9);
    ApiRoutedSkipsClientLists(api, podName, 10);
    var want := PodRvLists(api, scheduler, kcm, podName);
    forall k | 0 <= k < 11 ensures sorted[k] == want[k] {
      if k == 9 {
        assert rv1[9] == [];
      } else if k == 10 {
        assert rv2[10] == [];
      }
    }
  }

  /** Sorting a deduplicated list keeps exactly its elements, in strictly ascending order. */
  lemma SortedDedupMembers(xs: seq<int>)
    ensures StrictlyAscending(SortInts(Dedup(xs)))
    ensures forall v :: v in SortInts(Dedup(xs)) <==> v in xs
  {
    SortedDedupStrictlyAscending(Dedup(xs));
    forall v ensures v in SortInts(Dedup(xs)) <==> v in Dedup(xs) {
      assert multiset(SortInts(Dedup(xs)))[v] == multiset(Dedup(xs))[v];
    }
  }

  /** Which pods fail: a pod passes exactly when every checkpoint saw the same set of
      resourceVersions as the etcd watcher, however often and in whatever order. */
  lemma PodConsistentIffSameVersions(api: seq<Entry>, scheduler: seq<Entry>, kcm: seq<Entry>, podName: string)
    ensures PodConsistent(api, scheduler, kcm, podName) <==>
      forall k, v :: 0 <= k < 11 ==>
        (v in Rvs(RoutedTo(api, scheduler, kcm, podName, k)) <==> v in Rvs(RoutedTo(api, scheduler, kcm, podName, BaseNum)))
  {
    var lists := PodRvLists(api, scheduler, kcm, podName);
    var base := Rvs(RoutedTo(api, scheduler, kcm, podName, BaseNum));
    SortedDedupMembers(base);
    forall k | 0 <= k < 11
      ensures lists[k] == lists[BaseNum] <==>
        forall v :: v in Rvs(RoutedTo(api, scheduler, kcm, podName, k)) <==> v in base
    {
      var xs := Rvs(RoutedTo(api, scheduler, kcm, podName, k));
      SortedDedupMembers(xs);
      if forall v :: v in xs <==> v in base {
        StrictlyAscendingUnique(lists[k], lists[BaseNum]);
      }
    }
  }

  /** Routed lists with the same members carry the same versions. */
  lemma RvsSameMembers(a: seq<Entry>, b: seq<Entry>)
    requires forall e :: e in a <==> e in b
    ensures forall v :: v in Rvs(a) <==> v in Rvs(b)
  {
    forall v | v in Rvs(a) ensures v in Rvs(b) {
      var k :| 0 <= k < |a| && Rvs(a)[k] == v;
      var e := a[k];
      assert e in b;
      var m :| 0 <= m < |b| && b[m] == e;
      assert Rvs(b)[m] == v;
    }
    forall v | v in Rvs(b) ensures v in Rvs(a) {
      var k :| 0 <= k < |b| && Rvs(b)[k] == v;
      var e := b[k];
      assert e in a;
      var m :| 0 <= m < |a| && a[m] == e;
      assert Rvs(a)[m] == v;
    }
  }

  /** The verdict for a pod depends only on which entries each log holds: reading a
      log twice, or its entries in another order, gives the same eleven lists. */
  lemma PodRvListsOnlySeeMembers(api1: seq<Entry>, scheduler1: seq<Entry>, kcm1: seq<Entry>,
                                 api2: seq<Entry>, scheduler2: seq<Entry>, kcm2: seq<Entry>, podName: string)
    requires forall e :: e in api1 <==> e in api2
    requires forall e :: e in scheduler1 <==> e in scheduler2
    requires forall e :: e in kcm1 <==> e in kcm2
    ensures PodRvLists(api1, scheduler1, kcm1, podName) == PodRvLists(api2, scheduler2, kcm2, podName)
  {
    var l1 := PodRvLists(api1, scheduler1, kcm1, podName);
    var l2 := PodRvLists(api2, scheduler2, kcm2, podName);
    forall k | 0 <= k < 11 ensures l1[k] == l2[k] {
      var r1 := RoutedTo(api1, scheduler1, kcm1, podName, k);
      var r2 := RoutedTo(api2, scheduler2, kcm2, podName, k);
      if k < 9 {
        ApiRoutedMembers(api1, podName, k);
        ApiRoutedMembers(api2, podName, k);
      } else if k == 9 {
        ClientRoutedMembers(scheduler1, podName);
        ClientRoutedMembers(scheduler2, podName);
      } else {
        ClientRoutedMembers(kcm1, podName);
        ClientRoutedMembers(kcm2, podName);
      }
      RvsSameMembers(r1, r2);
      SortedDedupMembers(Rvs(r1));
      SortedDedupMembers(Rvs(r2));
      StrictlyAscendingUnique(l1[k], l2[k]);
    }
  }

  /** `AppendEventIfMissing`: the entry is added unless its resourceVersion is in `rvList`
      (a list kept beside the entries, not the entries themselves). */
  function AppendEventIfMissing(slice: seq<Entry>, rvList: seq<string>, e: Entry): (r: seq<Entry>)
    ensures |slice| <= |r| <= |slice| + 1 && r[..|slice|] == slice
    ensures |r| == |slice| + 1 <==> e.resourceVersion !in rvList
    ensures |r| == |slice| + 1 ==> r[|slice|] == e
  {
    if e.resourceVersion in rvList then slice else slice + [e]
  }

  /** `getNewPodNameList`: the failing pods whose names contain `podNameHas`, in order. */
  function GetNewPodNameList(podNameHas: string, falsePodList: seq<string>): (r: seq<string>)
    ensures |r| <= |falsePodList|
    ensures forall p :: p in r <==> p in falsePodList && Contains(p, podNameHas)
  {
    if |falsePodList| == 0 then []
    else
      var init := falsePodList[..|falsePodList| - 1];
      var p := falsePodList[|falsePodList| - 1];
      assert falsePodList == init + [p];
      if Contains(p, podNameHas) then GetNewPodNameList(podNameHas, init) + [p]
      else GetNewPodNameList(podNameHas, init)
  }

  /** The filter keeps order: it works on each part of a list independently, and keeps
      a single pod exactly when its name contains the text. */
  lemma {:induction false} GetNewPodNameListKeepsOrder(podNameHas: string, a: seq<string>, b: seq<string>)
    ensures GetNewPodNameList(podNameHas, a + b) ==
      GetNewPodNameList(podNameHas, a) + GetNewPodNameList(podNameHas, b)
    ensures |b| == 1 ==>
      GetNewPodNameList(podNameHas, b) == if Contains(b[0], podNameHas) then b else []
  {
    if |b| == 0 {
      assert a + b == a;
    } else {
      var init := b[..|b| - 1];
      assert (a + b)[..|a + b| - 1] == a + init;
      GetNewPodNameListKeepsOrder(podNameHas, a, init);
      if |b| == 1 {
        assert init == [];
      }
    }
  }

  /** Every name contains the empty string, so an empty filter keeps the whole list. */
  lemma {:induction false} EmptyFilterKeepsAll(falsePodList: seq<string>)
    ensures GetNewPodNameList("", falsePodList) == falsePodList
  {
    if |falsePodList| > 0 {
      var init := falsePodList[..|falsePodList| - 1];
      var p := falsePodList[|falsePodList| - 1];
      assert HasPrefix(p[0..], "");
      EmptyFilterKeepsAll(init);
      assert falsePodList == init + [p];
    }
  }

  /** Filtering the result again by the same text changes nothing. */
  lemma {:induction false} FilterIdempotent(podNameHas: string, falsePodList: seq<string>)
    ensures GetNewPodNameList(podNameHas, GetNewPodNameList(podNameHas, falsePodList)) ==
      GetNewPodNameList(podNameHas, falsePodList)
  {
    if |falsePodList| > 0 {
      var init := falsePodList[..|falsePodList| - 1];
      var p := falsePodList[|falsePodList| - 1];
      var r := GetNewPodNameList(podNameHas, init);
      FilterIdempotent(podNameHas, init);
      if Contains(p, podNameHas) {
        assert (r + [p])[..|r + [p]| - 1] == r;
      }
    }
  }
}
