/**
 * The ResourceTiming plugin: the performance entries of the page and of its frames (each frame's
 * times moved onto the top page's clock), filtered and grouped per initiator type, each group's
 * items sorted slowest first, and the result stored in the `restiming` beacon variable.
 *
 * A frame whose `performance` cannot be read (absent, or cross-origin so that reading throws)
 * has `performance == None`; times are whole milliseconds.
 */
module ResourceTiming {
  import opened Wrappers
  import opened JsText
  import opened JsObject
  import opened JsValue
  import opened BoomrUtils
  import opened Sorting
  import opened BoomrCore

  /** The initiator types whose item lists are sorted, in the order they are sorted. */
  const InitiatorTypes: seq<string> := ["other", "img", "link", "script", "css", "xmlhttprequest"]

  /** The eleven timestamps of a performance entry after `startTime`. */
  datatype Marks = Marks(
    redirectStart: int, redirectEnd: int, fetchStart: int,
    domainLookupStart: int, domainLookupEnd: int,
    connectStart: int, secureConnectionStart: int, connectEnd: int,
    requestStart: int, responseStart: int, responseEnd: int)

  /** One performance entry; the page's own entry has no initiator type. */
  datatype PerfEntry = PerfEntry(name: string, initiatorType: Option<string>, startTime: int, marks: Marks)

  /** `performance.timing`: `navigationStart` and the same eleven timestamps, on the epoch clock. */
  datatype NavTiming = NavTiming(navigationStart: int, marks: Marks)

  /** What a frame's `performance` object offers. */
  datatype Performance = Performance(
    timing: Option<NavTiming>,
    hasGetEntriesByType: bool,
    navigation: seq<Marks>,
    resources: seq<PerfEntry>)

  /** A window: its `performance`, `location.href` and child `frames`. */
  datatype Frame = Frame(performance: Option<Performance>, href: string, frames: seq<Frame>)

  /** `x ? x + delta : 0`: a zero timestamp means "did not happen" and stays zero. */
  function ShiftMark(x: int, delta: int): (r: int)
    ensures x == 0 ==> r == 0
    ensures x != 0 ==> r - delta == x
  {
    if x != 0 then x + delta else 0
  }

  function ShiftMarks(m: Marks, delta: int): Marks {
    Marks(
      ShiftMark(m.redirectStart, delta), ShiftMark(m.redirectEnd, delta), ShiftMark(m.fetchStart, delta),
      ShiftMark(m.domainLookupStart, delta), ShiftMark(m.domainLookupEnd, delta),
      ShiftMark(m.connectStart, delta), ShiftMark(m.secureConnectionStart, delta), ShiftMark(m.connectEnd, delta),
      ShiftMark(m.requestStart, delta), ShiftMark(m.responseStart, delta), ShiftMark(m.responseEnd, delta))
  }

  /** No timestamp lands exactly on zero when moved by `delta`. */
  predicate ShiftKeepsNonZero(m: Marks, delta: int) {
    (m.redirectStart == 0 || m.redirectStart + delta != 0) &&
    (m.redirectEnd == 0 || m.redirectEnd + delta != 0) &&
    (m.fetchStart == 0 || m.fetchStart + delta != 0) &&
    (m.domainLookupStart == 0 || m.domainLookupStart + delta != 0) &&
    (m.domainLookupEnd == 0 || m.domainLookupEnd + delta != 0) &&
    (m.connectStart == 0 || m.connectStart + delta != 0) &&
    (m.secureConnectionStart == 0 || m.secureConnectionStart + delta != 0) &&
    (m.connectEnd == 0 || m.connectEnd + delta != 0) &&
    (m.requestStart == 0 || m.requestStart + delta != 0) &&
    (m.responseStart == 0 || m.responseStart + delta != 0) &&
    (m.responseEnd == 0 || m.responseEnd + delta != 0)
  }

  /** Moving onto another clock and back restores the timestamps, unless one of them hit zero on the way. */
  lemma ShiftMarksInverse(m: Marks, delta: int)
    requires ShiftKeepsNonZero(m, delta)
    ensures ShiftMarks(ShiftMarks(m, delta), -delta) == m
  {
  }

  /** `getNavStartTime(frame)`: a truthy `performance.timing.navigationStart`, otherwise 0. */
  function NavStart(f: Frame): (r: int)
    ensures f.performance.None? ==> r == 0
    ensures r != 0 ==> f.performance.Some? && f.performance.value.timing.Some? && f.performance.value.timing.value.navigationStart == r
  {
    if f.performance.Some? && f.performance.value.timing.Some? && f.performance.value.timing.value.navigationStart != 0
    then f.performance.value.timing.value.navigationStart
    else 0
  }

  /** `trimTiming(time, startTime)`: 0 stays 0, any other time becomes relative to `startTime`. */
  function TrimTiming(time: int, startTime: int): (r: int)
    ensures time == 0 ==> r == 0
    ensures time != 0 ==> r + startTime == time
  {
    if time == 0 then 0 else time - startTime
  }

  /** A frame's offset onto the top page's clock: only a child that started later than its parent is moved. */
  function ChildOffset(parentNavStart: int, child: Frame, offset: int): (r: int)
    ensures NavStart(child) > parentNavStart ==> r == offset + (NavStart(child) - parentNavStart)
    ensures NavStart(child) <= parentNavStart ==> r == 0
  {
    var c := NavStart(child);
    if c > parentNavStart then offset + (c - parentNavStart) else 0
  }

  /** The entry for the top page: its navigation entry if there is exactly one, else one built from `performance.timing`. */
  function PageEntry(f: Frame): (r: seq<PerfEntry>)
    requires f.performance.Some?
    ensures |r| <= 1
    ensures forall e :: e in r ==> e.name == f.href && e.initiatorType.None? && e.startTime == 0
  {
    var p := f.performance.value;
    if |p.navigation| == 1 then [PerfEntry(f.href, None, 0, p.navigation[0])]
    else if p.timing.Some? then [PerfEntry(f.href, None, 0, ShiftMarks(p.timing.value.marks, -p.timing.value.navigationStart))]
    else []
  }

  /** A frame's resource entries moved by `offset`. */
  function ShiftedResources(rs: seq<PerfEntry>, offset: int): (r: seq<PerfEntry>)
    ensures |r| == |rs|
    ensures forall i :: 0 <= i < |rs| ==>
      r[i].name == rs[i].name && r[i].initiatorType == rs[i].initiatorType && r[i].startTime == rs[i].startTime + offset
  {
    seq(|rs|, i requires 0 <= i < |rs| =>
      PerfEntry(rs[i].name, rs[i].initiatorType, rs[i].startTime + offset, ShiftMarks(rs[i].marks, offset)))
  }

  /** `performance.getEntriesByType` can be called on this frame. */
  predicate HasEntriesApi(f: Frame) {
    f.performance.Some? && f.performance.value.hasGetEntriesByType
  }

  /**
   * `findPerformanceEntriesForFrame(frame, isTopWindow, offset, depth)`: the children's entries
   * first, then (for the top window) the page entry, then the frame's own resources; nothing
   * below depth 10.
   */
  function FindEntries(f: Frame, isTop: bool, offset: int, depth: nat): (r: seq<PerfEntry>)
    ensures depth > 10 ==> r == []
    decreases f, 1
  {
    if depth > 10 then []
    else
      var sub := ChildEntries(f, offset, depth, |f.frames|);
      if !HasEntriesApi(f) then sub
      else sub + (if isTop then PageEntry(f) else []) + ShiftedResources(f.performance.value.resources, offset)
  }

  /** The entries of the first `n` child frames, in order. */
  function ChildEntries(f: Frame, offset: int, depth: nat, n: nat): seq<PerfEntry>
    requires n <= |f.frames|
    decreases f, 0, n
  {
    if n == 0 then []
    else
      var child := f.frames[n - 1];
      ChildEntries(f, offset, depth, n - 1) + FindEntries(child, false, ChildOffset(NavStart(f), child, offset), depth + 1)
  }

  /** The frame's own entries: nothing without the entries API, else the page entry (top window only) and its resources. */
  function OwnEntries(f: Frame, isTop: bool, offset: int): seq<PerfEntry> {
    if !HasEntriesApi(f) then []
    else (if isTop then PageEntry(f) else []) + ShiftedResources(f.performance.value.resources, offset)
  }

  /** The entries of child `i`, found on its own clock one level deeper. */
  function ChildBlock(f: Frame, offset: int, depth: nat, i: nat): seq<PerfEntry>
    requires i < |f.frames|
  {
    FindEntries(f.frames[i], false, ChildOffset(NavStart(f), f.frames[i], offset), depth + 1)
  }

  /** The entries of the first `i` children come before those of any later ones. */
  lemma {:induction false} ChildEntriesPrefix(f: Frame, offset: int, depth: nat, i: nat, n: nat)
    requires i <= n <= |f.frames|
    ensures ChildEntries(f, offset, depth, i) <= ChildEntries(f, offset, depth, n)
    decreases n
  {
    if i < n {
      ChildEntriesPrefix(f, offset, depth, i, n - 1);
      assert ChildEntries(f, offset, depth, n) == ChildEntries(f, offset, depth, n - 1) + ChildBlock(f, offset, depth, n - 1);
    }
  }

  /**
   * Children first: the children's entries, in frame order, then the frame's own; each child's
   * entries follow those of the children before it.
   */
  lemma FindEntriesChildrenFirst(f: Frame, isTop: bool, offset: int, depth: nat, i: nat)
    requires depth <= 10 && i < |f.frames|
    ensures FindEntries(f, isTop, offset, depth) == ChildEntries(f, offset, depth, |f.frames|) + OwnEntries(f, isTop, offset)
    ensures ChildEntries(f, offset, depth, i) + ChildBlock(f, offset, depth, i) <= FindEntries(f, isTop, offset, depth)
  {
    ChildEntriesPrefix(f, offset, depth, i + 1, |f.frames|);
    assert ChildEntries(f, offset, depth, i + 1) == ChildEntries(f, offset, depth, i) + ChildBlock(f, offset, depth, i);
  }

  /** How many entries a frame tree contributes, counted independently of any clock offset. */
  function EntryCount(f: Frame, isTop: bool, depth: nat): nat
    decreases f, 1
  {
    if depth > 10 then 0
    else
      ChildCount(f, depth, 0) +
      (if !HasEntriesApi(f) then 0
       else (if isTop then |PageEntry(f)| else 0) + |f.performance.value.resources|)
  }

  /** The entries of the child frames from index `from` on. */
  function ChildCount(f: Frame, depth: nat, from: nat): nat
    requires from <= |f.frames|
    decreases f, 0, |f.frames| - from
  {
    if from == |f.frames| then 0
    else EntryCount(f.frames[from], false, depth + 1) + ChildCount(f, depth, from + 1)
  }

  /** The same entries, whatever the clock offset: only the times differ. */
  predicate SameEntries(a: seq<PerfEntry>, b: seq<PerfEntry>) {
    |a| == |b| && forall i :: 0 <= i < |a| ==> a[i].name == b[i].name && a[i].initiatorType == b[i].initiatorType
  }

  lemma SameEntriesAppend(a: seq<PerfEntry>, b: seq<PerfEntry>, c: seq<PerfEntry>, d: seq<PerfEntry>)
    requires SameEntries(a, b) && SameEntries(c, d)
    ensures SameEntries(a + c, b + d)
  {
  }

  /** A frame tree yields exactly `EntryCount` entries. */
  lemma {:induction false} FindEntriesCount(f: Frame, isTop: bool, offset: int, depth: nat)
    ensures |FindEntries(f, isTop, offset, depth)| == EntryCount(f, isTop, depth)
    decreases f, 1
  {
    if depth <= 10 {
      ChildEntriesCount(f, offset, depth, |f.frames|);
      ChildCountSplit(f, depth, 0, |f.frames|);
    }
  }

  /** The first `n` children yield as many entries as they count. */
  lemma {:induction false} ChildEntriesCount(f: Frame, offset: int, depth: nat, n: nat)
    requires n <= |f.frames|
    ensures |ChildEntries(f, offset, depth, n)| == ChildCount(f, depth, 0) - ChildCount(f, depth, n)
    decreases f, 0, n
  {
    if n > 0 {
      var child := f.frames[n - 1];
      ChildEntriesCount(f, offset, depth, n - 1);
      FindEntriesCount(child, false, ChildOffset(NavStart(f), child, offset), depth + 1);
      ChildCountSplit(f, depth, n - 1, n);
    }
  }

  lemma {:induction false} ChildCountSplit(f: Frame, depth: nat, from: nat, to: nat)
    requires from <= to <= |f.frames|
    ensures from < to ==> ChildCount(f, depth, from) == EntryCount(f.frames[from], false, depth + 1) + ChildCount(f, depth, from + 1)
    ensures to == |f.frames| && from == 0 ==> ChildCount(f, depth, to) == 0
  {
  }

  /** The clock offset never adds, drops or reorders entries. */
  lemma {:induction false} FindEntriesOffsetIndependent(f: Frame, isTop: bool, o1: int, o2: int, depth: nat)
    ensures SameEntries(FindEntries(f, isTop, o1, depth), FindEntries(f, isTop, o2, depth))
    decreases f, 1
  {
    if depth <= 10 {
      ChildEntriesOffsetIndependent(f, o1, o2, depth, |f.frames|);
      if HasEntriesApi(f) {
        var rs := f.performance.value.resources;
        var top := if isTop then PageEntry(f) else [];
        SameEntriesAppend(ChildEntries(f, o1, depth, |f.frames|), ChildEntries(f, o2, depth, |f.frames|), top, top);
        SameEntriesAppend(ChildEntries(f, o1, depth, |f.frames|) + top, ChildEntries(f, o2, depth, |f.frames|) + top,
          ShiftedResources(rs, o1), ShiftedResources(rs, o2));
      }
    }
  }

  lemma {:induction false} ChildEntriesOffsetIndependent(f: Frame, o1: int, o2: int, depth: nat, n: nat)
    requires n <= |f.frames|
    ensures SameEntries(ChildEntries(f, o1, depth, n), ChildEntries(f, o2, depth, n))
    decreases f, 0, n
  {
    if n > 0 {
      var child := f.frames[n - 1];
      ChildEntriesOffsetIndependent(f, o1, o2, depth, n - 1);
      FindEntriesOffsetIndependent(child, false, ChildOffset(NavStart(f), child, o1), ChildOffset(NavStart(f), child, o2), depth + 1);
      SameEntriesAppend(ChildEntries(f, o1, depth, n - 1), ChildEntries(f, o2, depth, n - 1),
        FindEntries(child, false, ChildOffset(NavStart(f), child, o1), depth + 1),
        FindEntries(child, false, ChildOffset(NavStart(f), child, o2), depth + 1));
    }
  }

  /** One compressed entry: `{url, t_done, start_at}`. */
  datatype Item = Item(url: string, tDone: int, startAt: int)

  /** One initiator type's `{nb, ordered_items, t_cumulated}`. */
  datatype Group = Group(nb: nat, orderedItems: seq<Item>, tCumulated: int)

  /** What `getResourceTiming` reads besides the entries. */
  datatype Collector = Collector(
    navStart: int,
    scriptUrl: Option<string>,
    configUrl: Option<string>,
    since: Option<int>,
    stripQueryString: bool)

  /** `"" + url`, as `indexOf` converts its argument: a missing URL is searched for as "undefined". */
  function UrlText(url: Option<string>): string {
    if url.Some? then url.value else "undefined"
  }

  /**
   * An entry is kept unless it is an `about:` or `javascript:` URL, contains the script's or the
   * configuration's URL, or (with a truthy `since`) started before `since`.
   */
  predicate Kept(e: PerfEntry, c: Collector) {
    IndexOf(e.name, "about:", 0) != 0 &&
    IndexOf(e.name, "javascript:", 0) != 0 &&
    IndexOf(e.name, UrlText(c.scriptUrl), 0) == -1 &&
    IndexOf(e.name, UrlText(c.configUrl), 0) == -1 &&
    !(IsSet(c.since) && c.navStart + e.startTime < c.since.value)
  }

  /** An entry without an initiator type counts as "other". */
  function TypeOf(e: PerfEntry): string {
    if e.initiatorType.Some? then e.initiatorType.value else "other"
  }

  function ToItem(e: PerfEntry, c: Collector): (it: Item)
    ensures it.startAt == e.startTime
    ensures it.tDone == TrimTiming(e.marks.responseEnd, e.startTime)
  {
    Item(CleanupURL(Some(e.name), c.stripQueryString), TrimTiming(e.marks.responseEnd, e.startTime), TrimTiming(e.startTime, 0))
  }

  /** The groups after adding one kept entry: a new type starts at `{nb: 0, ordered_items: [], t_cumulated: 0}`. */
  function AddToGroup(results: Entries<Group>, t: string, it: Item): Entries<Group> {
    var g := Get(results, t).GetOr(Group(0, [], 0));
    Put(results, t, Group(g.nb + 1, g.orderedItems + [it], g.tCumulated + it.tDone))
  }

  lemma AddToGroupGet(results: Entries<Group>, t: string, it: Item, u: string)
    ensures var g := Get(results, t).GetOr(Group(0, [], 0));
      Get(AddToGroup(results, t, it), u) ==
        if u == t then Some(Group(g.nb + 1, g.orderedItems + [it], g.tCumulated + it.tDone)) else Get(results, u)
  {
  }

  lemma AddToGroupDistinct(results: Entries<Group>, t: string, it: Item)
    requires DistinctKeys(results)
    ensures DistinctKeys(AddToGroup(results, t, it))
  {
    var g := Get(results, t).GetOr(Group(0, [], 0));
    PutDistinct(results, t, Group(g.nb + 1, g.orderedItems + [it], g.tCumulated + it.tDone));
  }

  /** The group of a type whose items so far are `before`, after one more item. */
  lemma GroupStep(results: Entries<Group>, t: string, it: Item, before: seq<Item>)
    requires Get(results, t) == if |before| == 0 then None else Some(Group(|before|, before, SumDone(before)))
    ensures Get(AddToGroup(results, t, it), t) == Some(Group(|before + [it]|, before + [it], SumDone(before + [it])))
  {
    SumDoneSnoc(before, it);
    AddToGroupGet(results, t, it, t);
    if |before| == 0 {
      assert before + [it] == [it];
    }
  }

  /** The groups before sorting, entry by entry. */
  function GroupAll(es: seq<PerfEntry>, c: Collector): Entries<Group>
    decreases |es|
  {
    if |es| == 0 then []
    else
      var prev := GroupAll(es[..|es| - 1], c);
      var e := es[|es| - 1];
      if Kept(e, c) then AddToGroup(prev, TypeOf(e), ToItem(e, c)) else prev
  }

  /** The items of the kept entries of type `t`, in entry order: the reference definition of a group. */
  function ItemsOfType(es: seq<PerfEntry>, c: Collector, t: string): seq<Item>
    decreases |es|
  {
    if |es| == 0 then []
    else
      var e := es[|es| - 1];
      ItemsOfType(es[..|es| - 1], c, t) + (if Kept(e, c) && TypeOf(e) == t then [ToItem(e, c)] else [])
  }

  function SumDone(items: seq<Item>): int
    decreases |items|
  {
    if |items| == 0 then 0 else SumDone(items[..|items| - 1]) + items[|items| - 1].tDone
  }

  lemma SumDoneSnoc(items: seq<Item>, it: Item)
    ensures SumDone(items + [it]) == SumDone(items) + it.tDone
  {
    assert (items + [it])[..|items|] == items;
  }

  /** Each type's group counts its kept entries, lists their items in order and sums their `t_done`. */
  lemma {:induction false} GroupAllSpec(es: seq<PerfEntry>, c: Collector, t: string)
    ensures var items := ItemsOfType(es, c, t);
      Get(GroupAll(es, c), t) == if items == [] then None else Some(Group(|items|, items, SumDone(items)))
    decreases |es|
  {
    if |es| > 0 {
      var n := |es| - 1;
      GroupAllSpec(es[..n], c, t);
      var e := es[n];
      var prev := GroupAll(es[..n], c);
      var before := ItemsOfType(es[..n], c, t);
      if Kept(e, c) && TypeOf(e) == t {
        var it := ToItem(e, c);
        assert ItemsOfType(es, c, t) == before + [it];
        assert GroupAll(es, c) == AddToGroup(prev, t, it);
        GroupStep(prev, t, it, before);
      } else {
        assert ItemsOfType(es, c, t) == before;
        if Kept(e, c) {
          assert GroupAll(es, c) == AddToGroup(prev, TypeOf(e), ToItem(e, c));
          AddToGroupGet(prev, TypeOf(e), ToItem(e, c), t);
        } else {
          assert GroupAll(es, c) == prev;
        }
        assert Get(GroupAll(es, c), t) == Get(prev, t);
      }
    }
  }

  /** Each type appears once. */
  lemma {:induction false} GroupAllDistinct(es: seq<PerfEntry>, c: Collector)
    ensures DistinctKeys(GroupAll(es, c))
    decreases |es|
  {
    if |es| > 0 {
      var n := |es| - 1;
      GroupAllDistinct(es[..n], c);
      var prev := GroupAll(es[..n], c);
      var e := es[n];
      if Kept(e, c) {
        assert GroupAll(es, c) == AddToGroup(prev, TypeOf(e), ToItem(e, c));
        AddToGroupDistinct(prev, TypeOf(e), ToItem(e, c));
      } else {
        assert GroupAll(es, c) == prev;
      }
    }
  }

  function ItemDone(it: Item): int {
    it.tDone
  }

  /** `g` is `before` with its items sorted slowest first when `sorted`, untouched otherwise. */
  predicate Finished(g: Group, before: Group, sorted: bool) {
    g.nb == before.nb && g.tCumulated == before.tCumulated &&
    multiset(g.orderedItems) == multiset(before.orderedItems) &&
    (sorted ==> Descending(g.orderedItems, ItemDone)) &&
    (!sorted ==> g.orderedItems == before.orderedItems)
  }

  /** The first `k` initiator types. */
  predicate SortedType(t: string, k: nat)
    requires k <= |InitiatorTypes|
  {
    t in InitiatorTypes[..k]
  }

  /** Every group of `grouped` is in `results`, sorted if its type is among the first `k` initiator types. */
  ghost predicate SortedUpTo(results: Entries<Group>, grouped: Entries<Group>, k: nat)
    requires k <= |InitiatorTypes|
  {
    Keys(results) == Keys(grouped) && DistinctKeys(results) &&
    forall t :: Has(grouped, t) ==> Get(results, t).Some? && Finished(Get(results, t).value, Get(grouped, t).value, SortedType(t, k))
  }

  /** Replacing the `k`-th initiator type's group by its sorted version advances the invariant. */
  lemma SortStep(results: Entries<Group>, grouped: Entries<Group>, k: nat, next: Group)
    requires k < |InitiatorTypes|
    requires SortedUpTo(results, grouped, k)
    requires Get(results, InitiatorTypes[k]).Some?
    requires var g := Get(results, InitiatorTypes[k]).value;
      next.nb == g.nb && next.tCumulated == g.tCumulated &&
      multiset(next.orderedItems) == multiset(g.orderedItems) && Descending(next.orderedItems, ItemDone)
    ensures SortedUpTo(Put(results, InitiatorTypes[k], next), grouped, k + 1)
  {
    var t := InitiatorTypes[k];
    var r := Put(results, t, next);
    assert Has(results, t) by {
      assert Get(results, t).Some?;
    }
    PutOrder(results, t, next);
    PutDistinct(results, t, next);
    SortedTypeStep(k);
    forall u | Has(grouped, u)
      ensures Get(r, u).Some? && Finished(Get(r, u).value, Get(grouped, u).value, SortedType(u, k + 1))
    {
      if u != t {
        assert SortedType(u, k + 1) == SortedType(u, k);
      }
    }
  }

  /** The `k`-th initiator type is not among the first `k`, and it is the one type the `k + 1` first add. */
  lemma SortedTypeStep(k: nat)
    requires k < |InitiatorTypes|
    ensures !SortedType(InitiatorTypes[k], k)
    ensures forall u :: SortedType(u, k + 1) <==> SortedType(u, k) || u == InitiatorTypes[k]
  {
    assert InitiatorTypes[..k + 1] == InitiatorTypes[..k] + [InitiatorTypes[k]];
  }

  /** The sorting pass over a type's group leaves every type not yet reached as it was. */
  lemma SortSkip(results: Entries<Group>, grouped: Entries<Group>, k: nat)
    requires k < |InitiatorTypes|
    requires SortedUpTo(results, grouped, k)
    requires Get(results, InitiatorTypes[k]).None?
    ensures SortedUpTo(results, grouped, k + 1)
  {
    var t := InitiatorTypes[k];
    assert InitiatorTypes[..k + 1] == InitiatorTypes[..k] + [t];
    assert !Has(grouped, t);
  }

  /** The collection loop of `getResourceTiming`: every kept entry added to its type's group. */
  method CollectGroups(entries: seq<PerfEntry>, c: Collector) returns (results: Entries<Group>)
    ensures results == GroupAll(entries, c)
    ensures DistinctKeys(results)
  {
    results := [];
    var i := 0;
    while i < |entries|
      invariant 0 <= i <= |entries|
      invariant results == GroupAll(entries[..i], c)
    {
      var e := entries[i];
      assert entries[..i + 1][..i] == entries[..i];
      if Kept(e, c) {
        results := AddToGroup(results, TypeOf(e), ToItem(e, c));
      }
      i := i + 1;
    }
    assert entries[..i] == entries;
    GroupAllDistinct(entries, c);
  }

  /** The final pass of `getResourceTiming`: each of the six initiator types' items sorted by `t_done`, slowest first. */
  method SortGroups(grouped: Entries<Group>) returns (results: Entries<Group>)
    requires DistinctKeys(grouped)
    ensures SortedUpTo(results, grouped, |InitiatorTypes|)
  {
    results := grouped;
    var k := 0;
    while k < |InitiatorTypes|
      invariant 0 <= k <= |InitiatorTypes|
      invariant SortedUpTo(results, grouped, k)
    {
      var t := InitiatorTypes[k];
      var g := Get(results, t);
      if g.Some? {
        var items := g.value.orderedItems;
        var a := new Item[|items|](j requires 0 <= j < |items| => items[j]);
        assert a[..] == items;
        SortDescending(a, ItemDone);
        var next := Group(g.value.nb, a[..], g.value.tCumulated);
        SortStep(results, grouped, k, next);
        results := Put(results, t, next);
      } else {
        SortSkip(results, grouped, k);
      }
      k := k + 1;
    }
  }

  /**
   * `getResourceTiming(since)`: the grouped entries of the whole window tree; the six known
   * initiator types have their items sorted by `t_done`, slowest first, others keep entry order.
   */
  method GetResourceTiming(window: Frame, c: Collector) returns (results: Entries<Group>)
    ensures var grouped := GroupAll(FindEntries(window, true, 0, 0), c);
      Keys(results) == Keys(grouped) &&
      forall t :: Has(grouped, t) ==> Get(results, t).Some? && Finished(Get(results, t).value, Get(grouped, t).value, t in InitiatorTypes)
  {
    var entries := FindEntries(window, true, 0, 0);
    if |entries| == 0 {
      return [];
    }
    var grouped := CollectGroups(entries, c);
    results := SortGroups(grouped);
    assert InitiatorTypes[..|InitiatorTypes|] == InitiatorTypes;
  }

  function ItemJson(it: Item): Json {
    JObj([("url", JStr(it.url)), ("t_done", JNum(it.tDone)), ("start_at", JNum(it.startAt))])
  }

  function GroupJson(g: Group): Json {
    JObj([
      ("nb", JNum(g.nb)),
      ("ordered_items", JArr(seq(|g.orderedItems|, i requires 0 <= i < |g.orderedItems| => ItemJson(g.orderedItems[i])))),
      ("t_cumulated", JNum(g.tCumulated))])
  }

  /** The object `done` serialises into the `restiming` variable. */
  function ResultsJson(r: Entries<Group>): (j: Json)
    ensures j.JObj? && |j.fields| == |r|
    ensures forall i :: 0 <= i < |r| ==> j.fields[i] == (r[i].0, GroupJson(r[i].1))
  {
    JObj(seq(|r|, i requires 0 <= i < |r| => (r[i].0, GroupJson(r[i].1))))
  }

  /** Reads one `{url, t_done, start_at}` object back into an item. */
  function ItemOfJson(j: Json): Option<Item> {
    if j.JObj? && |j.fields| == 3 &&
       j.fields[0].0 == "url" && j.fields[0].1.JStr? &&
       j.fields[1].0 == "t_done" && j.fields[1].1.JNum? &&
       j.fields[2].0 == "start_at" && j.fields[2].1.JNum?
    then Some(Item(j.fields[0].1.s, j.fields[1].1.n, j.fields[2].1.n))
    else None
  }

  /** Reads an `ordered_items` array back, failing on the first malformed item. */
  function ItemsOfJson(js: seq<Json>): Option<seq<Item>> {
    if |js| == 0 then Some([])
    else
      match (ItemsOfJson(js[..|js| - 1]), ItemOfJson(js[|js| - 1]))
      case (Some(init), Some(last)) => Some(init + [last])
      case _ => None
  }

  /** Reads one `{nb, ordered_items, t_cumulated}` object back into a group. */
  function GroupOfJson(j: Json): Option<Group> {
    if j.JObj? && |j.fields| == 3 &&
       j.fields[0].0 == "nb" && j.fields[0].1.JNum? && j.fields[0].1.n >= 0 &&
       j.fields[1].0 == "ordered_items" && j.fields[1].1.JArr? &&
       j.fields[2].0 == "t_cumulated" && j.fields[2].1.JNum?
    then
      match ItemsOfJson(j.fields[1].1.items)
      case Some(items) => Some(Group(j.fields[0].1.n, items, j.fields[2].1.n))
      case None => None
    else None
  }

  /** Reads the `restiming` object back, one group per field. */
  function GroupsOfFields(fs: seq<(string, Json)>): Option<Entries<Group>> {
    if |fs| == 0 then Some([])
    else
      match (GroupsOfFields(fs[..|fs| - 1]), GroupOfJson(fs[|fs| - 1].1))
      case (Some(init), Some(last)) => Some(init + [(fs[|fs| - 1].0, last)])
      case _ => None
  }

  /** Every serialised item array reads back to its items. */
  lemma {:induction false} ItemsJsonRoundTrip(items: seq<Item>)
    ensures ItemsOfJson(seq(|items|, i requires 0 <= i < |items| => ItemJson(items[i]))) == Some(items)
  {
    var js := seq(|items|, i requires 0 <= i < |items| => ItemJson(items[i]));
    if |items| > 0 {
      var init := items[..|items| - 1];
      assert js[..|js| - 1] == seq(|init|, i requires 0 <= i < |init| => ItemJson(init[i]));
      ItemsJsonRoundTrip(init);
      assert items == init + [items[|items| - 1]];
    }
  }

  /** A serialised group reads back to itself. */
  lemma GroupJsonRoundTrip(g: Group)
    ensures GroupOfJson(GroupJson(g)) == Some(g)
  {
    var items := g.orderedItems;
    var js := GroupJson(g).fields[1].1.items;
    assert js == seq(|items|, i requires 0 <= i < |items| => ItemJson(items[i]));
    ItemsJsonRoundTrip(items);
  }

  /** The `restiming` value reads back to exactly the groups it was made from: type, count, items and total. */
  lemma {:induction false} ResultsJsonRoundTrip(r: Entries<Group>)
    ensures GroupsOfFields(ResultsJson(r).fields) == Some(r)
  {
    var fs := ResultsJson(r).fields;
    if |r| > 0 {
      var init := r[..|r| - 1];
      var g := r[|r| - 1].1;
      assert fs[..|fs| - 1] == ResultsJson(init).fields;
      ResultsJsonRoundTrip(init);
      assert fs[|fs| - 1] == (r[|r| - 1].0, GroupJson(g));
      GroupJsonRoundTrip(g);
      assert r == init + [r[|r| - 1]];
    }
  }

  /** The subscriptions of `init`, in its order: `done` on page_ready, `xhr_load`, `clearMetrics` on onbeacon, `done` on before_unload. */
  const PluginHandlers: seq<(string, Handler)> := [
    ("page_ready", Handler("ResourceTiming.done", NoData, ScopeObj("ResourceTiming"))),
    ("xhr_load", Handler("ResourceTiming.xhr_load", NoData, ScopeObj("ResourceTiming"))),
    ("onbeacon", Handler("ResourceTiming.clearMetrics", NoData, ScopeObj("ResourceTiming"))),
    ("before_unload", Handler("ResourceTiming.done", NoData, ScopeObj("ResourceTiming")))
  ]

  /** Each of the four names a known, lower-case event and an object scope. */
  lemma PluginHandlersKnown()
    ensures KnownHandlers(PluginHandlers)
  {
    EventNamesLowerCase();
  }

  /** The plugin's `impl`: whether it is done, set up, and supported by the browser. */
  class ResourceTimingPlugin {
    var complete: bool
    var initialized: bool
    var supported: bool

    constructor()
      ensures !complete && !initialized && !supported
    {
      complete := false;
      initialized := false;
      supported := false;
    }

    /** `is_supported()`. */
    predicate IsSupported()
      reads this
    {
      initialized && supported
    }

    /**
     * `init(config)`: once only; when the browser offers `getEntriesByType`, `done` runs on
     * page_ready and before_unload and `xhr_load` on xhr_load; otherwise the plugin is complete
     * at once.
     */
    method Init(core: Boomr, hasEntriesApi: bool)
      requires core.Valid()
      modifies this, core`events, core`immediate
      ensures core.Valid() && initialized
      ensures old(initialized) ==>
        complete == old(complete) && supported == old(supported) && core.events == old(core.events)
      ensures !old(initialized) && hasEntriesApi ==> (
        supported && complete == old(complete) && SubscribedFirst(core.events, PluginHandlers, |PluginHandlers|))
      ensures !old(initialized) && !hasEntriesApi ==>
        complete && supported == old(supported) && core.events == old(core.events)
    {
      if initialized {
        return;
      }
      if hasEntriesApi {
        Register(core);
        supported := true;
      } else {
        complete := true;
      }
      initialized := true;
    }

    /** The four subscriptions `init` makes, all with the plugin's `impl` as scope and no data. */
    static method Register(core: Boomr)
      requires core.Valid()
      modifies core`events, core`immediate
      ensures core.Valid() && SubscribedFirst(core.events, PluginHandlers, |PluginHandlers|)
    {
      PluginHandlersKnown();
      SubscribeNext(core, PluginHandlers, 0);
      SubscribeNext(core, PluginHandlers, 1);
      SubscribeNext(core, PluginHandlers, 2);
      SubscribeNext(core, PluginHandlers, 3);
    }

    /** `xhr_load()`: marks the plugin complete and asks for a beacon, once. */
    method XhrLoad(core: Boomr)
      modifies this`complete, core`beaconUrl, core`beaconQueued, core`immediate
      ensures complete
      ensures old(complete) ==> core.beaconQueued == old(core.beaconQueued) && core.immediate == old(core.immediate)
      ensures !old(complete) ==> (core.beaconQueued &&
        core.immediate == old(core.immediate) + (if old(core.beaconQueued) then [] else [CallRealSendBeacon]))
      ensures core.beaconUrl == old(core.beaconUrl)
    {
      if complete {
        return;
      }
      complete := true;
      var _ := core.SendBeacon(None);
    }

    /**
     * `done()`: once only, replaces the `restiming` variable with the collected groups, marks the
     * plugin complete and asks for a beacon.
     */
    method Done(core: Boomr, window: Frame) returns (ghost results: Entries<Group>)
      modifies this`complete, core`vars, core`beaconUrl, core`beaconQueued, core`immediate
      ensures complete
      ensures old(complete) ==> core.vars == old(core.vars) && core.immediate == old(core.immediate)
      ensures !old(complete) ==>
        core.vars == old(core.vars)["restiming" := ResultsJson(results)] &&
        core.beaconQueued &&
        core.immediate == old(core.immediate) + (if old(core.beaconQueued) then [] else [CallRealSendBeacon])
      ensures !old(complete) ==>
        var c := Collector(NavStart(window), core.config.scriptUrl, core.config.configUrl, None, core.config.stripQueryString);
        var grouped := GroupAll(FindEntries(window, true, 0, 0), c);
        Keys(results) == Keys(grouped) &&
        forall t :: Has(grouped, t) ==> Get(results, t).Some? && Finished(Get(results, t).value, Get(grouped, t).value, t in InitiatorTypes)
    {
      results := [];
      if complete {
        return;
      }
      core.RemoveVar(["restiming"]);
      var c := Collector(NavStart(window), core.config.scriptUrl, core.config.configUrl, None, core.config.stripQueryString);
      var r := GetResourceTiming(window, c);
      results := r;
      core.AddVar("restiming", ResultsJson(r));
      complete := true;
      var _ := core.SendBeacon(None);
    }

    /** `clearMetrics(vars)`: drops `restiming` once the beacon carrying it is sent. */
    method ClearMetrics(core: Boomr, sent: map<string, Json>)
      modifies core`vars
      ensures "restiming" in sent ==> core.vars == old(core.vars) - {"restiming"}
      ensures "restiming" !in sent ==> core.vars == old(core.vars)
    {
      if "restiming" in sent {
        core.RemoveVar(["restiming"]);
      }
    }
  }
}
