/**
 * The Logmatic reporter's reading of a beacon: `restimingDecoder`, which flattens the `restiming`
 * trie and summarises the resources (count, slowest load time, per-initiator-type tallies and the
 * slowest entries as text), and the loop that parses the RT plugin's `t_other` text back into named
 * timers.
 */
module Logmatic {
  import opened Wrappers
  import opened JsText
  import opened JsObject
  import opened Sorting
  import opened TrieDecoder
  import opened JsValue
  import BoomrUtils
  import RtLogic

  /** The default of `number_of_worst_entries`: how many of the slowest resources are reported. */
  const DefaultWorstEntries := 10

  /** The initiator types, indexed by the digit that starts each compressed resource timing. */
  const Types: seq<string> := ["other", "img", "link", "script", "css", "xmlhttprequest"]

  /** `types[leaf.charAt(0)]`: a digit from 0 to 5 names a type; anything else reads `undefined`. */
  function TypeName(leaf: string): string {
    if |leaf| > 0 && '0' <= leaf[0] <= '5' then Types[(leaf[0] - '0') as int] else "undefined"
  }

  /** The comma-separated timers of a leaf: what follows the type digit, up to the first "|". */
  function TimerFields(leaf: string): seq<string> {
    Split(Split(if |leaf| > 0 then leaf[1..] else "", '|')[0], ',')
  }

  /** `timers[1]` parsed in base 36, the resource's load time; `None` when it is missing or not a number. */
  function LoadTime(leaf: string): Option<int> {
    var f := TimerFields(leaf);
    if |f| < 2 then None else ParseInt(f[1], 36)
  }

  /** One decoded resource. */
  datatype Entry = Entry(name: string, kind: string, time: int)

  function TimeOf(e: Entry): int {
    e.time
  }

  /** Every string leaf carries a load time (a leaf without one would make the tallies NaN). */
  predicate Decodable(flat: Entries<Scalar>) {
    forall i :: 0 <= i < |flat| && flat[i].1.Str? ==> LoadTime(flat[i].1.s).Some?
  }

  /** Every leaf is a string, so `charAt` does not throw. */
  predicate AllStrings(flat: Entries<Scalar>) {
    forall i :: 0 <= i < |flat| ==> flat[i].1.Str?
  }

  /** The entry computed for the flattened key `key` and its leaf. */
  function EntryOf(key: string, leaf: string, strip: bool): Entry
    requires LoadTime(leaf).Some?
  {
    Entry(BoomrUtils.CleanupURL(Some(key), strip), TypeName(leaf), LoadTime(leaf).value)
  }

  /** The entries of a flattened trie, in key order. */
  function EntriesOf(flat: Entries<Scalar>, strip: bool): (es: seq<Entry>)
    requires Decodable(flat) && AllStrings(flat)
    ensures |es| == |flat|
  {
    seq(|flat|, i requires 0 <= i < |flat| => EntryOf(flat[i].0, flat[i].1.s, strip))
  }

  /** The largest load time, starting from 0 (`Math.max(entry.time, t_max)` over the entries). */
  function MaxTime(es: seq<Entry>): int {
    if |es| == 0 then 0 else RtLogic.Max(es[|es| - 1].time, MaxTime(es[..|es| - 1]))
  }

  /** The entries of one initiator type, in order. */
  function OfKind(es: seq<Entry>, kind: string): seq<Entry> {
    if |es| == 0 then []
    else OfKind(es[..|es| - 1], kind) + (if es[|es| - 1].kind == kind then [es[|es| - 1]] else [])
  }

  /** `assets[type]`: how many resources of a type, and the slowest of them. */
  datatype TypeStats = TypeStats(nb: nat, tMax: int)

  /** What `assets[kind]` should hold: nothing when no resource has that type. */
  function Stats(es: seq<Entry>, kind: string): Option<TypeStats> {
    var ofKind := OfKind(es, kind);
    if |ofKind| == 0 then None else Some(TypeStats(|ofKind|, MaxTime(ofKind)))
  }

  /** The running totals of the `forEach` loop: `assets.nb`, `assets.t_max` and one object per type. */
  datatype Tally = Tally(nb: nat, tMax: int, byType: Entries<TypeStats>)

  /** One turn of the loop: count the entry and fold its time into the totals and its type's. */
  function Count(t: Tally, e: Entry): Tally {
    var cur := Get(t.byType, e.kind).GetOr(TypeStats(0, 0));
    Tally(t.nb + 1, RtLogic.Max(e.time, t.tMax), Put(t.byType, e.kind, TypeStats(cur.nb + 1, RtLogic.Max(e.time, cur.tMax))))
  }

  /** The totals after the loop has visited `es`. */
  function TallyOf(es: seq<Entry>): Tally {
    if |es| == 0 then Tally(0, 0, []) else Count(TallyOf(es[..|es| - 1]), es[|es| - 1])
  }

  /** The returned `assets`: `nb`, `t_max`, the per-type objects and `worst_entries` (`entries` is unset). */
  datatype Summary = Summary(nb: nat, tMax: int, byType: Entries<TypeStats>, worst: seq<string>)

  /** `item.name + " took " + item.time + " ms"`. */
  function Text(e: Entry): string {
    e.name + " took " + IntToString(e.time) + " ms"
  }

  function Texts(es: seq<Entry>): (r: seq<string>)
    ensures |r| == |es|
  {
    seq(|es|, i requires 0 <= i < |es| => Text(es[i]))
  }

  /** How many entries `slice()` (for -1) or `slice(0, n)` keeps out of `len`. */
  function WorstCount(n: int, len: nat): (c: nat)
    ensures c <= len
    ensures n == -1 ==> c == len
    ensures n >= 0 ==> c == if n < len then n else len
    ensures n < -1 ==> c == if len + n > 0 then len + n else 0
  {
    if n == -1 then len
    else if n >= 0 then (if n < len then n else len)
    else if len + n > 0 then len + n else 0
  }

  /** The load-time maximum is at least 0, bounds every entry, and is reached unless it is 0. */
  lemma {:induction false} MaxTimeSpec(es: seq<Entry>)
    ensures MaxTime(es) >= 0
    ensures forall i :: 0 <= i < |es| ==> es[i].time <= MaxTime(es)
    ensures MaxTime(es) == 0 || exists i :: 0 <= i < |es| && es[i].time == MaxTime(es)
  {
    if |es| > 0 {
      var init := es[..|es| - 1];
      MaxTimeSpec(init);
      forall i | 0 <= i < |es| ensures es[i].time <= MaxTime(es) {
        if i < |init| {
          assert es[i] == init[i];
        }
      }
      if MaxTime(es) != 0 && MaxTime(es) != es[|es| - 1].time {
        var i :| 0 <= i < |init| && init[i].time == MaxTime(init);
        assert es[i] == init[i];
      }
    }
  }

  lemma MaxTimeAppend(es: seq<Entry>, e: Entry)
    ensures MaxTime(es + [e]) == RtLogic.Max(e.time, MaxTime(es))
  {
    assert (es + [e])[..|es|] == es;
  }

  lemma TallyStep(es: seq<Entry>, e: Entry)
    ensures TallyOf(es + [e]) == Count(TallyOf(es), e)
  {
    assert (es + [e])[..|es|] == es;
  }

  /** The loop counts every resource and keeps the slowest load time. */
  lemma {:induction false} TallyTotals(es: seq<Entry>)
    ensures TallyOf(es).nb == |es|
    ensures TallyOf(es).tMax == MaxTime(es)
  {
    if |es| > 0 {
      TallyTotals(es[..|es| - 1]);
    }
  }

  lemma CountDistinct(t: Tally, e: Entry)
    requires DistinctKeys(t.byType)
    ensures DistinctKeys(Count(t, e).byType)
  {
    var cur := Get(t.byType, e.kind).GetOr(TypeStats(0, 0));
    PutDistinct(t.byType, e.kind, TypeStats(cur.nb + 1, RtLogic.Max(e.time, cur.tMax)));
  }

  lemma CountGet(t: Tally, e: Entry, kind: string)
    ensures Get(Count(t, e).byType, kind) ==
      if kind == e.kind then
        var cur := Get(t.byType, e.kind).GetOr(TypeStats(0, 0));
        Some(TypeStats(cur.nb + 1, RtLogic.Max(e.time, cur.tMax)))
      else Get(t.byType, kind)
  {
  }

  lemma CountSum(t: Tally, e: Entry)
    ensures SumNb(Count(t, e).byType) == SumNb(t.byType) + 1
  {
    var cur := Get(t.byType, e.kind).GetOr(TypeStats(0, 0));
    SumNbPut(t.byType, e.kind, TypeStats(cur.nb + 1, RtLogic.Max(e.time, cur.tMax)));
  }

  /** Each type has one object in the totals. */
  lemma {:induction false} TallyDistinct(es: seq<Entry>)
    ensures DistinctKeys(TallyOf(es).byType)
  {
    if |es| > 0 {
      var t := TallyOf(es[..|es| - 1]);
      var e := es[|es| - 1];
      TallyDistinct(es[..|es| - 1]);
      CountDistinct(t, e);
    }
  }

  /**
   * The object of a type counts the resources of that type and keeps the slowest of them; a type
   * no resource has gets no object.
   */
  lemma {:induction false} TallyTypes(es: seq<Entry>, kind: string)
    ensures Get(TallyOf(es).byType, kind) == Stats(es, kind)
  {
    if |es| > 0 {
      var init := es[..|es| - 1];
      var e := es[|es| - 1];
      assert TallyOf(es) == Count(TallyOf(init), e);
      TallyTypes(init, kind);
      CountGet(TallyOf(init), e, kind);
      StatsStep(es, kind);
    }
  }

  /** One more resource counts towards its own type's object and leaves every other type's as it was. */
  lemma StatsStep(es: seq<Entry>, kind: string)
    requires |es| > 0
    ensures var (init, e) := (es[..|es| - 1], es[|es| - 1]);
      Stats(es, kind) ==
        if e.kind == kind then
          var cur := Stats(init, kind).GetOr(TypeStats(0, 0));
          Some(TypeStats(cur.nb + 1, RtLogic.Max(e.time, cur.tMax)))
        else Stats(init, kind)
  {
    var init := es[..|es| - 1];
    var e := es[|es| - 1];
    var o := OfKind(init, kind);
    if e.kind == kind {
      assert OfKind(es, kind) == o + [e];
      MaxTimeAppend(o, e);
      if |o| == 0 {
        assert o == [];
      }
    } else {
      assert OfKind(es, kind) == o;
    }
  }

  /** The per-type counts add up to the number of resources. */
  function SumNb(byType: Entries<TypeStats>): nat {
    if |byType| == 0 then 0 else byType[0].1.nb + SumNb(byType[1..])
  }

  lemma {:induction false} SumNbPut(o: Entries<TypeStats>, k: string, s: TypeStats)
    ensures SumNb(Put(o, k, s)) + Get(o, k).GetOr(TypeStats(0, 0)).nb == SumNb(o) + s.nb
  {
    if |o| > 0 && o[0].0 != k {
      SumNbPut(o[1..], k, s);
      assert Put(o, k, s)[1..] == Put(o[1..], k, s);
    } else if |o| > 0 {
      assert Put(o, k, s)[1..] == o[1..];
    }
  }

  lemma {:induction false} TallySum(es: seq<Entry>)
    ensures SumNb(TallyOf(es).byType) == |es|
  {
    if |es| > 0 {
      var init := es[..|es| - 1];
      var e := es[|es| - 1];
      TallySum(init);
      CountSum(TallyOf(init), e);
    }
  }

  /** Everything the totals of the loop say about the resources. */
  lemma TallySummary(es: seq<Entry>)
    ensures TallyOf(es).nb == |es| && TallyOf(es).tMax == MaxTime(es)
    ensures SumNb(TallyOf(es).byType) == |es|
    ensures DistinctKeys(TallyOf(es).byType)
    ensures forall kind :: Get(TallyOf(es).byType, kind) == Stats(es, kind)
  {
    TallyTotals(es);
    TallyDistinct(es);
    TallySum(es);
    forall kind ensures Get(TallyOf(es).byType, kind) == Stats(es, kind) {
      TallyTypes(es, kind);
    }
  }

  /** What the returned summary of the entries `es` holds, `sorted` being their order by load time. */
  ghost predicate Describes(s: Summary, es: seq<Entry>, sorted: seq<Entry>, worstN: int) {
    && s.nb == |es|
    && s.tMax == MaxTime(es)
    && DistinctKeys(s.byType)
    && (forall kind :: Get(s.byType, kind) == Stats(es, kind))
    && SumNb(s.byType) == |es|
    && |sorted| == |es|
    && multiset(sorted) == multiset(es)
    && Descending(sorted, TimeOf)
    && s.worst == Texts(sorted[..WorstCount(worstN, |es|)])
  }

  /**
   * The `forEach` over the flattened keys: fails when a leaf is not a string (`charAt` throws),
   * otherwise returns the entries and the totals. An exception discards everything, so the leaves are
   * checked before the first entry is counted.
   */
  method Collect(flat: Entries<Scalar>, strip: bool) returns (ok: bool, es: seq<Entry>, t: Tally)
    requires Decodable(flat)
    ensures ok <==> AllStrings(flat)
    ensures ok ==> es == EntriesOf(flat, strip) && t == TallyOf(es)
  {
    t := Tally(0, 0, []);
    if !AllStrings(flat) {
      return false, [], t;
    }
    ok := true;
    es := EntriesOf(flat, strip);
    t := TallyLoop(es);
  }

  /** The counting half of the `forEach`, one entry per turn. */
  method TallyLoop(es: seq<Entry>) returns (t: Tally)
    ensures t == TallyOf(es)
  {
    t := Tally(0, 0, []);
    var i := 0;
    while i < |es|
      invariant 0 <= i <= |es|
      invariant t == TallyOf(es[..i])
    {
      TallyStep(es[..i], es[i]);
      assert es[..i + 1] == es[..i] + [es[i]];
      t := Count(t, es[i]);
      i := i + 1;
    }
    assert es[..i] == es;
  }

  /** `entries.sort(...)` by load time, slowest first, then `slice` and the human-readable texts. */
  method Rank(es: seq<Entry>, worstN: int) returns (worst: seq<string>, ghost sorted: seq<Entry>)
    ensures |sorted| == |es|
    ensures multiset(sorted) == multiset(es)
    ensures Descending(sorted, TimeOf)
    ensures worst == Texts(sorted[..WorstCount(worstN, |es|)])
    ensures |worst| == WorstCount(worstN, |es|)
    ensures forall i :: 0 <= i < |worst| ==> worst[i] in Texts(es)
  {
    var a := new Entry[|es|](i requires 0 <= i < |es| => es[i]);
    assert a[..] == es;
    SortDescending(a, TimeOf);
    var s := a[..];
    sorted := s;
    worst := Texts(s[..WorstCount(worstN, |s|)]);
    forall i | 0 <= i < |worst|
      ensures worst[i] in Texts(es)
    {
      assert s[i] in multiset(s);
      var j :| 0 <= j < |es| && es[j] == s[i];
      assert Texts(es)[j] == worst[i];
    }
  }

  /**
   * `restimingDecoder(restiming)` as written: a non-string leaf throws, and so does a trie without
   * any leaf, because `assets.entries` is then never created before it is sorted.
   */
  method RestimingDecoder(restiming: Trie, strip: bool, worstN: int) returns (r: Result<Summary>, ghost sorted: seq<Entry>)
    requires Decodable(TrieDecode(restiming))
    ensures r.Failure? <==> !AllStrings(TrieDecode(restiming)) || |TrieDecode(restiming)| == 0
    ensures r.Failure? ==> r.error == "TypeError"
    ensures r.Success? ==> AllStrings(TrieDecode(restiming))
    ensures r.Success? ==> Describes(r.value, EntriesOf(TrieDecode(restiming), strip), sorted, worstN)
  {
    var flat := TrieDecode(restiming);
    var ok, es, t := Collect(flat, strip);
    if !ok || |es| == 0 {
      return Failure("TypeError"), [];
    }
    TallySummary(es);
    var worst;
    worst, sorted := Rank(es, worstN);
    r := Success(Summary(t.nb, t.tMax, t.byType, worst));
  }

  /**
   * `restimingDecoder` with the entry list created before the loop: an empty trie gives an empty
   * summary, and only a non-string leaf throws.
   */
  method RestimingDecoderCorrected(restiming: Trie, strip: bool, worstN: int) returns (r: Result<Summary>, ghost sorted: seq<Entry>)
    requires Decodable(TrieDecode(restiming))
    ensures r.Failure? <==> !AllStrings(TrieDecode(restiming))
    ensures r.Failure? ==> r.error == "TypeError"
    ensures r.Success? ==> AllStrings(TrieDecode(restiming))
    ensures r.Success? ==> Describes(r.value, EntriesOf(TrieDecode(restiming), strip), sorted, worstN)
    ensures TrieDecode(restiming) == [] ==> r == Success(Summary(0, 0, [], []))
  {
    var flat := TrieDecode(restiming);
    var ok, es, t := Collect(flat, strip);
    if !ok {
      return Failure("TypeError"), [];
    }
    TallySummary(es);
    var worst;
    worst, sorted := Rank(es, worstN);
    r := Success(Summary(t.nb, t.tMax, t.byType, worst));
  }

  /** An empty restiming object has no leaf, so the decoder as written throws on it. */
  lemma EmptyTrieHasNoEntry()
    ensures TrieDecode(Node([])) == []
    ensures AllStrings(TrieDecode(Node([]))) && Decodable(TrieDecode(Node([])))
  {
  }

  // ---- the compressed leaf format ----

  /** The base-36 digit of `d`, in lower case as `Number.prototype.toString(36)` writes it. */
  function Base36Digit(d: nat): (c: char)
    requires d < 36
    ensures DigitValue(c) == d && c != ',' && c != '|' && c != '-' && c != '+'
  {
    if d < 10 then ('0' as int + d) as char else ('a' as int + d - 10) as char
  }

  /** `n.toString(36)`: the base-36 text of a natural number, without leading zeros. */
  function ToBase36(n: nat): (r: string)
    ensures |r| >= 1
    ensures forall i :: 0 <= i < |r| ==> DigitValue(r[i]) < 36 && r[i] != ',' && r[i] != '|'
    ensures r[0] != '-' && r[0] != '+'
  {
    if n < 36 then [Base36Digit(n)] else ToBase36(n / 36) + [Base36Digit(n % 36)]
  }

  /** Base-36 digits read back give the number they were written from. */
  lemma {:induction false} ToBase36Value(n: nat)
    ensures DigitsValue(ToBase36(n), 36) == n
    ensures DigitPrefixLength(ToBase36(n), 36) == |ToBase36(n)|
  {
    var s := ToBase36(n);
    if n >= 36 {
      ToBase36Value(n / 36);
      assert s[..|s| - 1] == ToBase36(n / 36);
    }
    Base36PrefixAll(s);
  }

  lemma {:induction false} Base36PrefixAll(s: string)
    requires forall i :: 0 <= i < |s| ==> DigitValue(s[i]) < 36
    ensures DigitPrefixLength(s, 36) == |s|
    decreases |s|
  {
    if |s| > 0 {
      Base36PrefixAll(s[1..]);
    }
  }

  /** `parseInt(n.toString(36), 36)` is `n`. */
  lemma ParseBase36(n: nat)
    ensures ParseInt(ToBase36(n), 36) == Some(n)
  {
    var s := ToBase36(n);
    ToBase36Value(n);
    assert s[..|s|] == s;
  }

  /** The base-36 texts of a list of timings. */
  function Base36All(ts: seq<nat>): (fs: seq<string>)
    ensures |fs| == |ts|
    ensures forall i :: 0 <= i < |ts| ==> fs[i] == ToBase36(ts[i])
  {
    seq(|ts|, i requires 0 <= i < |ts| => ToBase36(ts[i]))
  }

  /** A compressed resource timing: the type digit, the base-36 timings joined by ",", then an optional "|"-led tail. */
  function CompressedLeaf(kind: nat, timings: seq<nat>, tail: string): string
    requires kind < |Types|
  {
    [DigitChar(kind)] + Join(Base36All(timings), ',') + tail
  }

  /** A character that is neither the separator nor in any piece is not in their join. */
  lemma {:induction false} JoinExcludes(parts: seq<string>, sep: char, c: char)
    requires c != sep
    requires forall i :: 0 <= i < |parts| ==> c !in parts[i]
    ensures c !in Join(parts, sep)
    decreases |parts|
  {
    if |parts| > 1 {
      JoinExcludes(parts[1..], sep, c);
    }
  }

  /** The timer text before the first "|": the joined timings, whatever the tail holds. */
  lemma HeadBeforeTail(j: string, tail: string)
    requires '|' !in j
    requires tail == [] || tail[0] == '|'
    ensures Split(j + tail, '|')[0] == j
  {
    if tail == [] {
      SplitNoSep(j, '|');
      assert j + tail == j;
    } else {
      SplitAppend(j, '|', tail[1..]);
      assert j + tail == j + ['|'] + tail[1..];
    }
  }

  /** The comma-separated timers of a compressed leaf are the base-36 texts of its timings. */
  lemma LeafFields(kind: nat, timings: seq<nat>, tail: string)
    requires kind < |Types| && |timings| >= 1
    requires tail == [] || tail[0] == '|'
    ensures TimerFields(CompressedLeaf(kind, timings, tail)) == Base36All(timings)
  {
    var leaf := CompressedLeaf(kind, timings, tail);
    var fs := Base36All(timings);
    var j := Join(fs, ',');
    assert leaf[1..] == j + tail;
    JoinExcludes(fs, ',', '|');
    HeadBeforeTail(j, tail);
    SplitJoin(fs, ',');
  }

  /**
   * Decoding a compressed leaf recovers what was encoded: the digit names the initiator type and
   * the second timing is the load time, whatever the tail after "|" holds.
   */
  lemma LeafRoundTrip(kind: nat, timings: seq<nat>, tail: string)
    requires kind < |Types| && |timings| >= 2
    requires tail == [] || tail[0] == '|'
    ensures TypeName(CompressedLeaf(kind, timings, tail)) == Types[kind]
    ensures LoadTime(CompressedLeaf(kind, timings, tail)) == Some(timings[1])
  {
    var leaf := CompressedLeaf(kind, timings, tail);
    DigitCharValue(kind);
    assert leaf[0] == DigitChar(kind);
    LeafFields(kind, timings, tail);
    ParseBase36(timings[1]);
  }

  /** The entry computed for a compressed leaf: its cleaned URL, its type and its load time. */
  lemma EntryOfCompressed(key: string, kind: nat, timings: seq<nat>, tail: string, strip: bool)
    requires kind < |Types| && |timings| >= 2
    requires tail == [] || tail[0] == '|'
    ensures LoadTime(CompressedLeaf(kind, timings, tail)).Some?
    ensures EntryOf(key, CompressedLeaf(kind, timings, tail), strip) ==
      Entry(BoomrUtils.CleanupURL(Some(key), strip), Types[kind], timings[1])
  {
    LeafRoundTrip(kind, timings, tail);
  }

  // ---- t_other ----

  /** `item[0]` of `item.split("|")`: the timer's name. */
  function ItemName(item: string): string {
    Split(item, '|')[0]
  }

  /** `parseInt(item[1])`: `None` (NaN) when there is no "|" or no number after it. */
  function ItemValue(item: string): Option<int> {
    var f := Split(item, '|');
    if |f| < 2 then None else ParseInt(f[1], 0)
  }

  /** The `t_other` object after the loop has visited `items`: a later item with the same name overwrites. */
  function OtherTimers(items: seq<string>): Entries<Option<int>> {
    if |items| == 0 then []
    else
      var last := items[|items| - 1];
      Put(OtherTimers(items[..|items| - 1]), ItemName(last), ItemValue(last))
  }

  /** The `for` loop over `beacon.t_other.split(",")`. */
  method ParseOtherTimers(text: string) returns (r: Entries<Option<int>>)
    ensures r == OtherTimers(Split(text, ','))
  {
    var others := Split(text, ',');
    r := [];
    var i := 0;
    while i < |others|
      invariant 0 <= i <= |others|
      invariant r == OtherTimers(others[..i])
    {
      var item := Split(others[i], '|');
      r := Put(r, item[0], if |item| < 2 then None else ParseInt(item[1], 0));
      assert others[..i + 1][..i] == others[..i];
      i := i + 1;
    }
    assert others[..i] == others;
  }

  /** Each timer is named once in the parsed object. */
  lemma {:induction false} OtherTimersDistinct(items: seq<string>)
    ensures DistinctKeys(OtherTimers(items))
  {
    if |items| > 0 {
      var last := items[|items| - 1];
      OtherTimersDistinct(items[..|items| - 1]);
      PutDistinct(OtherTimers(items[..|items| - 1]), ItemName(last), ItemValue(last));
    }
  }

  /** The object the reader should rebuild from the pairs the RT plugin wrote. */
  function Decoded(o: seq<(string, int)>): Entries<Option<int>> {
    seq(|o|, i requires 0 <= i < |o| => (o[i].0, Some(o[i].1)))
  }

  /** A name free of "|" comes back whole from `name|delta`, and so does the delta. */
  lemma ItemRoundTrip(p: (string, int))
    requires '|' !in p.0
    ensures ItemName(RtLogic.OtherItem(p)) == p.0
    ensures ItemValue(RtLogic.OtherItem(p)) == Some(p.1)
  {
    var d := IntToString(p.1);
    assert forall j :: 0 <= j < |d| ==> d[j] != '|';
    assert RtLogic.OtherItem(p) == p.0 + ['|'] + d;
    SplitAppend(p.0, '|', d);
    SplitNoSep(d, '|');
    ParseIntOfIntToString(p.1);
  }

  /** The `name|delta` items of some pairs. */
  function ItemsOf(o: seq<(string, int)>): (items: seq<string>)
    ensures |items| == |o|
  {
    seq(|o|, i requires 0 <= i < |o| => RtLogic.OtherItem(o[i]))
  }

  lemma ItemsOfInit(o: seq<(string, int)>)
    requires |o| > 0
    ensures ItemsOf(o)[..|o| - 1] == ItemsOf(o[..|o| - 1])
    ensures ItemsOf(o)[|o| - 1] == RtLogic.OtherItem(o[|o| - 1])
  {
  }

  lemma DecodedInit(o: seq<(string, int)>)
    requires |o| > 0
    requires DistinctKeys(o)
    ensures !Has(Decoded(o[..|o| - 1]), o[|o| - 1].0)
    ensures Decoded(o) == Decoded(o[..|o| - 1]) + [(o[|o| - 1].0, Some(o[|o| - 1].1))]
  {
    var d := Decoded(o[..|o| - 1]);
    forall j | 0 <= j < |d| ensures d[j].0 != o[|o| - 1].0 {
      assert d[j].0 == o[j].0;
    }
  }

  /** The items of distinct names free of "|" parse back into the pairs, in order. */
  lemma {:induction false} ItemsRoundTrip(o: seq<(string, int)>)
    requires DistinctKeys(o)
    requires forall i :: 0 <= i < |o| ==> '|' !in o[i].0
    ensures OtherTimers(ItemsOf(o)) == Decoded(o)
  {
    if |o| > 0 {
      var init := o[..|o| - 1];
      var p := o[|o| - 1];
      ItemsOfInit(o);
      ItemsRoundTrip(init);
      ItemRoundTrip(p);
      DecodedInit(o);
      PutOrder(Decoded(init), p.0, Some(p.1));
    }
  }

  /**
   * The reader parses what the RT plugin wrote: when the emitted timers have distinct names free of
   * "," and "|", `t_other` splits back into exactly the non-basic timers and their deltas, in order.
   */
  lemma OtherTextRoundTrip(e: seq<(string, int)>)
    requires DistinctKeys(e)
    requires forall i :: 0 <= i < |e| ==> ',' !in e[i].0 && '|' !in e[i].0
    requires |RtLogic.OtherOf(e)| > 0
    ensures OtherTimers(Split(RtLogic.OtherText(e), ',')) == Decoded(RtLogic.OtherOf(e))
  {
    var o := RtLogic.OtherOf(e);
    OtherNamesSafe(e);
    ItemsNoComma(o);
    assert RtLogic.OtherItems(e) == ItemsOf(o);
    SplitJoin(ItemsOf(o), ',');
    ItemsRoundTrip(o);
  }

  /** The timers packed into `t_other` keep distinct names free of "," and "|". */
  lemma OtherNamesSafe(e: seq<(string, int)>)
    requires DistinctKeys(e)
    requires forall i :: 0 <= i < |e| ==> ',' !in e[i].0 && '|' !in e[i].0
    ensures DistinctKeys(RtLogic.OtherOf(e))
    ensures forall i :: 0 <= i < |RtLogic.OtherOf(e)| ==> ',' !in RtLogic.OtherOf(e)[i].0 && '|' !in RtLogic.OtherOf(e)[i].0
  {
    var o := RtLogic.OtherOf(e);
    RtLogic.SplitNames(e);
    forall i | 0 <= i < |o| ensures ',' !in o[i].0 && '|' !in o[i].0 {
      assert o[i] in e;
    }
  }

  /** No `name|delta` item holds a "," when no name does. */
  lemma ItemsNoComma(o: seq<(string, int)>)
    requires forall i :: 0 <= i < |o| ==> ',' !in o[i].0
    ensures forall i :: 0 <= i < |o| ==> ',' !in ItemsOf(o)[i]
  {
    forall i | 0 <= i < |o| ensures ',' !in ItemsOf(o)[i] {
      var d := IntToString(o[i].1);
      assert ItemsOf(o)[i] == o[i].0 + "|" + d;
      assert forall j :: 0 <= j < |d| ==> d[j] != ',';
    }
  }

  /**
   * End to end: whenever a flush of distinctly named timers (none holding "," or "|") writes
   * `t_other`, the reader's parse of that variable holds each non-basic timer's delta.
   */
  lemma FlushedOtherRoundTrip(vars: map<string, Json>, timers: Entries<RtLogic.Timer>, cached: Option<int>)
    requires DistinctKeys(timers)
    requires forall i :: 0 <= i < |timers| ==> ',' !in timers[i].0 && '|' !in timers[i].0
    ensures var e := RtLogic.Emitted(timers, cached);
      |RtLogic.OtherOf(e)| > 0 ==>
        && RtLogic.FlushedVars(vars, e)["t_other"] == JStr(RtLogic.OtherText(e))
        && OtherTimers(Split(RtLogic.FlushedVars(vars, e)["t_other"].s, ',')) == Decoded(RtLogic.OtherOf(e))
  {
    var e := RtLogic.Emitted(timers, cached);
    RtLogic.EmittedNames(timers, cached);
    if |RtLogic.OtherOf(e)| > 0 {
      forall i | 0 <= i < |e| ensures ',' !in e[i].0 && '|' !in e[i].0 {
        var j :| 0 <= j < |timers| && timers[j].0 == e[i].0;
      }
      OtherTextRoundTrip(e);
    }
  }
}
