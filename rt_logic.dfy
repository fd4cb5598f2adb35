/**
 * The rules of the RT ("round trip") plugin that do not depend on its state: timer records and
 * how they are flushed onto the beacon, the choice of the start of the navigation, the load
 * timestamp, and the session cookie (`RT`) that carries a start time across page loads.
 *
 * Timestamps are integer milliseconds; `None` is `undefined`, and 0 is a timestamp JavaScript
 * treats as missing wherever the source tests it for truthiness.
 */
module RtLogic {
  import opened Wrappers
  import opened JsText
  import opened JsObject
  import opened JsValue
  import opened BoomrUtils

  /** A timer's `delta`: not set, a number, or NaN (a subtraction with a missing start or end). */
  datatype Delta = NoDelta | Delta(d: int) | NaNDelta

  /** A timer record `{start, end, delta}`, any of them absent. */
  datatype Timer = Timer(start: Option<int>, end: Option<int>, delta: Delta)

  /** The timers that go onto the beacon as variables of their own. */
  const BasicTimers: set<string> := {"t_done", "t_resp", "t_page"}

  /** `typeof v === "number" ? v : BOOMR.now()`. */
  function Stamp(v: Option<int>, now: int): int {
    if v.Some? then v.value else now
  }

  // ---------------------------------------------------------------------------------------------
  // Timer writes

  /** The timers after `endTimer(name, v)`: an end, once set, is never overwritten. */
  function EndedTimers(timers: Entries<Timer>, name: string, v: Option<int>, now: int): (r: Entries<Timer>)
    ensures name == "" ==> r == timers
    ensures Get(timers, name).Some? && Get(timers, name).value.end.Some? ==> r == timers
    ensures name != "" ==> Get(r, name).Some? && Get(r, name).value.end.Some?
    ensures name != "" && Get(timers, name).None? ==> Get(r, name) == Some(Timer(None, Some(Stamp(v, now)), NoDelta))
    ensures name != "" && Get(timers, name).Some? && Get(timers, name).value.end.None? ==>
      Get(r, name) == Some(Get(timers, name).value.(end := Some(Stamp(v, now))))
    ensures forall k :: k != name ==> Get(r, k) == Get(timers, k)
  {
    if name == "" then timers
    else match Get(timers, name)
      case None => Put(timers, name, Timer(None, Some(Stamp(v, now)), NoDelta))
      case Some(t) => if t.end.Some? then timers else Put(timers, name, t.(end := Some(Stamp(v, now))))
  }

  /**
   * The timers after `startTimer(name, v)`: the record becomes `{start}` alone; starting `t_page`
   * first ends `t_resp` at the same moment.
   */
  function StartedTimers(timers: Entries<Timer>, name: string, v: Option<int>, now: int): (r: Entries<Timer>)
    ensures name == "" ==> r == timers
    ensures name != "" ==> Get(r, name) == Some(Timer(Some(Stamp(v, now)), None, NoDelta))
    ensures name == "t_page" ==> Get(r, "t_resp") == Get(EndedTimers(timers, "t_resp", v, now), "t_resp")
    ensures forall k :: k != name && k != "t_resp" ==> Get(r, k) == Get(timers, k)
    ensures name != "t_page" ==> Get(r, "t_resp") == Get(timers, "t_resp") || name == "t_resp"
  {
    if name == "" then timers
    else
      var base := if name == "t_page" then EndedTimers(timers, "t_resp", v, now) else timers;
      Put(base, name, Timer(Some(Stamp(v, now)), None, NoDelta))
  }

  /** The timers after `setTimer(name, d)`: the record becomes `{delta}` alone. */
  function DeltaTimers(timers: Entries<Timer>, name: string, d: Delta): (r: Entries<Timer>)
    ensures name == "" ==> r == timers
    ensures name != "" ==> Get(r, name) == Some(Timer(None, None, d))
    ensures forall k :: k != name ==> Get(r, k) == Get(timers, k)
  {
    if name == "" then timers else Put(timers, name, Timer(None, None, d))
  }

  /**
   * The page time `setPageLoadTimers` records from a first byte at `rs`: up to the end of
   * `t_load` when a prerender measured one (a `t_load` without an end gives NaN), else up to
   * `t_done`.
   */
  function PageDelta(load: Option<Timer>, tDone: int, rs: int): Delta {
    if load.None? then Delta(tDone - rs)
    else if load.value.end.Some? then Delta(load.value.end.value - rs)
    else NaNDelta
  }

  /** Timer writes only ever go through `Put`, so no timer name appears twice. */
  lemma TimerWritesDistinct(timers: Entries<Timer>, name: string, v: Option<int>, d: Delta, now: int)
    requires DistinctKeys(timers)
    ensures DistinctKeys(EndedTimers(timers, name, v, now))
    ensures DistinctKeys(StartedTimers(timers, name, v, now))
    ensures DistinctKeys(DeltaTimers(timers, name, d))
  {
    EndedDistinct(timers, name, v, now);
    EndedDistinct(timers, "t_resp", v, now);
    if name != "" {
      var base := if name == "t_page" then EndedTimers(timers, "t_resp", v, now) else timers;
      PutDistinct(base, name, Timer(Some(Stamp(v, now)), None, NoDelta));
      PutDistinct(timers, name, Timer(None, None, d));
    }
  }

  lemma EndedDistinct(timers: Entries<Timer>, name: string, v: Option<int>, now: int)
    requires DistinctKeys(timers)
    ensures DistinctKeys(EndedTimers(timers, name, v, now))
  {
    if name != "" {
      var t := Get(timers, name);
      if t.None? {
        PutDistinct(timers, name, Timer(None, Some(Stamp(v, now)), NoDelta));
      } else if t.value.end.None? {
        PutDistinct(timers, name, t.value.(end := Some(Stamp(v, now))));
      }
    }
  }

  // ---------------------------------------------------------------------------------------------
  // Flushing timers onto the beacon

  /**
   * One timer as `addTimersToBeacon` leaves it: a timer without a numeric delta gets
   * `end - start`, where a missing start is replaced by the cached start of the navigation.
   */
  function Flush(t: Timer, cached: Option<int>): (r: Timer)
    ensures r.delta != NoDelta && r.end == t.end
    ensures !t.delta.NoDelta? ==> r == t
    ensures t.delta.NoDelta? && t.start.Some? && t.end.Some? ==>
      r.delta == Delta(t.end.value - t.start.value) && r.start == t.start
    ensures t.delta.NoDelta? && t.start.None? && t.end.Some? && cached.Some? ==>
      r.delta == Delta(t.end.value - cached.value) && r.start == cached
    ensures t.delta.NoDelta? && (t.end.None? || (t.start.None? && cached.None?)) ==> r.delta == NaNDelta
  {
    if !t.delta.NoDelta? then t
    else
      var start := if t.start.Some? then t.start else cached;
      Timer(start, t.end, if start.Some? && t.end.Some? then Delta(t.end.value - start.value) else NaNDelta)
  }

  /** Every timer flushed, in place and in order. */
  function FlushAll(timers: Entries<Timer>, cached: Option<int>): Entries<Timer> {
    seq(|timers|, i requires 0 <= i < |timers| => (timers[i].0, Flush(timers[i].1, cached)))
  }

  /** The timers with the first `n` flushed and the rest as they were. */
  function FlushPrefix(timers: Entries<Timer>, n: nat, cached: Option<int>): (r: Entries<Timer>)
    requires n <= |timers|
    ensures |r| == |timers|
  {
    seq(|timers|, i requires 0 <= i < |timers| => if i < n then (timers[i].0, Flush(timers[i].1, cached)) else timers[i])
  }

  /** Flushing timer `n` in place moves the flushed prefix on by one; all of them flushed is `FlushAll`. */
  lemma FlushPrefixStep(timers: Entries<Timer>, n: nat, cached: Option<int>)
    requires n < |timers|
    ensures FlushPrefix(timers, 0, cached) == timers
    ensures FlushPrefix(timers, n, cached)[n] == timers[n]
    ensures FlushPrefix(timers, n, cached)[n := (timers[n].0, Flush(timers[n].1, cached))] == FlushPrefix(timers, n + 1, cached)
  {
  }

  /** Flushing every timer. */
  lemma FlushPrefixAll(timers: Entries<Timer>, cached: Option<int>)
    ensures FlushPrefix(timers, 0, cached) == timers
    ensures FlushPrefix(timers, |timers|, cached) == FlushAll(timers, cached)
    ensures DistinctKeys(timers) ==> DistinctKeys(FlushAll(timers, cached))
  {
    assert Keys(FlushAll(timers, cached)) == Keys(timers);
  }

  /** Flushing keeps the names and the order of the timers and reads each timer as flushed. */
  lemma {:induction false} FlushAllFacts(timers: Entries<Timer>, cached: Option<int>)
    ensures Keys(FlushAll(timers, cached)) == Keys(timers)
    ensures DistinctKeys(timers) ==> DistinctKeys(FlushAll(timers, cached))
    ensures forall k :: Get(FlushAll(timers, cached), k) == (if Get(timers, k).Some? then Some(Flush(Get(timers, k).value, cached)) else None)
  {
    var f := FlushAll(timers, cached);
    assert Keys(f) == Keys(timers);
    if |timers| > 0 {
      FlushAllFacts(timers[1..], cached);
      assert f[1..] == FlushAll(timers[1..], cached);
    }
  }

  /** The measurable timers, `name -> delta`, in the order of the timers. */
  function Emitted(timers: Entries<Timer>, cached: Option<int>): seq<(string, int)> {
    if |timers| == 0 then []
    else
      var last := timers[|timers| - 1];
      var prev := Emitted(timers[..|timers| - 1], cached);
      match Flush(last.1, cached).delta
      case Delta(d) => prev + [(last.0, d)]
      case _ => prev
  }

  /** The emitted timers that get variables of their own. */
  function BasicOf(e: seq<(string, int)>): seq<(string, int)> {
    if |e| == 0 then []
    else BasicOf(e[..|e| - 1]) + (if e[|e| - 1].0 in BasicTimers then [e[|e| - 1]] else [])
  }

  /** The emitted timers that are packed into `t_other`. */
  function OtherOf(e: seq<(string, int)>): seq<(string, int)> {
    if |e| == 0 then []
    else OtherOf(e[..|e| - 1]) + (if e[|e| - 1].0 !in BasicTimers then [e[|e| - 1]] else [])
  }

  /** `name + "|" + delta`. */
  function OtherItem(p: (string, int)): string {
    p.0 + "|" + IntToString(p.1)
  }

  function OtherItems(e: seq<(string, int)>): seq<string> {
    var o := OtherOf(e);
    seq(|o|, i requires 0 <= i < |o| => OtherItem(o[i]))
  }

  /** The `t_other` text: the items joined by ",". */
  function OtherText(e: seq<(string, int)>): string {
    Join(OtherItems(e), ',')
  }

  /** The variables after each basic timer's delta is added. */
  function TimerVars(vars: map<string, Json>, e: seq<(string, int)>): map<string, Json> {
    if |e| == 0 then vars
    else
      var prev := TimerVars(vars, e[..|e| - 1]);
      var p := e[|e| - 1];
      if p.0 in BasicTimers then prev[p.0 := JNum(p.1)] else prev
  }

  /** The variables after a flush: the basic timers, then `t_other` when any other timer was measurable. */
  function FlushedVars(vars: map<string, Json>, e: seq<(string, int)>): map<string, Json> {
    var v := TimerVars(vars, e);
    if |OtherOf(e)| > 0 then v["t_other" := JStr(OtherText(e))] else v
  }

  /** `w` holds the same entry for `k` as `v`, or neither holds one. */
  predicate SameVar(v: map<string, Json>, w: map<string, Json>, k: string) {
    (k in w <==> k in v) && (k in v ==> w[k] == v[k])
  }

  /** The names a flush appends to `addedVars`. */
  function FlushedNames(e: seq<(string, int)>): seq<string> {
    Keys(BasicOf(e)) + (if |OtherOf(e)| > 0 then ["t_other"] else [])
  }

  /** One more timer: the emitted list grows by that timer when its flushed delta is a number. */
  lemma EmitStep(timers: Entries<Timer>, i: nat, cached: Option<int>)
    requires i < |timers|
    ensures var f := Flush(timers[i].1, cached);
      Emitted(timers[..i + 1], cached) ==
        if f.delta.Delta? then Emitted(timers[..i], cached) + [(timers[i].0, f.delta.d)] else Emitted(timers[..i], cached)
  {
    assert timers[..i + 1][..i] == timers[..i];
  }

  /** Appending one pair extends the variables, the names and the `t_other` items by that pair's share. */
  lemma SnocFacts(vars: map<string, Json>, e: seq<(string, int)>, p: (string, int))
    ensures (e + [p])[..|e|] == e
    ensures TimerVars(vars, e + [p]) == if p.0 in BasicTimers then TimerVars(vars, e)[p.0 := JNum(p.1)] else TimerVars(vars, e)
    ensures BasicOf(e + [p]) == BasicOf(e) + (if p.0 in BasicTimers then [p] else [])
    ensures OtherOf(e + [p]) == OtherOf(e) + (if p.0 in BasicTimers then [] else [p])
    ensures Keys(BasicOf(e + [p])) == Keys(BasicOf(e)) + (if p.0 in BasicTimers then [p.0] else [])
    ensures OtherItems(e + [p]) == OtherItems(e) + (if p.0 in BasicTimers then [] else [OtherItem(p)])
  {
    assert (e + [p])[..|e|] == e;
  }

  /** Flushing timer `i` extends the variables, the added names and the `t_other` items by its share. */
  lemma FlushStepFacts(vars: map<string, Json>, timers: Entries<Timer>, i: nat, cached: Option<int>)
    requires i < |timers|
    ensures var (name, f) := (timers[i].0, Flush(timers[i].1, cached));
      var (e, e') := (Emitted(timers[..i], cached), Emitted(timers[..i + 1], cached));
      TimerVars(vars, e') == (if f.delta.Delta? && name in BasicTimers then TimerVars(vars, e)[name := JNum(f.delta.d)] else TimerVars(vars, e)) &&
      Keys(BasicOf(e')) == Keys(BasicOf(e)) + (if f.delta.Delta? && name in BasicTimers then [name] else []) &&
      OtherItems(e') == OtherItems(e) + (if f.delta.Delta? && name !in BasicTimers then [OtherItem((name, f.delta.d))] else [])
  {
    EmitStep(timers, i, cached);
    var f := Flush(timers[i].1, cached);
    if f.delta.Delta? {
      SnocFacts(vars, Emitted(timers[..i], cached), (timers[i].0, f.delta.d));
    }
  }

  lemma AppendAssoc<T>(a: seq<T>, b: seq<T>, c: seq<T>)
    ensures a + (b + c) == (a + b) + c
  {
  }

  /** A flush emits exactly the timers whose delta is a number: never one whose delta is NaN. */
  lemma {:induction false} EmittedSpec(timers: Entries<Timer>, cached: Option<int>, n: string, d: int)
    ensures (n, d) in Emitted(timers, cached) <==>
      exists i :: 0 <= i < |timers| && timers[i].0 == n && Flush(timers[i].1, cached).delta == Delta(d)
  {
    if |timers| > 0 {
      var m := |timers| - 1;
      var init := timers[..m];
      EmittedSpec(init, cached, n, d);
      if (n, d) in Emitted(timers, cached) {
        if (n, d) in Emitted(init, cached) {
          var i :| 0 <= i < |init| && init[i].0 == n && Flush(init[i].1, cached).delta == Delta(d);
          assert timers[i] == init[i];
        } else {
          assert timers[m].0 == n && Flush(timers[m].1, cached).delta == Delta(d);
        }
      }
      if exists i :: 0 <= i < |timers| && timers[i].0 == n && Flush(timers[i].1, cached).delta == Delta(d) {
        var i :| 0 <= i < |timers| && timers[i].0 == n && Flush(timers[i].1, cached).delta == Delta(d);
        if i < m {
          assert init[i] == timers[i];
        }
      }
    }
  }

  /** Emitted names are timer names, so distinct timer names give distinct emitted names. */
  lemma {:induction false} EmittedNames(timers: Entries<Timer>, cached: Option<int>)
    ensures forall j :: 0 <= j < |Emitted(timers, cached)| ==> Has(timers, Emitted(timers, cached)[j].0)
    ensures DistinctKeys(timers) ==> DistinctKeys(Emitted(timers, cached))
  {
    if |timers| > 0 {
      var m := |timers| - 1;
      var init := timers[..m];
      EmittedNames(init, cached);
      var e := Emitted(init, cached);
      forall j | 0 <= j < |e| ensures Has(timers, e[j].0) {
        var i :| 0 <= i < |init| && init[i].0 == e[j].0;
        assert timers[i].0 == e[j].0;
      }
      assert Has(timers, timers[m].0);
      if DistinctKeys(timers) {
        assert DistinctKeys(init);
        forall j | 0 <= j < |e| ensures e[j].0 != timers[m].0 {
          var i :| 0 <= i < |init| && init[i].0 == e[j].0;
          assert timers[i].0 == e[j].0;
        }
      }
    }
  }

  /** The basic and the other timers are a split of the emitted ones; each keeps the names apart. */
  lemma SplitNames(e: seq<(string, int)>)
    ensures forall p :: p in BasicOf(e) <==> p in e && p.0 in BasicTimers
    ensures forall p :: p in OtherOf(e) <==> p in e && p.0 !in BasicTimers
    ensures DistinctKeys(e) ==> DistinctKeys(OtherOf(e))
  {
    SplitMembers(e);
    OtherDistinct(e);
  }

  lemma {:induction false} SplitMembers(e: seq<(string, int)>)
    ensures forall p :: p in BasicOf(e) <==> p in e && p.0 in BasicTimers
    ensures forall p :: p in OtherOf(e) <==> p in e && p.0 !in BasicTimers
  {
    if |e| > 0 {
      SplitMembers(e[..|e| - 1]);
      assert e == e[..|e| - 1] + [e[|e| - 1]];
    }
  }

  lemma {:induction false} OtherDistinct(e: seq<(string, int)>)
    ensures DistinctKeys(e) ==> DistinctKeys(OtherOf(e))
  {
    if |e| > 0 && DistinctKeys(e) {
      var init := e[..|e| - 1];
      var p := e[|e| - 1];
      OtherDistinct(init);
      SplitMembers(init);
      assert DistinctKeys(init);
      forall j | 0 <= j < |OtherOf(init)| ensures OtherOf(init)[j].0 != p.0 {
        assert OtherOf(init)[j] in init;
        var k :| 0 <= k < |init| && init[k] == OtherOf(init)[j];
        assert e[k] == init[k];
      }
    }
  }

  /**
   * The variable of each basic timer holds its last emitted delta, and every other variable except
   * `t_other` is left as it was.
   */
  lemma {:induction false} TimerVarsSpec(vars: map<string, Json>, e: seq<(string, int)>, k: string)
    ensures k !in BasicTimers ==> (k in TimerVars(vars, e) <==> k in vars)
    ensures k !in BasicTimers && k in vars ==> TimerVars(vars, e)[k] == vars[k]
    ensures forall j :: 0 <= j < |e| && e[j].0 == k && k in BasicTimers && (forall l :: j < l < |e| ==> e[l].0 != k) ==>
      k in TimerVars(vars, e) && TimerVars(vars, e)[k] == JNum(e[j].1)
  {
    if |e| > 0 {
      var init := e[..|e| - 1];
      TimerVarsSpec(vars, init, k);
      forall j | 0 <= j < |e| - 1 && e[j].0 == k && k in BasicTimers && (forall l :: j < l < |e| ==> e[l].0 != k)
        ensures k in TimerVars(vars, e) && TimerVars(vars, e)[k] == JNum(e[j].1)
      {
        assert init[j] == e[j];
        assert forall l :: j < l < |init| ==> init[l].0 != k by {
          forall l | j < l < |init| ensures init[l].0 != k {
            assert init[l] == e[l];
          }
        }
      }
    }
  }

  /** With distinct timer names, each measurable basic timer's delta is its beacon variable. */
  lemma FlushedBasicVar(vars: map<string, Json>, timers: Entries<Timer>, cached: Option<int>, i: nat)
    requires DistinctKeys(timers) && i < |timers|
    requires timers[i].0 in BasicTimers && Flush(timers[i].1, cached).delta.Delta?
    ensures var v := FlushedVars(vars, Emitted(timers, cached));
      timers[i].0 in v && v[timers[i].0] == JNum(Flush(timers[i].1, cached).delta.d)
  {
    var e := Emitted(timers, cached);
    var k := timers[i].0;
    var d := Flush(timers[i].1, cached).delta.d;
    EmittedSpec(timers, cached, k, d);
    EmittedNames(timers, cached);
    var j :| 0 <= j < |e| && e[j] == (k, d);
    TimerVarsSpec(vars, e, k);
  }

  /** A flush leaves every variable other than the basic timers and `t_other` as it was. */
  lemma FlushedVarsKeep(vars: map<string, Json>, e: seq<(string, int)>, k: string)
    requires k !in BasicTimers && k != "t_other"
    ensures SameVar(vars, FlushedVars(vars, e), k)
  {
    TimerVarsSpec(vars, e, k);
  }

  /** Flushing the timers leaves the unload flags of the beacon alone. */
  lemma FlushedVarsKeepFlags(vars: map<string, Json>, e: seq<(string, int)>)
    ensures SameVar(vars, FlushedVars(vars, e), "rt.abld")
    ensures SameVar(vars, FlushedVars(vars, e), "rt.ntvu")
  {
    FlushedVarsKeep(vars, e, "rt.abld");
    FlushedVarsKeep(vars, e, "rt.ntvu");
  }

  /** A stopped `t_done` stays stopped when the timers are flushed. */
  lemma FlushKeepsDone(timers: Entries<Timer>, cached: Option<int>)
    requires Get(timers, "t_done").Some? && Get(timers, "t_done").value.end.Some?
    ensures Get(FlushAll(timers, cached), "t_done").Some? && Get(FlushAll(timers, cached), "t_done").value.end.Some?
  {
    FlushAllFacts(timers, cached);
  }

  /** The beacon's `t_done` is the `t_done` timer's delta whenever that (ended) timer measures one. */
  predicate ReportsDone(vars: map<string, Json>, timers: Entries<Timer>) {
    Get(timers, "t_done").Some? && Get(timers, "t_done").value.end.Some? &&
    (Get(timers, "t_done").value.delta.Delta? ==>
      "t_done" in vars && vars["t_done"] == JNum(Get(timers, "t_done").value.delta.d))
  }

  /** The flush reports an ended `t_done` with the delta its flushed timer holds. */
  lemma FlushReportsDone(vars: map<string, Json>, timers: Entries<Timer>, cached: Option<int>)
    requires DistinctKeys(timers)
    requires Get(timers, "t_done").Some? && Get(timers, "t_done").value.end.Some?
    ensures Get(FlushAll(timers, cached), "t_done") == Some(Flush(Get(timers, "t_done").value, cached))
    ensures ReportsDone(FlushedVars(vars, Emitted(timers, cached)), FlushAll(timers, cached))
  {
    FlushAllFacts(timers, cached);
    var t := Get(timers, "t_done").value;
    if Flush(t, cached).delta.Delta? {
      var i :| 0 <= i < |timers| && timers[i] == ("t_done", t);
      FlushedBasicVar(vars, timers, cached, i);
    }
  }

  // ---------------------------------------------------------------------------------------------
  // Event data

  /** `data.timing` of an XHR event; 0 is a missing mark. */
  datatype XhrTiming = XhrTiming(requestStart: int, responseStart: int, loadEventEnd: int)

  /**
   * The event data `done` receives: the XHR description (page group `name`, timing, initiator,
   * URL, status, method, headers, sync flag, sub-resource kind), the unload event's `type`, and
   * the wrapped `data` of an XHR event.
   */
  datatype EventData = EventData(
    name: string,
    timing: Option<XhrTiming>,
    initiator: string,
    url: string,
    status: int,
    httpMethod: string,
    headers: Json,
    synchronous: bool,
    subresource: string,
    eventType: string,
    data: Option<EventData>)

  /** `window.performance.timing`; 0 is a missing mark. */
  datatype PageTiming = PageTiming(
    navigationStart: int,
    fetchStart: int,
    responseStart: int,
    unloadEventStart: int,
    loadEventStart: int)

  // ---------------------------------------------------------------------------------------------
  // Load timestamp

  // ---------------------------------------------------------------------------------------------
  // The XHR variables of `done`

  /** The variables an XHR beacon may add. */
  const XhrVarNames: set<string> :=
    {"u", "http.errno", "http.method", "http.hdr", "xhr.sync", "http.initiator", "rt.subres"}

  /** The request an XHR's `done` reports: the event's nested `data` when it has one, else the event. */
  function XhrData(ename: string, edata: Option<EventData>): Option<EventData> {
    if ename == "xhr" && edata.Some? && edata.value.data.Some? then edata.value.data else edata
  }

  /** A status reported as `http.errno`: a set status below -1 or from 400 up. */
  predicate IsHttpError(status: int) {
    status != 0 && (status < -1 || status >= 400)
  }

  /** A sub-resource flag that marks the beacon with `rt.subres`: set and not "passive". */
  predicate IsSubresource(s: string) {
    s != "" && s != "passive"
  }

  /** `vars` with `k` set to `v` when `c` holds, and unchanged otherwise. */
  function PutIf(vars: map<string, Json>, c: bool, k: string, v: Json): (r: map<string, Json>)
    ensures forall j :: j != k ==> (j in r <==> j in vars)
    ensures forall j :: j != k && j in vars ==> r[j] == vars[j]
    ensures c ==> k in r && r[k] == v
    ensures !c ==> (k in r <==> k in vars)
  {
    if c then vars[k := v] else vars
  }

  /** The request's address and outcome: its URL without the fragment (cleaned), an error status, a method other than GET. */
  function RequestTargetVars(vars: map<string, Json>, x: EventData, strip: bool): (r: map<string, Json>)
    ensures forall k :: k != "u" && k != "http.errno" && k != "http.method" ==> (k in r <==> k in vars)
    ensures forall k :: k != "u" && k != "http.errno" && k != "http.method" && k in vars ==> r[k] == vars[k]
    ensures x.url != "" ==> "u" in r && r["u"] == JStr(CleanupURL(Some(StripHash(x.url)), strip))
    ensures x.url == "" ==> ("u" in r <==> "u" in vars)
    ensures IsHttpError(x.status) ==> "http.errno" in r && r["http.errno"] == JNum(x.status)
    ensures !IsHttpError(x.status) ==> ("http.errno" in r <==> "http.errno" in vars)
    ensures x.httpMethod != "" && x.httpMethod != "GET" ==> "http.method" in r && r["http.method"] == JStr(x.httpMethod)
  {
    var v1 := PutIf(vars, x.url != "", "u", JStr(CleanupURL(Some(StripHash(x.url)), strip)));
    var v2 := PutIf(v1, IsHttpError(x.status), "http.errno", JNum(x.status));
    PutIf(v2, x.httpMethod != "" && x.httpMethod != "GET", "http.method", JStr(x.httpMethod))
  }

  /** The request's details: truthy headers, the sync flag, the initiator, and the sub-resource flag. */
  function RequestDetailVars(vars: map<string, Json>, x: EventData): (r: map<string, Json>)
    ensures forall k :: k != "http.hdr" && k != "xhr.sync" && k != "http.initiator" && k != "rt.subres" ==>
      (k in r <==> k in vars)
    ensures forall k :: k != "http.hdr" && k != "xhr.sync" && k != "http.initiator" && k != "rt.subres" && k in vars ==>
      r[k] == vars[k]
    ensures x.headers.Truthy() ==> "http.hdr" in r && r["http.hdr"] == x.headers
    ensures x.synchronous ==> "xhr.sync" in r && r["xhr.sync"] == JNum(1)
    ensures x.initiator != "" ==> "http.initiator" in r && r["http.initiator"] == JStr(x.initiator)
    ensures IsSubresource(x.subresource) ==> "rt.subres" in r && r["rt.subres"] == JNum(1)
    ensures !IsSubresource(x.subresource) ==> ("rt.subres" in r <==> "rt.subres" in vars)
  {
    var v1 := PutIf(vars, x.headers.Truthy(), "http.hdr", x.headers);
    var v2 := PutIf(v1, x.synchronous, "xhr.sync", JNum(1));
    var v3 := PutIf(v2, x.initiator != "", "http.initiator", JStr(x.initiator));
    PutIf(v3, IsSubresource(x.subresource), "rt.subres", JNum(1))
  }

  /** The variables after `done` has reported the request `x`; nothing outside `XhrVarNames` changes. */
  function RequestVars(vars: map<string, Json>, x: EventData, strip: bool): (r: map<string, Json>)
    ensures forall k :: k !in XhrVarNames ==> (k in r <==> k in vars)
    ensures forall k :: k !in XhrVarNames && k in vars ==> r[k] == vars[k]
  {
    RequestDetailVars(RequestTargetVars(vars, x, strip), x)
  }

  /** The variables after the XHR part of `done`: only an XHR with a request reports one. */
  function XhrVars(vars: map<string, Json>, ename: string, edata: Option<EventData>, strip: bool): map<string, Json> {
    var d := XhrData(ename, edata);
    if ename == "xhr" && d.Some? then RequestVars(vars, d.value, strip) else vars
  }

  /** Reporting a request leaves every variable outside `XhrVarNames` as it was. */
  lemma XhrVarsKeep(vars: map<string, Json>, ename: string, edata: Option<EventData>, strip: bool, k: string)
    requires k !in XhrVarNames
    ensures SameVar(vars, XhrVars(vars, ename, edata, strip), k)
  {
  }

  /** The XHR variables leave the page URL and the unload flags alone. */
  lemma XhrVarsKeepReport(vars: map<string, Json>, ename: string, edata: Option<EventData>, strip: bool)
    ensures SameVar(vars, XhrVars(vars, ename, edata, strip), "r")
    ensures SameVar(vars, XhrVars(vars, ename, edata, strip), "rt.abld")
    ensures SameVar(vars, XhrVars(vars, ename, edata, strip), "rt.ntvu")
    ensures SameVar(vars, XhrVars(vars, ename, edata, strip), "t_done")
  {
    XhrVarsKeep(vars, ename, edata, strip, "t_done");
    XhrVarsKeep(vars, ename, edata, strip, "r");
    XhrVarsKeep(vars, ename, edata, strip, "rt.abld");
    XhrVarsKeep(vars, ename, edata, strip, "rt.ntvu");
  }

  /** The request carries its own `timing.loadEventEnd`. */
  predicate HasLoadEnd(edata: Option<EventData>) {
    edata.Some? && edata.value.timing.Some? && edata.value.timing.value.loadEventEnd != 0
  }

  /** An XHR that no SPA started: its load time is the `t_now` it was given. */
  predicate TrustsNow(ename: string, edata: Option<EventData>) {
    ename == "xhr" && (edata.None? || edata.value.initiator != "spa")
  }

  /**
   * `validateLoadTimestamp(t_now, data, ename)`: an XHR's own load end if it has one; `t_now` for
   * any other XHR not started by an SPA; for a page where boomerang loaded after onload, the
   * page's `loadEventStart` when it precedes boomerang's end (with Navigation Timing) or the
   * first known of onload, loader start and boomerang start (without); otherwise `t_now`.
   */
  function LoadTimestamp(tNow: int, edata: Option<EventData>, ename: string, loadedLate: bool,
                         timing: Option<PageTiming>, tEnd: Option<int>, tOnload: Option<int>,
                         tLstart: Option<int>, tStart: int): (t: int)
    ensures edata.Some? && edata.value.timing.Some? && edata.value.timing.value.loadEventEnd != 0 ==>
      t == edata.value.timing.value.loadEventEnd
    ensures !loadedLate && t != tNow ==>
      edata.Some? && edata.value.timing.Some? && t == edata.value.timing.value.loadEventEnd
    ensures ename == "xhr" && !(edata.Some? && edata.value.initiator == "spa") && t != tNow ==>
      edata.Some? && edata.value.timing.Some? && t == edata.value.timing.value.loadEventEnd
    ensures timing.Some? && t != tNow && !(edata.Some? && edata.value.timing.Some? && t == edata.value.timing.value.loadEventEnd) ==>
      t == timing.value.loadEventStart && tEnd.Some? && t < tEnd.value
    ensures t == tNow || (edata.Some? && edata.value.timing.Some? && t == edata.value.timing.value.loadEventEnd) ||
      (timing.Some? && t == timing.value.loadEventStart) || Some(t) == tOnload || Some(t) == tLstart || t == tStart
    ensures !HasLoadEnd(edata) && (TrustsNow(ename, edata) || !loadedLate) ==> t == tNow
    ensures !HasLoadEnd(edata) && !TrustsNow(ename, edata) && loadedLate && timing.Some? ==>
      var les := timing.value.loadEventStart;
      (les != 0 && tEnd.Some? && les < tEnd.value ==> t == les) &&
      (!(les != 0 && tEnd.Some? && les < tEnd.value) ==> t == tNow)
    ensures !HasLoadEnd(edata) && !TrustsNow(ename, edata) && loadedLate && timing.None? ==>
      (IsSet(tOnload) ==> t == tOnload.value) &&
      (!IsSet(tOnload) && IsSet(tLstart) ==> t == tLstart.value) &&
      (!IsSet(tOnload) && !IsSet(tLstart) && tStart != 0 ==> t == tStart) &&
      (!IsSet(tOnload) && !IsSet(tLstart) && tStart == 0 ==> t == tNow)
  {
    if HasLoadEnd(edata) then
      edata.value.timing.value.loadEventEnd
    else if TrustsNow(ename, edata) then
      tNow
    else if loadedLate then
      if timing.Some? then
        var les := timing.value.loadEventStart;
        if les != 0 && tEnd.Some? && les < tEnd.value then les else tNow
      else
        Or(tOnload, Or(tLstart, Or(Some(tStart), Some(tNow)))).value
    else
      tNow
  }

  // ---------------------------------------------------------------------------------------------
  // Start of the navigation

  /** What `determineTStart` returns, and the `rt.start` variable it writes, if any. */
  datatype StartChoice = StartChoice(tStart: Option<int>, rtStart: Option<string>)

  /** The start an XHR beacon measures from: its named timer's start, else its request start. */
  function XhrStart(edata: Option<EventData>, timers: Entries<Timer>): Option<int> {
    if edata.Some? && edata.value.name != "" && Get(timers, edata.value.name).Some? then
      Get(timers, edata.value.name).value.start
    else if edata.Some? && edata.value.timing.Some? && edata.value.timing.value.requestStart != 0 then
      Some(edata.value.timing.value.requestStart)
    else None
  }

  /**
   * `determineTStart(ename, data)`: for an XHR, its own start, labelled "manual" (or "none" when an
   * SPA request has no start); for a page, in strict order, Navigation Timing's start, the cookie's
   * start unless the navigation was back/forward (type 2), the start cached by an earlier call,
   * and otherwise nothing, labelled "none".
   */
  function ChooseStart(ename: string, edata: Option<EventData>, timers: Entries<Timer>, navigationStart: Option<int>,
                       cookieStart: Option<int>, navigationType: int, cached: Option<int>): (c: StartChoice)
    ensures ename == "xhr" ==> (c.tStart == XhrStart(edata, timers) &&
      c.rtStart == Some(if c.tStart.None? && edata.Some? && edata.value.initiator == "spa" then "none" else "manual"))
    ensures ename != "xhr" && IsSet(navigationStart) ==> c == StartChoice(navigationStart, None)
    ensures ename != "xhr" && !IsSet(navigationStart) && IsSet(cookieStart) && navigationType != 2 ==>
      c == StartChoice(cookieStart, Some("cookie"))
    ensures ename != "xhr" && !IsSet(navigationStart) && !(IsSet(cookieStart) && navigationType != 2) && IsSet(cached) ==>
      c == StartChoice(cached, None)
    ensures ename != "xhr" && !IsSet(navigationStart) && !(IsSet(cookieStart) && navigationType != 2) && !IsSet(cached) ==>
      c == StartChoice(None, Some("none"))
  {
    if ename == "xhr" then
      var t := XhrStart(edata, timers);
      StartChoice(t, Some(if t.None? && edata.Some? && edata.value.initiator == "spa" then "none" else "manual"))
    else if IsSet(navigationStart) then StartChoice(navigationStart, None)
    else if IsSet(cookieStart) && navigationType != 2 then StartChoice(cookieStart, Some("cookie"))
    else if IsSet(cached) then StartChoice(cached, None)
    else StartChoice(None, Some("none"))
  }

  /**
   * For a page, the start is never 0, is one of the three candidates, is labelled "none" exactly
   * when it is unknown, and a back/forward navigation never takes the cookie's start.
   */
  lemma ChooseStartPage(edata: Option<EventData>, timers: Entries<Timer>, navigationStart: Option<int>,
                        cookieStart: Option<int>, navigationType: int, cached: Option<int>, ename: string)
    requires ename != "xhr"
    ensures var c := ChooseStart(ename, edata, timers, navigationStart, cookieStart, navigationType, cached);
      (c.tStart.Some? ==> c.tStart.value != 0 && (c.tStart == navigationStart || c.tStart == cookieStart || c.tStart == cached)) &&
      (c.rtStart == Some("none") <==> c.tStart.None?) &&
      (navigationType == 2 ==> c.rtStart != Some("cookie") && (c.tStart == navigationStart || c.tStart == cached || c.tStart.None?)) &&
      (c.rtStart == Some("cookie") ==> !IsSet(navigationStart))
  {
  }

  // ---------------------------------------------------------------------------------------------
  // Session cookie

  /** `+v`: NaN (`None`) for a missing value or non-numeric text. */
  function CookieNumber(v: Option<string>): Option<int> {
    if v.None? then None else ToNumber(v.value)
  }

  /** `+v || 0`. */
  function CookieTime(v: Option<string>): int {
    var n := CookieNumber(v);
    if n.Some? then n.value else 0
  }

  function Max(a: int, b: int): int {
    if a >= b then a else b
  }

  /** The session's start: the latest of the last page's load (`ld`), unload (`ul`) and click (`cl`). */
  function SessionStart(sub: Entries<string>): (s: int)
    ensures s >= CookieTime(Get(sub, "ld")) && s >= CookieTime(Get(sub, "ul")) && s >= CookieTime(Get(sub, "cl"))
    ensures s == CookieTime(Get(sub, "ld")) || s == CookieTime(Get(sub, "ul")) || s == CookieTime(Get(sub, "cl"))
  {
    Max(CookieTime(Get(sub, "ld")), Max(CookieTime(Get(sub, "ul")), CookieTime(Get(sub, "cl"))))
  }

  /** The start was set less than 15 ms after a click or submit that led to this very URL. */
  predicate ClickMatches(sub: Entries<string>, s: int, url: string) {
    IsSetStr(Get(sub, "nu")) && Get(sub, "nu") == Some(url) &&
    CookieNumber(Get(sub, "cl")).Some? && s < CookieNumber(Get(sub, "cl")).value + 15
  }

  /** The start is the last page's unload, and that page is this page's referrer. */
  predicate UnloadMatches(sub: Entries<string>, s: int, r2: Option<string>) {
    CookieNumber(Get(sub, "ul")) == Some(s) && Get(sub, "r") == r2
  }

  /** What `initFromCookie` sets: the cookie's referrer, the start time and the first-byte estimate. */
  datatype Session = Session(r: Option<string>, tStart: Option<int>, tFbApprox: Option<int>)

  /**
   * `initFromCookie` on the sub-cookies read: with a start time and a referrer or clicked URL,
   * the cookie's referrer is taken, and the start is accepted when the referrer check is off, or
   * the start came from a click to this URL, or from the unload of the referring page; an accepted
   * start with a later unload/hide time (`hd`) also gives the first-byte estimate. A rejected start
   * clears both.
   */
  function FromCookie(sub: Entries<string>, url: string, strict: bool, r2: Option<string>, prev: Session): (n: Session)
    ensures var s := SessionStart(sub);
      s == 0 || !(IsSetStr(Get(sub, "r")) || IsSetStr(Get(sub, "nu"))) ==> n == prev
    ensures n.tStart != prev.tStart && n.tStart.Some? ==> n.tStart == Some(SessionStart(sub)) && n.tStart.value != 0
    ensures n.tStart != prev.tStart && n.tStart.Some? && strict ==>
      ClickMatches(sub, SessionStart(sub), url) || UnloadMatches(sub, SessionStart(sub), r2)
    ensures var s := SessionStart(sub);
      (s != 0 && (IsSetStr(Get(sub, "r")) || IsSetStr(Get(sub, "nu"))) && strict &&
       !ClickMatches(sub, s, url) && !UnloadMatches(sub, s, r2)) ==> n == Session(Get(sub, "r"), None, None)
    ensures n.tFbApprox != prev.tFbApprox && n.tFbApprox.Some? ==>
      CookieNumber(Get(sub, "hd")).Some? && CookieNumber(Get(sub, "hd")).value > SessionStart(sub) &&
      n.tFbApprox == ParseInt(Get(sub, "hd").value, 10)
    ensures var s := SessionStart(sub);
      s != 0 && (IsSetStr(Get(sub, "r")) || IsSetStr(Get(sub, "nu"))) ==> n.r == Get(sub, "r")
    ensures var s := SessionStart(sub);
      (s != 0 && (IsSetStr(Get(sub, "r")) || IsSetStr(Get(sub, "nu"))) &&
       (!strict || ClickMatches(sub, s, url) || UnloadMatches(sub, s, r2))) ==>
        n.tStart == Some(s) &&
        (CookieNumber(Get(sub, "hd")).Some? && CookieNumber(Get(sub, "hd")).value > s ==>
          n.tFbApprox == ParseInt(Get(sub, "hd").value, 10)) &&
        (!(CookieNumber(Get(sub, "hd")).Some? && CookieNumber(Get(sub, "hd")).value > s) ==>
          n.tFbApprox == prev.tFbApprox)
  {
    var s := SessionStart(sub);
    if s != 0 && (IsSetStr(Get(sub, "r")) || IsSetStr(Get(sub, "nu"))) then
      var r := Get(sub, "r");
      if !strict || ClickMatches(sub, s, url) || UnloadMatches(sub, s, r2) then
        var hd := CookieNumber(Get(sub, "hd"));
        Session(r, Some(s), if hd.Some? && hd.value > s then ParseInt(Get(sub, "hd").value, 10) else prev.tFbApprox)
      else
        Session(r, None, None)
    else prev
  }

  /**
   * `updateCookie`'s merge: each parameter set to `undefined` deletes its key, any other value is
   * written, with the URL-valued `nu` and `r` hashed first.
   */
  function MergeParams(sub: Entries<string>, params: Entries<Option<string>>, hash: string -> string): Entries<string> {
    if |params| == 0 then sub
    else
      var prev := MergeParams(sub, params[..|params| - 1], hash);
      var p := params[|params| - 1];
      if p.1.None? then (if Has(prev, p.0) then Remove(prev, p.0) else prev)
      else Put(prev, p.0, HashParam(p.0, p.1.value, hash))
  }

  /** The value stored for a parameter: URLs (`nu`, `r`) go through `hashQueryString`, which returns "" as it is. */
  function HashParam(k: string, v: string, hash: string -> string): string {
    if (k == "nu" || k == "r") && v != "" then hash(v) else v
  }

  /** After the merge, a parameter's key holds what the parameter says, and every other key is untouched. */
  lemma {:induction false} MergeParamsSpec(sub: Entries<string>, params: Entries<Option<string>>, hash: string -> string, k: string)
    requires DistinctKeys(params)
    ensures var m := MergeParams(sub, params, hash);
      (!Has(params, k) ==> Get(m, k) == Get(sub, k)) &&
      (Get(params, k) == Some(None) ==> Get(m, k).None?) &&
      (forall v :: Get(params, k) == Some(Some(v)) ==> Get(m, k) == Some(HashParam(k, v, hash)))
  {
    if |params| > 0 {
      var init := params[..|params| - 1];
      var p := params[|params| - 1];
      assert DistinctKeys(init);
      MergeParamsSpec(sub, init, hash, k);
      assert params == init + [p];
      var m0 := MergeParams(sub, init, hash);
      if p.0 == k {
        assert !Has(init, k);
        GetLast(params);
        if p.1.None? && Has(m0, k) {
          assert Get(Remove(m0, k), k).None?;
        }
      } else {
        GetSkipLast(params, k);
        if p.1.None? && Has(m0, p.0) {
          assert Get(Remove(m0, p.0), k) == Get(m0, k);
        }
      }
    }
  }

  /** The last entry of an object with distinct keys is what its key reads. */
  lemma GetLast<V>(o: Entries<V>)
    requires |o| > 0 && DistinctKeys(o)
    ensures Get(o, o[|o| - 1].0) == Some(o[|o| - 1].1)
  {
    if |o| > 1 {
      assert DistinctKeys(o[1..]) by {
        forall i, j | 0 <= i < j < |o[1..]| ensures o[1..][i].0 != o[1..][j].0 {
          assert o[1..][i] == o[i + 1] && o[1..][j] == o[j + 1];
        }
      }
      GetLast(o[1..]);
      assert o[1..][|o[1..]| - 1] == o[|o| - 1];
    }
  }

  /** A key other than the last entry's reads the same without that entry. */
  lemma GetSkipLast<V>(o: Entries<V>, k: string)
    requires |o| > 0 && o[|o| - 1].0 != k
    ensures Get(o, k) == Get(o[..|o| - 1], k)
  {
    if |o| > 1 && o[0].0 != k {
      GetSkipLast(o[1..], k);
      assert o[1..][..|o[1..]| - 1] == o[..|o| - 1][1..];
    }
  }

  /** The sub-cookies `updateCookie` writes: the merge, then the timer set to the current time. */
  function UpdatedSubCookies(sub: Entries<string>, params: Entries<Option<string>>, timer: string, now: int, hash: string -> string): Entries<string> {
    var m := MergeParams(sub, params, hash);
    if timer != "" then Put(m, timer, IntToString(now)) else m
  }

  /** The written sub-cookies hold every parameter given a value (hashed where it is a URL) and the timer at `now`. */
  lemma UpdatedSubCookiesSpec(sub: Entries<string>, params: Entries<Option<string>>, timer: string, now: int,
                              hash: string -> string, k: string, v: string)
    requires DistinctKeys(params)
    ensures timer != "" ==> Get(UpdatedSubCookies(sub, params, timer, now, hash), timer) == Some(IntToString(now))
    ensures Get(params, k) == Some(Some(v)) && k != timer ==>
      Get(UpdatedSubCookies(sub, params, timer, now, hash), k) == Some(HashParam(k, v, hash))
  {
    MergeParamsSpec(sub, params, hash, k);
  }
}
