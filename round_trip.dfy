/**
 * The RT ("round trip") plugin: it measures the page (or XHR) from the start of the navigation to
 * the moment the page is usable, keeps developer timers, and carries the start of a navigation
 * across pages in the `RT` session cookie. Its private `impl` object is the class `RT`; the
 * browser it reads from arrives as a `Browser` record with each call.
 */
module RoundTrip {
  import opened Wrappers
  import opened JsText
  import opened JsObject
  import opened JsValue
  import opened BoomrUtils
  import opened BoomrCore
  import opened RtLogic

  /**
   * What one handler call sees of the browser: `BOOMR.now()`, `BOOMR.visibilityState()`, the
   * document's URL and referrer, Navigation Timing (`performance.timing` and
   * `performance.navigation.type`), the chrome.csi and gtbExternal start times (0 when
   * unavailable), whether the user agent is Firefox 7 or 8, `hashQueryString(url, true)` (an
   * uninterpreted function: it validates the URL and hashes long query strings with MD5), and
   * whether the browser accepts the cookie and whether writing it took more than 50 ms.
   */
  datatype Browser = Browser(
    now: int,
    visibility: string,
    url: string,
    referrer: string,
    timing: Option<PageTiming>,
    navigationType: Option<int>,
    csiStart: int,
    gtbStart: int,
    firefox78: bool,
    hashUrl: string -> string,
    cookieAccepted: bool,
    cookieSlow: bool)

  /** `hashQueryString(url, true)`: an empty URL is returned as it is. */
  function HashQS(b: Browser, url: string): string {
    if url == "" then "" else b.hashUrl(url)
  }

  /** The sub-cookies `initFromCookie` deletes once it has read them. */
  const ClearedParams: Entries<Option<string>> :=
    [("s", None), ("r", None), ("nu", None), ("ul", None), ("cl", None), ("hd", None)]

  /** None of the short-lived session sub-cookies is present. */
  predicate SessionCleared(sub: Entries<string>) {
    Get(sub, "s").None? && Get(sub, "r").None? && Get(sub, "nu").None? &&
    Get(sub, "ul").None? && Get(sub, "cl").None? && Get(sub, "hd").None?
  }

  /** Merging `ClearedParams` deletes every short-lived session sub-cookie, whatever was read. */
  lemma ClearedParamsClear(sub: Entries<string>, now: int, hash: string -> string)
    ensures SessionCleared(UpdatedSubCookies(sub, ClearedParams, "", now, hash))
  {
    assert DistinctKeys(ClearedParams);
    MergeParamsSpec(sub, ClearedParams, hash, "s");
    MergeParamsSpec(sub, ClearedParams, hash, "r");
    MergeParamsSpec(sub, ClearedParams, hash, "nu");
    MergeParamsSpec(sub, ClearedParams, hash, "ul");
    MergeParamsSpec(sub, ClearedParams, hash, "cl");
    MergeParamsSpec(sub, ClearedParams, hash, "hd");
  }

  /** The variables `done` removes before it measures again. */
  const StaleVars: seq<string> := [
    "t_done", "t_page", "t_resp", "t_postrender", "t_prerender", "t_load", "t_other",
    "r", "r2", "rt.tstart", "rt.cstart", "rt.bstart", "rt.end", "rt.subres", "rt.abld",
    "http.errno", "http.method", "xhr.sync"]

  /** The supporting timestamps `done` adds after the removal. */
  const SupportingVars: set<string> := {"rt.tstart", "rt.cstart", "rt.bstart", "rt.blstart", "rt.end"}

  /**
   * The Navigation Timing source `initFromNavTiming` uses, with the `rt.start` text naming it:
   * `performance.timing`, else chrome.csi's start, else gtbExternal's start.
   */
  function TimingSource(b: Browser): Option<(PageTiming, string)> {
    if b.timing.Some? then Some((b.timing.value, "navigation"))
    else if b.csiStart != 0 then Some((PageTiming(b.csiStart, 0, 0, 0, 0), "csi"))
    else if b.gtbStart != 0 then Some((PageTiming(b.gtbStart, 0, 0, 0, 0), "gtb"))
    else None
  }

  /** `ti.navigationStart || ti.fetchStart || undefined` (`unloadEventStart` first on Firefox 7 and 8). */
  function NavigationStartOf(ti: PageTiming, firefox78: bool): (n: Option<int>)
    ensures n.Some? ==> n.value != 0
    ensures !firefox78 && ti.navigationStart != 0 ==> n == Some(ti.navigationStart)
    ensures n.None? ==> ti.fetchStart == 0
    ensures firefox78 && ti.unloadEventStart != 0 ==> n == Some(ti.unloadEventStart)
    ensures (if firefox78 then ti.unloadEventStart else ti.navigationStart) == 0 && ti.fetchStart != 0 ==>
      n == Some(ti.fetchStart)
  {
    var first := if firefox78 then ti.unloadEventStart else ti.navigationStart;
    if first != 0 then Some(first) else if ti.fetchStart != 0 then Some(ti.fetchStart) else None
  }

  /** The value the click or submit handler records as the next URL. */
  function SubmitTarget(action: string, url: string): (v: string)
    ensures '?' in v
    ensures var a := if action != "" then action else url;
      ('?' in a ==> v == a) && ('?' !in a ==> v == a + "?")
  {
    var a := if action != "" then action else url;
    if '?' in a then a else a + "?"
  }

  class RT {
    var onloadfired: bool
    var unloadfired: bool
    var visiblefired: bool
    var initialized: bool
    var complete: bool
    var timers: Entries<Timer>
    /** The session cookie's name; "" disables the cookie. */
    var cookie: string
    var cookieExp: int
    var strictReferrer: bool
    var navigationType: int
    var navigationStart: Option<int>
    var responseStart: Option<int>
    /** The start read from the cookie. */
    var tStart: Option<int>
    var cachedTStart: Option<int>
    var tFbApprox: Option<int>
    /** The referrer the cookie names, and the document's referrer. */
    var r: Option<string>
    var r2: Option<string>
    /** Whether the cookie read by the last `init` held sub-cookies. */
    ghost var hadSession: bool
    var visibilityState: Option<string>
    /** Variables to remove once the beacon carrying them is sent. */
    var addedVars: seq<string>

    /** Timer names are unique, as every write goes through an object key. */
    predicate Valid()
      reads this`timers
    {
      DistinctKeys(timers)
    }

    constructor()
      ensures Valid()
      ensures !onloadfired && !unloadfired && !visiblefired && !initialized && !complete
      ensures timers == [] && cookie == "RT" && cookieExp == 600 && strictReferrer && navigationType == 0
      ensures navigationStart == None && responseStart == None && tStart == None && cachedTStart == None
      ensures tFbApprox == None && r == None && r2 == None && visibilityState == None && addedVars == []
    {
      onloadfired := false;
      unloadfired := false;
      visiblefired := false;
      initialized := false;
      complete := false;
      timers := [];
      cookie := "RT";
      cookieExp := 600;
      strictReferrer := true;
      navigationType := 0;
      navigationStart := None;
      responseStart := None;
      tStart := None;
      cachedTStart := None;
      tFbApprox := None;
      r := None;
      r2 := None;
      visibilityState := None;
      addedVars := [];
    }

    /** `is_complete()`. */
    predicate IsComplete()
      reads this
    {
      complete
    }

    // -------------------------------------------------------------------------------------------
    // Timers

    /** `startTimer(name, v)`. */
    method StartTimer(name: string, v: Option<int>, now: int)
      requires Valid()
      modifies this`timers
      ensures Valid()
      ensures timers == StartedTimers(old(timers), name, v, now)
    {
      TimerWritesDistinct(timers, name, v, NoDelta, now);
      timers := StartedTimers(timers, name, v, now);
    }

    /** `endTimer(name, v)`. */
    method EndTimer(name: string, v: Option<int>, now: int)
      requires Valid()
      modifies this`timers
      ensures Valid()
      ensures timers == EndedTimers(old(timers), name, v, now)
    {
      TimerWritesDistinct(timers, name, v, NoDelta, now);
      timers := EndedTimers(timers, name, v, now);
    }

    /** `setTimer(name, d)`. */
    method SetTimer(name: string, d: Delta)
      requires Valid()
      modifies this`timers
      ensures Valid()
      ensures timers == DeltaTimers(old(timers), name, d)
    {
      TimerWritesDistinct(timers, name, None, d, 0);
      timers := DeltaTimers(timers, name, d);
    }

    /**
     * `addTimersToBeacon(vars, source)`: every timer is flushed in place; the measurable basic
     * timers become variables, the other measurable ones go into `t_other`; with source
     * "beacon" the timers are then dropped and the plugin is no longer complete.
     */
    method AddTimersToBeacon(core: Boomr, source: string)
      requires Valid()
      modifies this`timers, this`addedVars, this`complete, core`vars
      ensures Valid()
      ensures var e := Emitted(old(timers), cachedTStart);
        core.vars == FlushedVars(old(core.vars), e) && addedVars == old(addedVars) + FlushedNames(e)
      ensures source == "beacon" ==> timers == [] && !complete
      ensures source != "beacon" ==> timers == FlushAll(old(timers), cachedTStart) && complete == old(complete)
    {
      ghost var e := Emitted(timers, cachedTStart);
      ghost var a0 := addedVars;
      var tOther := FlushTimers(core);
      assert |tOther| == |OtherOf(e)|;
      if |tOther| > 0 {
        core.AddVar("t_other", JStr(Join(tOther, ',')));
        assert addedVars + ["t_other"] == a0 + FlushedNames(e);
        addedVars := addedVars + ["t_other"];
      } else {
        assert addedVars == a0 + FlushedNames(e);
      }
      if source == "beacon" {
        timers := [];
        complete := false;
      }
    }

    /** The loop of `addTimersToBeacon`: each timer flushed in place, and its delta routed. */
    method FlushTimers(core: Boomr) returns (tOther: seq<string>)
      requires Valid()
      modifies this`timers, this`addedVars, core`vars
      ensures Valid()
      ensures var e := Emitted(old(timers), cachedTStart);
        core.vars == TimerVars(old(core.vars), e) && addedVars == old(addedVars) + Keys(BasicOf(e)) &&
        tOther == OtherItems(e)
      ensures timers == FlushAll(old(timers), cachedTStart)
    {
      ghost var t0 := timers;
      ghost var v0 := core.vars;
      ghost var a0 := addedVars;
      FlushPrefixAll(t0, cachedTStart);
      tOther := [];
      var i := 0;
      while i < |timers|
        invariant 0 <= i <= |timers| == |t0|
        invariant timers == FlushPrefix(t0, i, cachedTStart)
        invariant core.vars == TimerVars(v0, Emitted(t0[..i], cachedTStart))
        invariant addedVars == a0 + Keys(BasicOf(Emitted(t0[..i], cachedTStart)))
        invariant tOther == OtherItems(Emitted(t0[..i], cachedTStart))
      {
        FlushStepFacts(v0, t0, i, cachedTStart);
        FlushPrefixStep(t0, i, cachedTStart);
        ghost var x := if Flush(t0[i].1, cachedTStart).delta.Delta? && t0[i].0 in BasicTimers then [t0[i].0] else [];
        AppendAssoc(a0, Keys(BasicOf(Emitted(t0[..i], cachedTStart))), x);
        var item := FlushAt(core, i);
        tOther := tOther + item;
        i := i + 1;
      }
      assert t0[..i] == t0;
    }

    /** One step of the flush: timer `i` is flushed, and a measurable one becomes a variable or a `t_other` item. */
    method FlushAt(core: Boomr, i: int) returns (item: seq<string>)
      requires 0 <= i < |timers|
      modifies this`timers, this`addedVars, core`vars
      ensures var (name, t) := (old(timers)[i].0, Flush(old(timers)[i].1, cachedTStart));
        timers == old(timers)[i := (name, t)] &&
        core.vars == (if t.delta.Delta? && name in BasicTimers then old(core.vars)[name := JNum(t.delta.d)] else old(core.vars)) &&
        addedVars == old(addedVars) + (if t.delta.Delta? && name in BasicTimers then [name] else []) &&
        item == (if t.delta.Delta? && name !in BasicTimers then [OtherItem((name, t.delta.d))] else [])
    {
      var name := timers[i].0;
      var t := Flush(timers[i].1, cachedTStart);
      timers := timers[i := (name, t)];
      item := [];
      if t.delta.Delta? {
        if name in BasicTimers {
          core.AddVar(name, JNum(t.delta.d));
          addedVars := addedVars + [name];
        } else {
          item := [OtherItem((name, t.delta.d))];
        }
      }
    }

    // -------------------------------------------------------------------------------------------
    // Session cookie

    /**
     * `updateCookie(params, timer)`: with the cookie enabled, the sub-cookies read back are merged
     * with `params`, the timer (if any) is set to now, and the result is written; the call
     * answers whether the write succeeded. A write slower than 50 ms removes the cookie again.
     */
    method UpdateCookie(core: Boomr, params: Entries<Option<string>>, timer: string, b: Browser) returns (ok: bool)
      modifies core`cookieJar
      ensures cookie == "" ==> !ok && core.cookieJar == old(core.cookieJar)
      ensures var read := SubCookies(GetCookie(cookie, old(core.cookieJar)));
        var sub := UpdatedSubCookies(if read.Some? then read.value else [], params, timer, b.now, b.hashUrl);
        (ok && !b.cookieSlow ==> GetCookie(cookie, core.cookieJar) == Some(ObjectToString(sub))) &&
        ((cookie != "" && cookieExp >= 0 && core.config.siteDomain != "" && |CookieText(cookie, ObjectToString(sub))| < 500 &&
          b.cookieAccepted && ';' !in ObjectToString(sub)) ==> ok)
      ensures ok && b.cookieSlow && |cookie| < 497 && b.cookieAccepted ==> core.cookieJar == ""
    {
      if cookie == "" {
        return false;
      }
      var read := GetSubCookies(GetCookie(cookie, core.cookieJar));
      var sub0 := if read.Some? then read.value else [];
      var sub := sub0;
      var i := 0;
      while i < |params|
        invariant 0 <= i <= |params|
        invariant sub == MergeParams(sub0, params[..i], b.hashUrl)
      {
        assert params[..i + 1][..i] == params[..i];
        var k := params[i].0;
        if params[i].1.None? {
          if Has(sub, k) {
            sub := Remove(sub, k);
          }
        } else {
          sub := Put(sub, k, HashParam(k, params[i].1.value, b.hashUrl));
        }
        i := i + 1;
      }
      assert params[..i] == params;
      if timer != "" {
        sub := Put(sub, timer, IntToString(b.now));
      }
      ok := core.SetCookie(cookie, sub, cookieExp, b.cookieAccepted);
      if !ok {
        return false;
      }
      if b.cookieSlow {
        var _ := core.RemoveCookie(cookie, b.cookieAccepted);
      }
      return true;
    }

    /**
     * `initFromCookie()`: reads the session from the cookie (nothing happens without one) and then
     * deletes the sub-cookies it used.
     */
    method InitFromCookie(core: Boomr, b: Browser)
      modifies this`r, this`tStart, this`tFbApprox, core`cookieJar
      ensures var read := SubCookies(GetCookie(cookie, old(core.cookieJar)));
        (read.None? ==> r == old(r) && tStart == old(tStart) && tFbApprox == old(tFbApprox) && core.cookieJar == old(core.cookieJar)) &&
        (read.Some? ==> (Session(r, tStart, tFbApprox) ==
          FromCookie(read.value, HashQS(b, b.url), strictReferrer, r2, Session(old(r), old(tStart), old(tFbApprox)))))
      ensures var read := SubCookies(GetCookie(cookie, old(core.cookieJar)));
        read.Some? ==>
          var sub := UpdatedSubCookies(read.value, ClearedParams, "", b.now, b.hashUrl);
          SessionCleared(sub) &&
          ((cookieExp >= 0 && core.config.siteDomain != "" && |CookieText(cookie, ObjectToString(sub))| < 500 &&
            b.cookieAccepted && ';' !in ObjectToString(sub) && !b.cookieSlow) ==>
            GetCookie(cookie, core.cookieJar) == Some(ObjectToString(sub)))
    {
      var read := GetSubCookies(GetCookie(cookie, core.cookieJar));
      if read.None? {
        return;
      }
      var n := FromCookie(read.value, HashQS(b, b.url), strictReferrer, r2, Session(r, tStart, tFbApprox));
      r, tStart, tFbApprox := n.r, n.tStart, n.tFbApprox;
      ghost var before := (cookie, strictReferrer, r2);
      var _ := ClearSession(core, b);
      assert (cookie, strictReferrer, r2) == before;
    }

    /**
     * `initFromCookie()` as `init` relies on it: `hadSession` records whether the cookie held
     * sub-cookies, and without them `r` is kept.
     */
    method LoadSession(core: Boomr, b: Browser)
      modifies this`r, this`tStart, this`tFbApprox, this`hadSession, core`cookieJar
      ensures hadSession <==> SubCookies(GetCookie(cookie, old(core.cookieJar))).Some?
      ensures !hadSession ==> r == old(r)
    {
      ghost var found := SubCookies(GetCookie(cookie, core.cookieJar)).Some?;
      InitFromCookie(core, b);
      hadSession := found;
    }

    /** The cookie update of `done`: the session is written back with no further parameters. */
    method SaveSession(core: Boomr, b: Browser)
      modifies core`cookieJar
      ensures cookie == "" ==> core.cookieJar == old(core.cookieJar)
    {
      var _ := UpdateCookie(core, [], "", b);
    }

    /**
     * The cookie update at the end of `initFromCookie`: the sub-cookies just read are written back
     * without `s`, `r`, `nu`, `ul`, `cl` and `hd`.
     */
    method ClearSession(core: Boomr, b: Browser) returns (ok: bool)
      modifies core`cookieJar
      ensures cookie == "" ==> !ok && core.cookieJar == old(core.cookieJar)
      ensures var read := SubCookies(GetCookie(cookie, old(core.cookieJar)));
        var sub := UpdatedSubCookies(if read.Some? then read.value else [], ClearedParams, "", b.now, b.hashUrl);
        SessionCleared(sub) &&
        (ok && !b.cookieSlow ==> GetCookie(cookie, core.cookieJar) == Some(ObjectToString(sub))) &&
        ((cookie != "" && cookieExp >= 0 && core.config.siteDomain != "" && |CookieText(cookie, ObjectToString(sub))| < 500 &&
          b.cookieAccepted && ';' !in ObjectToString(sub)) ==> ok)
    {
      ghost var read := SubCookies(GetCookie(cookie, core.cookieJar));
      ClearedParamsClear(if read.Some? then read.value else [], b.now, b.hashUrl);
      ok := UpdateCookie(core, ClearedParams, "", b);
    }

    // -------------------------------------------------------------------------------------------
    // Navigation Timing and the load timestamps

    /**
     * `initFromNavTiming()`: once the navigation start is known nothing happens; otherwise the
     * navigation type is taken, and with a timing source `rt.start` names it and the navigation
     * and response starts are read (0 being missing).
     */
    method InitFromNavTiming(core: Boomr, b: Browser)
      modifies this`navigationType, this`navigationStart, this`responseStart, core`vars
      ensures IsSet(old(navigationStart)) ==>
        navigationType == old(navigationType) && navigationStart == old(navigationStart) &&
        responseStart == old(responseStart) && core.vars == old(core.vars)
      ensures !IsSet(old(navigationStart)) ==>
        navigationType == (if b.navigationType.Some? then b.navigationType.value else old(navigationType))
      ensures !IsSet(old(navigationStart)) && TimingSource(b).None? ==>
        navigationStart == old(navigationStart) && responseStart == old(responseStart) && core.vars == old(core.vars)
      ensures !IsSet(old(navigationStart)) && TimingSource(b).Some? ==>
        var (ti, source) := TimingSource(b).value;
        navigationStart == NavigationStartOf(ti, b.firefox78) &&
        responseStart == (if ti.responseStart != 0 then Some(ti.responseStart) else None) &&
        core.vars == old(core.vars)["rt.start" := JStr(source)]
    {
      if IsSet(navigationStart) {
        return;
      }
      if b.navigationType.Some? {
        navigationType := b.navigationType.value;
      }
      var ti := TimingSource(b);
      if ti.Some? {
        core.AddVar("rt.start", JStr(ti.value.1));
        navigationStart := NavigationStartOf(ti.value.0, b.firefox78);
        responseStart := if ti.value.0.responseStart != 0 then Some(ti.value.0.responseStart) else None;
      }
    }

    /** `navigationStart()`: reads Navigation Timing when the start is not yet known. */
    method NavigationStart(core: Boomr, b: Browser) returns (n: Option<int>)
      modifies this`navigationType, this`navigationStart, this`responseStart, core`vars
      ensures n == navigationStart
      ensures IsSet(old(navigationStart)) ==> n == old(navigationStart) && core.vars == old(core.vars)
      ensures !IsSet(old(navigationStart)) && TimingSource(b).Some? ==>
        n == NavigationStartOf(TimingSource(b).value.0, b.firefox78)
    {
      if !IsSet(navigationStart) {
        InitFromNavTiming(core, b);
      }
      return navigationStart;
    }

    /**
     * `checkPreRender()`: only while the page is prerendering, `t_load` measures from the
     * navigation start to now, and `t_prerender` and `t_postrender` are started.
     */
    method CheckPreRender(b: Browser) returns (prerender: bool)
      requires Valid()
      modifies this`timers
      ensures Valid()
      ensures prerender <==> b.visibility == "prerender"
      ensures !prerender ==> timers == old(timers)
      ensures prerender ==>
        Get(timers, "t_load") == Some(Timer(Some(Stamp(navigationStart, b.now)), Some(b.now), NoDelta)) &&
        Get(timers, "t_prerender") == Some(Timer(Some(Stamp(navigationStart, b.now)), None, NoDelta)) &&
        Get(timers, "t_postrender") == Some(Timer(Some(b.now), None, NoDelta))
    {
      if b.visibility != "prerender" {
        return false;
      }
      StartTimer("t_load", navigationStart, b.now);
      EndTimer("t_load", None, b.now);
      StartTimer("t_prerender", navigationStart, b.now);
      StartTimer("t_postrender", None, b.now);
      return true;
    }

    /**
     * The first-byte time `setPageLoadTimers` measures from: the XHR's response start; for a page,
     * Navigation Timing's response start, else (when `t_page` was started by hand, which ends
     * that timer instead) nothing, else the cookie's estimate.
     */
    method FirstByte(ename: string, edata: Option<EventData>, now: int) returns (rs: Option<int>)
      requires Valid()
      modifies this`timers
      ensures Valid()
      ensures ename == "xhr" ==>
        rs == (if edata.Some? && edata.value.timing.Some? then Some(edata.value.timing.value.responseStart) else None)
      ensures ename != "xhr" ==>
        rs == (if IsSet(responseStart) then responseStart else if Has(old(timers), "t_page") then None
               else if IsSet(tFbApprox) then tFbApprox else None)
      ensures ename != "xhr" && !IsSet(responseStart) && Has(old(timers), "t_page") ==>
        timers == EndedTimers(old(timers), "t_page", None, now)
      ensures !(ename != "xhr" && !IsSet(responseStart) && Has(old(timers), "t_page")) ==> timers == old(timers)
      ensures Get(timers, "t_done") == Get(old(timers), "t_done")
    {
      rs := None;
      if ename == "xhr" {
        if edata.Some? && edata.value.timing.Some? {
          rs := Some(edata.value.timing.value.responseStart);
        }
      } else if IsSet(responseStart) {
        rs := responseStart;
      } else if Has(timers, "t_page") {
        EndTimer("t_page", None, now);
      } else if IsSet(tFbApprox) {
        rs := tFbApprox;
      }
    }

    /**
     * With a first-byte time, `t_resp` ends there and `t_page` becomes the time from it to the
     * load: `t_load`'s end when a prerender measured one, else `t_done`.
     */
    method MeasureResponse(rs: int, tDone: int, now: int)
      requires Valid()
      modifies this`timers
      ensures Valid()
      ensures Get(timers, "t_resp").Some? && Get(timers, "t_resp").value.end.Some?
      ensures Get(timers, "t_page") == Some(Timer(None, None, PageDelta(Get(old(timers), "t_load"), tDone, rs)))
      ensures forall k :: k != "t_resp" && k != "t_page" ==> Get(timers, k) == Get(old(timers), k)
    {
      ghost var t0 := timers;
      EndTimer("t_resp", Some(rs), now);
      ghost var t1 := timers;
      var load := Get(timers, "t_load");
      assert load == Get(t0, "t_load");
      SetTimer("t_page", PageDelta(load, tDone, rs));
      assert Get(timers, "t_resp") == Get(t1, "t_resp");
    }

    /** A started prerender: `t_postrender` and `t_prerender` end now. */
    method EndPrerender(now: int)
      requires Valid()
      modifies this`timers
      ensures Valid()
      ensures Has(old(timers), "t_postrender") ==>
        timers == EndedTimers(EndedTimers(old(timers), "t_postrender", None, now), "t_prerender", None, now)
      ensures !Has(old(timers), "t_postrender") ==> timers == old(timers)
      ensures forall k :: k != "t_postrender" && k != "t_prerender" ==> Get(timers, k) == Get(old(timers), k)
    {
      if Has(timers, "t_postrender") {
        EndTimer("t_postrender", None, now);
        EndTimer("t_prerender", None, now);
      }
    }

    /**
     * The timer part of `setPageLoadTimers`: the first-byte time is found, the response and page
     * times measured from it, and a prerender's timers ended.
     */
    method PageLoadTimers(ename: string, tDone: int, edata: Option<EventData>, now: int) returns (respStart: Option<int>)
      requires Valid()
      modifies this`timers
      ensures Valid()
      ensures ename == "xhr" ==>
        respStart == (if edata.Some? && edata.value.timing.Some? then Some(edata.value.timing.value.responseStart) else None)
      ensures ename != "xhr" ==>
        respStart == (if IsSet(responseStart) then responseStart else if Has(old(timers), "t_page") then None
                      else if IsSet(tFbApprox) then tFbApprox else None)
      ensures IsSet(respStart) ==>
        Get(timers, "t_resp").Some? && Get(timers, "t_resp").value.end.Some? &&
        Get(timers, "t_page") == Some(Timer(None, None, PageDelta(Get(old(timers), "t_load"), tDone, respStart.value)))
      ensures Get(timers, "t_done") == Get(old(timers), "t_done")
    {
      respStart := ResponseTimers(ename, tDone, edata, now);
      EndPrerender(now);
    }

    /** The first-byte time, and from it the response and page times; `t_done` is left alone. */
    method ResponseTimers(ename: string, tDone: int, edata: Option<EventData>, now: int) returns (respStart: Option<int>)
      requires Valid()
      modifies this`timers
      ensures Valid()
      ensures ename == "xhr" ==>
        respStart == (if edata.Some? && edata.value.timing.Some? then Some(edata.value.timing.value.responseStart) else None)
      ensures ename != "xhr" ==>
        respStart == (if IsSet(responseStart) then responseStart else if Has(old(timers), "t_page") then None
                      else if IsSet(tFbApprox) then tFbApprox else None)
      ensures IsSet(respStart) ==>
        Get(timers, "t_resp").Some? && Get(timers, "t_resp").value.end.Some? &&
        Get(timers, "t_page") == Some(Timer(None, None, PageDelta(Get(old(timers), "t_load"), tDone, respStart.value)))
      ensures Get(timers, "t_done") == Get(old(timers), "t_done")
    {
      respStart := FirstByte(ename, edata, now);
      if IsSet(respStart) {
        assert Get(timers, "t_load") == Get(old(timers), "t_load");
        MeasureResponse(respStart.value, tDone, now);
      }
    }

    /**
     * `setPageLoadTimers(ename, t_done, data)`: for a page, the session and Navigation Timing are
     * read first and a prerendering page stops here (false); then the load timers are measured.
     * Of the beacon's variables only `rt.start` can change.
     */
    method SetPageLoadTimers(core: Boomr, ename: string, tDone: int, edata: Option<EventData>, b: Browser)
      returns (ok: bool)
      requires Valid()
      modifies this`timers, this`r, this`tStart, this`tFbApprox, this`navigationType, this`navigationStart,
        this`responseStart, core`cookieJar, core`vars
      ensures Valid()
      ensures forall k :: k != "rt.start" ==> (k in core.vars <==> k in old(core.vars))
      ensures forall k :: k != "rt.start" && k in old(core.vars) ==> core.vars[k] == old(core.vars)[k]
      ensures ok <==> !(ename != "xhr" && b.visibility == "prerender")
      ensures ok ==> Get(timers, "t_done") == Get(old(timers), "t_done")
    {
      if ename != "xhr" {
        InitFromCookie(core, b);
        InitFromNavTiming(core, b);
        var pre := CheckPreRender(b);
        if pre {
          return false;
        }
      }
      var _ := PageLoadTimers(ename, tDone, edata, b.now);
      return true;
    }

    /**
     * `setSupportingTimestamps(t_start)`: `rt.tstart` (the start in use), `rt.cstart` (the
     * cookie's start when it differs), `rt.bstart` (boomerang's start), `rt.blstart` (the loader's
     * start) and `rt.end` (the end of `t_done`, which must exist).
     */
    method SetSupportingTimestamps(core: Boomr, start: Option<int>)
      requires Get(timers, "t_done").Some? && Get(timers, "t_done").value.end.Some?
      modifies core`vars
      ensures var v1 := if IsSet(start) then old(core.vars)["rt.tstart" := JNum(start.value)] else old(core.vars);
        var v2 := if tStart.Some? && tStart != start then v1["rt.cstart" := JNum(tStart.value)] else v1;
        var v3 := v2["rt.bstart" := JNum(core.config.tStart)];
        var v4 := if IsSet(core.config.tLstart) then v3["rt.blstart" := JNum(core.config.tLstart.value)] else v3;
        core.vars == v4["rt.end" := JNum(Get(timers, "t_done").value.end.value)]
      ensures forall k :: k !in SupportingVars ==> SameVar(old(core.vars), core.vars, k)
    {
      if IsSet(start) {
        core.AddVar("rt.tstart", JNum(start.value));
      }
      if tStart.Some? && tStart != start {
        core.AddVar("rt.cstart", JNum(tStart.value));
      }
      core.AddVar("rt.bstart", JNum(core.config.tStart));
      if IsSet(core.config.tLstart) {
        core.AddVar("rt.blstart", JNum(core.config.tLstart.value));
      }
      core.AddVar("rt.end", JNum(Get(timers, "t_done").value.end.value));
    }

    /** `determineTStart(ename, data)`: the chosen start is cached, and `rt.start` says where it came from. */
    method DetermineTStart(core: Boomr, ename: string, edata: Option<EventData>) returns (t: Option<int>)
      modifies this`cachedTStart, core`vars
      ensures var c := ChooseStart(ename, edata, timers, navigationStart, tStart, navigationType, old(cachedTStart));
        t == c.tStart && cachedTStart == t &&
        core.vars == (if c.rtStart.Some? then old(core.vars)["rt.start" := JStr(c.rtStart.value)] else old(core.vars))
    {
      var c := ChooseStart(ename, edata, timers, navigationStart, tStart, navigationType, cachedTStart);
      if c.rtStart.Some? {
        core.AddVar("rt.start", JStr(c.rtStart.value));
      }
      cachedTStart := c.tStart;
      return c.tStart;
    }

    // -------------------------------------------------------------------------------------------
    // Completion

    /**
     * The XHR part of `done`: the request's details become variables (`u` also joins the
     * variables cleared after the beacon, as do the optional request variables), and an explicit
     * non-passive sub-resource is flagged with `rt.subres`.
     */
    method AddXhrVars(core: Boomr, ename: string, edata: Option<EventData>)
      modifies this`addedVars, core`vars
      ensures core.vars == XhrVars(old(core.vars), ename, edata, core.config.stripQueryString)
      ensures var d := XhrData(ename, edata);
        addedVars == old(addedVars) +
          (if ename == "xhr" && d.Some? && d.value.url != "" then ["u"] else []) +
          (if ename == "xhr" && d.Some? then ["http.errno", "http.method", "http.hdr", "xhr.sync", "http.initiator"] else []) +
          (if ename == "xhr" && d.Some? && IsSubresource(d.value.subresource) then ["rt.subres"] else [])
    {
      var d := XhrData(ename, edata);
      if ename == "xhr" && d.Some? {
        var x := d.value;
        AddRequestTarget(core, x);
        AddRequestDetails(core, x);
        addedVars := addedVars + (if x.url != "" then ["u"] else []) +
          ["http.errno", "http.method", "http.hdr", "xhr.sync", "http.initiator"] +
          (if IsSubresource(x.subresource) then ["rt.subres"] else []);
      } else {
        assert addedVars == addedVars + [] + [] + [];
      }
    }

    /** The request's URL, error status and method become variables. */
    method AddRequestTarget(core: Boomr, x: EventData)
      modifies core`vars
      ensures core.vars == RequestTargetVars(old(core.vars), x, core.config.stripQueryString)
    {
      if x.url != "" {
        core.AddVar("u", JStr(CleanupURL(Some(StripHash(x.url)), core.config.stripQueryString)));
      }
      if IsHttpError(x.status) {
        core.AddVar("http.errno", JNum(x.status));
      }
      if x.httpMethod != "" && x.httpMethod != "GET" {
        core.AddVar("http.method", JStr(x.httpMethod));
      }
    }

    /** The request's headers, sync flag, initiator and sub-resource flag become variables. */
    method AddRequestDetails(core: Boomr, x: EventData)
      modifies core`vars
      ensures core.vars == RequestDetailVars(old(core.vars), x)
    {
      if x.headers.Truthy() {
        core.AddVar("http.hdr", x.headers);
      }
      if x.synchronous {
        core.AddVar("xhr.sync", JNum(1));
      }
      if x.initiator != "" {
        core.AddVar("http.initiator", JStr(x.initiator));
      }
      if IsSubresource(x.subresource) {
        core.AddVar("rt.subres", JNum(1));
      }
    }

    /**
     * `done(edata, ename)`: a page load (or visibility change) on a prerendering page is deferred,
     * leaving the plugin incomplete and no beacon requested. Otherwise the load time and the
     * start are settled, `t_done` ends, the previous measurement's variables are replaced, the
     * timers are flushed onto the beacon, the referrers and the XHR details are added, the cookie
     * is rewritten, an unload is flagged with `rt.quit` (plus `rt.abld` when onload never fired
     * and `rt.ntvu` when the page was never visible), and the plugin completes and asks for a
     * beacon.
     */
    method Done(core: Boomr, edata: Option<EventData>, ename: string, b: Browser)
      requires Valid()
      modifies this`complete, this`timers, this`r, this`tStart, this`tFbApprox, this`navigationType,
        this`navigationStart, this`responseStart, this`cachedTStart, this`addedVars,
        core`vars, core`cookieJar, core`beaconUrl, core`beaconQueued, core`immediate
      ensures Valid()
      ensures onloadfired == old(onloadfired) && visiblefired == old(visiblefired) && unloadfired == old(unloadfired)
      ensures initialized == old(initialized) && visibilityState == old(visibilityState)
      ensures (ename == "load" || ename == "visible") && b.visibility == "prerender" ==>
        !complete && core.beaconQueued == old(core.beaconQueued) && core.immediate == old(core.immediate)
      ensures !((ename == "load" || ename == "visible") && b.visibility == "prerender") ==>
        complete && core.beaconQueued &&
        "r" in core.vars && core.vars["r"] == JStr(CleanupURL(r, core.config.stripQueryString)) &&
        ReportsDone(core.vars, timers)
      ensures (!((ename == "load" || ename == "visible") && b.visibility == "prerender") &&
               Get(old(timers), "t_done").None? && cachedTStart.Some?) ==>
        "t_done" in core.vars &&
        core.vars["t_done"] == JNum(LoadTimestamp(b.now, edata, ename, core.config.loadedLate, b.timing,
          core.config.tEnd, core.config.tOnload, core.config.tLstart, core.config.tStart) - cachedTStart.value)
      ensures ename == "unload" ==>
        "rt.quit" in core.vars && core.vars["rt.quit"] == JStr("") &&
        ("rt.abld" in core.vars <==> !onloadfired) &&
        (!visiblefired ==> "rt.ntvu" in core.vars && core.vars["rt.ntvu"] == JStr("")) &&
        (visiblefired ==> SameVar(old(core.vars), core.vars, "rt.ntvu"))
    {
      var ok := Measure(core, edata, ename, b);
      if !ok {
        return;
      }
      Finish(core, edata, ename, b);
    }

    /**
     * The second half of `done`, once the load is measured: the report, the cookie, the unload
     * flags, completion and the beacon request.
     */
    method Finish(core: Boomr, edata: Option<EventData>, ename: string, b: Browser)
      requires Valid() && "rt.abld" !in core.vars
      requires Get(timers, "t_done").Some? && Get(timers, "t_done").value.end.Some?
      modifies this`complete, this`timers, this`addedVars,
        core`vars, core`cookieJar, core`beaconUrl, core`beaconQueued, core`immediate
      ensures Valid() && complete && core.beaconQueued
      ensures "r" in core.vars && core.vars["r"] == JStr(CleanupURL(r, core.config.stripQueryString))
      ensures Get(timers, "t_done") == Some(Flush(Get(old(timers), "t_done").value, cachedTStart))
      ensures ReportsDone(core.vars, timers)
      ensures ename == "unload" ==>
        "rt.quit" in core.vars && core.vars["rt.quit"] == JStr("") &&
        ("rt.abld" in core.vars <==> !onloadfired) &&
        (!visiblefired ==> "rt.ntvu" in core.vars && core.vars["rt.ntvu"] == JStr("")) &&
        (visiblefired ==> SameVar(old(core.vars), core.vars, "rt.ntvu"))
    {
      Report(core, edata, ename, b);
      Conclude(core, ename, b);
    }

    /** The end of `done`: the cookie, the unload flags, completion and the beacon request. */
    method Conclude(core: Boomr, ename: string, b: Browser)
      modifies this`complete, core`vars, core`cookieJar, core`beaconUrl, core`beaconQueued, core`immediate
      ensures complete && core.beaconQueued
      ensures SameVar(old(core.vars), core.vars, "t_done")
      ensures ename != "unload" ==> core.vars == old(core.vars)
      ensures ename == "unload" ==>
        "rt.quit" in core.vars && core.vars["rt.quit"] == JStr("") &&
        (!onloadfired ==> "rt.abld" in core.vars) &&
        (onloadfired ==> SameVar(old(core.vars), core.vars, "rt.abld")) &&
        (!visiblefired ==> "rt.ntvu" in core.vars && core.vars["rt.ntvu"] == JStr("")) &&
        (visiblefired ==> SameVar(old(core.vars), core.vars, "rt.ntvu")) &&
        SameVar(old(core.vars), core.vars, "r")
    {
      ghost var v := core.vars;
      SaveSession(core, b);
      assert core.vars == v;
      if ename == "unload" {
        FlagUnload(core);
      }
      complete := true;
      var _ := core.SendBeacon(None);
    }

    /**
     * An unload's beacon says so with `rt.quit`, with `rt.abld` when onload never fired and with
     * `rt.ntvu` when the page was never visible.
     */
    method FlagUnload(core: Boomr)
      modifies core`vars
      ensures "rt.quit" in core.vars && core.vars["rt.quit"] == JStr("")
      ensures !onloadfired ==> "rt.abld" in core.vars && core.vars["rt.abld"] == JStr("")
      ensures onloadfired ==> SameVar(old(core.vars), core.vars, "rt.abld")
      ensures !visiblefired ==> "rt.ntvu" in core.vars && core.vars["rt.ntvu"] == JStr("")
      ensures visiblefired ==> SameVar(old(core.vars), core.vars, "rt.ntvu")
      ensures SameVar(old(core.vars), core.vars, "r") && SameVar(old(core.vars), core.vars, "t_done")
    {
      core.AddVar("rt.quit", JStr(""));
      if !onloadfired {
        core.AddVar("rt.abld", JStr(""));
      }
      if !visiblefired {
        core.AddVar("rt.ntvu", JStr(""));
      }
    }

    /**
     * The measuring half of `done`: the load time is settled (a prerendering page defers here,
     * answering false), the start chosen, `t_done` ended, the previous measurement's variables
     * removed and the supporting timestamps added. `rt.ntvu` is never touched.
     */
    method Measure(core: Boomr, edata: Option<EventData>, ename: string, b: Browser) returns (ok: bool)
      requires Valid()
      modifies this`complete, this`timers, this`r, this`tStart, this`tFbApprox, this`navigationType,
        this`navigationStart, this`responseStart, this`cachedTStart, core`vars, core`cookieJar
      ensures Valid() && !complete
      ensures ok <==> !((ename == "load" || ename == "visible") && b.visibility == "prerender")
      ensures ok ==> Get(timers, "t_done").Some? && Get(timers, "t_done").value.end.Some?
      ensures ok && Get(old(timers), "t_done").None? ==>
        Get(timers, "t_done") == Some(Timer(None, Some(LoadTimestamp(b.now, edata, ename, core.config.loadedLate,
          b.timing, core.config.tEnd, core.config.tOnload, core.config.tLstart, core.config.tStart)), NoDelta))
      ensures ok ==> "rt.abld" !in core.vars
      ensures SameVar(old(core.vars), core.vars, "rt.ntvu")
    {
      complete := false;
      var tDone := LoadTimestamp(b.now, edata, ename, core.config.loadedLate, b.timing, core.config.tEnd,
                                 core.config.tOnload, core.config.tLstart, core.config.tStart);
      if ename == "load" || ename == "visible" || ename == "xhr" {
        ghost var v0 := core.vars;
        ok := SetPageLoadTimers(core, ename, tDone, edata, b);
        assert SameVar(v0, core.vars, "rt.ntvu");
        if !ok {
          return false;
        }
      }
      Restart(core, ename, edata, tDone, b.now);
      return true;
    }

    /**
     * The start is chosen, `t_done` ends at the load time, the previous measurement's variables
     * are removed and the supporting timestamps added.
     */
    method Restart(core: Boomr, ename: string, edata: Option<EventData>, tDone: int, now: int)
      requires Valid()
      modifies this`timers, this`cachedTStart, core`vars
      ensures Valid()
      ensures Get(timers, "t_done").Some? && Get(timers, "t_done").value.end.Some?
      ensures Get(old(timers), "t_done").None? ==> Get(timers, "t_done") == Some(Timer(None, Some(tDone), NoDelta))
      ensures "rt.abld" !in core.vars
      ensures forall n :: n in StaleVars && n !in SupportingVars ==> n !in core.vars
      ensures SameVar(old(core.vars), core.vars, "rt.ntvu")
    {
      var start := DetermineTStart(core, ename, edata);
      EndTimer("t_done", Some(tDone), now);
      ghost var v1 := core.vars;
      core.RemoveVar(StaleVars);
      ghost var v2 := core.vars;
      assert "rt.ntvu" !in StaleVars;
      assert SameVar(v1, v2, "rt.ntvu");
      SetSupportingTimestamps(core, start);
    }

    /**
     * The reporting half of `done`: the timers are flushed onto the beacon, then the referrers
     * (`r`, and `r2` when it differs) and the XHR details are added. The flags `rt.abld` and
     * `rt.ntvu` are left as they were, and the ended `t_done` stays ended.
     */
    method Report(core: Boomr, edata: Option<EventData>, ename: string, b: Browser)
      requires Valid()
      requires Get(timers, "t_done").Some? && Get(timers, "t_done").value.end.Some?
      modifies this`timers, this`addedVars, this`complete, core`vars
      ensures Valid()
      ensures Get(timers, "t_done") == Some(Flush(Get(old(timers), "t_done").value, cachedTStart))
      ensures ReportsDone(core.vars, timers)
      ensures "r" in core.vars && core.vars["r"] == JStr(CleanupURL(r, core.config.stripQueryString))
      ensures SameVar(old(core.vars), core.vars, "rt.abld") && SameVar(old(core.vars), core.vars, "rt.ntvu")
    {
      ReportTimers(core);
      ghost var v1 := core.vars;
      AddPageUrls(core);
      ghost var v2 := core.vars;
      AddXhrVars(core, ename, edata);
      XhrVarsKeepReport(v2, ename, edata, core.config.stripQueryString);
      assert SameVar(v1, core.vars, "t_done");
    }

    /** The page URLs of a beacon: `r` always, `r2` when it differs. */
    method AddPageUrls(core: Boomr)
      modifies core`vars
      ensures "r" in core.vars && core.vars["r"] == JStr(CleanupURL(r, core.config.stripQueryString))
      ensures r2 != r ==> "r2" in core.vars && core.vars["r2"] == JStr(CleanupURL(r2, core.config.stripQueryString))
      ensures r2 == r ==> SameVar(old(core.vars), core.vars, "r2")
      ensures SameVar(old(core.vars), core.vars, "rt.abld") && SameVar(old(core.vars), core.vars, "rt.ntvu")
      ensures SameVar(old(core.vars), core.vars, "t_done")
    {
      core.AddVar("r", JStr(CleanupURL(r, core.config.stripQueryString)));
      if r2 != r {
        core.AddVar("r2", JStr(CleanupURL(r2, core.config.stripQueryString)));
      }
    }

    /** The timers flushed onto the beacon; the `done` flags stay as they were and `t_done` stays ended. */
    method ReportTimers(core: Boomr)
      requires Valid()
      requires Get(timers, "t_done").Some? && Get(timers, "t_done").value.end.Some?
      modifies this`timers, this`addedVars, this`complete, core`vars
      ensures Valid()
      ensures Get(timers, "t_done") == Some(Flush(Get(old(timers), "t_done").value, cachedTStart))
      ensures ReportsDone(core.vars, timers)
      ensures SameVar(old(core.vars), core.vars, "rt.abld") && SameVar(old(core.vars), core.vars, "rt.ntvu")
    {
      ghost var v0 := core.vars;
      ghost var t0 := timers;
      AddTimersToBeacon(core, "");
      FlushReportsDone(v0, t0, cachedTStart);
      FlushedVarsKeepFlags(v0, Emitted(t0, cachedTStart));
    }
 
    // -------------------------------------------------------------------------------------------
    // Event handlers

    /** `page_ready()`: onload has fired; unlike `complete`, this is never reset. */
    method PageReady()
      modifies this`onloadfired
      ensures onloadfired
    {
      onloadfired := true;
    }

    /**
     * `check_visibility()`: the page has been visible once it reports "visible"; leaving
     * prerender runs `done` for the "visible" event, which completes the measurement; the state
     * seen is remembered.
     */
    method CheckVisibility(core: Boomr, b: Browser)
      requires Valid()
      modifies this`visiblefired, this`visibilityState, this`complete, this`timers, this`r, this`tStart,
        this`tFbApprox, this`navigationType, this`navigationStart, this`responseStart, this`cachedTStart,
        this`addedVars, core`vars, core`cookieJar, core`beaconUrl, core`beaconQueued, core`immediate
      ensures Valid()
      ensures visiblefired == (old(visiblefired) || b.visibility == "visible")
      ensures visibilityState == Some(b.visibility)
      ensures old(visibilityState) == Some("prerender") && b.visibility != "prerender" ==>
        complete && core.beaconQueued && Get(timers, "t_done").Some? && Get(timers, "t_done").value.end.Some?
      ensures !(old(visibilityState) == Some("prerender") && b.visibility != "prerender") ==>
        complete == old(complete) && timers == old(timers) && core.vars == old(core.vars) && r == old(r) &&
        core.beaconQueued == old(core.beaconQueued) && core.cookieJar == old(core.cookieJar)
    {
      if b.visibility == "visible" {
        visiblefired := true;
      }
      if visibilityState == Some("prerender") && b.visibility != "prerender" {
        Done(core, None, "visible", b);
      }
      visibilityState := Some(b.visibility);
    }

    /**
     * `page_unload(edata)`: the first unload runs `done` for the "unload" event (flagging the
     * beacon with `rt.quit`); every unload then records the page's URL in the cookie with the
     * time under `ul` (beforeunload) or `hd` (unload), for the next page to find. The result is
     * what `updateCookie` answered.
     */
    method PageUnload(core: Boomr, edata: EventData, b: Browser) returns (written: bool)
      requires Valid()
      modifies this`unloadfired, this`complete, this`timers, this`r, this`tStart, this`tFbApprox,
        this`navigationType, this`navigationStart, this`responseStart, this`cachedTStart, this`addedVars,
        core`vars, core`cookieJar, core`beaconUrl, core`beaconQueued, core`immediate
      ensures Valid() && unloadfired
      ensures !old(unloadfired) ==>
        complete && core.beaconQueued && "rt.quit" in core.vars && ("rt.abld" in core.vars <==> !onloadfired)
      ensures old(unloadfired) ==> complete == old(complete) && timers == old(timers) && core.vars == old(core.vars)
      ensures cookie == "" ==> !written
      ensures written && !b.cookieSlow ==>
        exists sub :: GetCookie(cookie, core.cookieJar) == Some(ObjectToString(sub)) &&
          Get(sub, "r") == Some(HashQS(b, b.url)) &&
          Get(sub, UnloadTimer(edata)) == Some(IntToString(b.now))
    {
      if !unloadfired {
        UnloadBeacon(core, edata, b);
      }
      ghost var kept := (complete, timers, core.vars, core.beaconQueued, onloadfired);
      written := WriteUrlParam(core, "r", b.url, UnloadTimer(edata), b);
      assert (complete, timers, core.vars, core.beaconQueued, onloadfired) == kept;
      unloadfired := true;
    }

    /** The first unload: `done` with the unload event, which flags `rt.quit` and `rt.abld`. */
    method UnloadBeacon(core: Boomr, edata: EventData, b: Browser)
      requires Valid()
      modifies this`complete, this`timers, this`r, this`tStart, this`tFbApprox,
        this`navigationType, this`navigationStart, this`responseStart, this`cachedTStart, this`addedVars,
        core`vars, core`cookieJar, core`beaconUrl, core`beaconQueued, core`immediate
      ensures Valid() && onloadfired == old(onloadfired)
      ensures complete && core.beaconQueued && "rt.quit" in core.vars && ("rt.abld" in core.vars <==> !onloadfired)
    {
      Done(core, Some(edata), "unload", b);
    }

    /**
     * The cookie write of a user event: the URL `url` under `k` (hashed as `nu` and `r` are) and
     * the time under `timer`.
     */
    method WriteUrlParam(core: Boomr, k: string, url: string, timer: string, b: Browser) returns (written: bool)
      requires (k == "r" || k == "nu") && timer != "" && timer != k
      modifies core`cookieJar
      ensures cookie == "" ==> !written
      ensures written && !b.cookieSlow ==>
        exists sub :: GetCookie(cookie, core.cookieJar) == Some(ObjectToString(sub)) &&
          Get(sub, k) == Some(HashQS(b, url)) &&
          Get(sub, timer) == Some(IntToString(b.now))
    {
      ghost var jar := core.cookieJar;
      var params := [(k, Some(url))];
      written := UpdateCookie(core, params, timer, b);
      ghost var read := SubCookies(GetCookie(cookie, jar));
      ghost var sub := UpdatedSubCookies(if read.Some? then read.value else [], params, timer, b.now, b.hashUrl);
      assert Get(params, k) == Some(Some(url));
      UpdatedSubCookiesSpec(if read.Some? then read.value else [], params, timer, b.now, b.hashUrl, k, url);
      assert HashParam(k, url, b.hashUrl) == HashQS(b, url);
      assert Get(sub, k) == Some(HashQS(b, url)) && Get(sub, timer) == Some(IntToString(b.now));
    }

    /**
     * `_iterable_click(name, element, etarget, value_cb)`, given what `value_cb` returns for the
     * nearest enclosing element of the wanted kind (`None` when there is none or no target): the
     * value goes into the cookie as `nu` with the click time under `cl`, and onto the beacon as
     * `nu`, to be cleared after it is sent. The result is what `updateCookie` answered.
     */
    method IterableClick(core: Boomr, value: Option<string>, b: Browser) returns (written: bool)
      modifies this`addedVars, core`vars, core`cookieJar
      ensures value.None? ==>
        !written && core.vars == old(core.vars) && addedVars == old(addedVars) && core.cookieJar == old(core.cookieJar)
      ensures value.Some? ==>
        core.vars == old(core.vars)["nu" := JStr(CleanupURL(value, core.config.stripQueryString))] &&
        addedVars == old(addedVars) + ["nu"]
      ensures written && !b.cookieSlow ==>
        exists sub :: GetCookie(cookie, core.cookieJar) == Some(ObjectToString(sub)) &&
          Get(sub, "nu") == Some(HashQS(b, value.value)) &&
          Get(sub, "cl") == Some(IntToString(b.now))
    {
      if value.None? {
        return false;
      }
      written := WriteUrlParam(core, "nu", value.value, "cl", b);
      core.AddVar("nu", JStr(CleanupURL(value, core.config.stripQueryString)));
      addedVars := addedVars + ["nu"];
    }

    /** `onclick(etarget)`: the next URL is the enclosing link's `href`, when there is a link. */
    method OnClick(core: Boomr, href: Option<string>, b: Browser) returns (written: bool)
      modifies this`addedVars, core`vars, core`cookieJar
      ensures href.None? ==> core.vars == old(core.vars) && core.cookieJar == old(core.cookieJar)
      ensures href.Some? ==> "nu" in core.vars && core.vars["nu"] == JStr(CleanupURL(href, core.config.stripQueryString))
    {
      written := IterableClick(core, href, b);
    }

    /**
     * `onsubmit(etarget)`: the next URL is the enclosing form's `action` (else the document's
     * URL), always with a "?", when there is a form; `action` is "" when the form has none.
     */
    method OnSubmit(core: Boomr, action: Option<string>, b: Browser) returns (written: bool)
      modifies this`addedVars, core`vars, core`cookieJar
      ensures action.None? ==> core.vars == old(core.vars) && core.cookieJar == old(core.cookieJar)
      ensures action.Some? ==>
        "nu" in core.vars &&
        core.vars["nu"] == JStr(CleanupURL(Some(SubmitTarget(action.value, b.url)), core.config.stripQueryString))
    {
      var value := if action.Some? then Some(SubmitTarget(action.value, b.url)) else None;
      written := IterableClick(core, value, b);
    }

    /** `domloaded()`: `t_domloaded` ends now, unless it already ended. */
    method DomLoaded(now: int)
      requires Valid()
      modifies this`timers
      ensures Valid()
      ensures Get(timers, "t_domloaded").Some? && Get(timers, "t_domloaded").value.end.Some?
      ensures Get(old(timers), "t_domloaded").Some? && Get(old(timers), "t_domloaded").value.end.Some? ==>
        timers == old(timers)
      ensures forall k :: k != "t_domloaded" ==> Get(timers, k) == Get(old(timers), k)
    {
      EndTimer("t_domloaded", None, now);
    }

    /** `clear()`: after a beacon, the variables this plugin added are removed and forgotten. */
    method Clear(core: Boomr)
      modifies this`addedVars, core`vars
      ensures addedVars == []
      ensures forall n :: n in old(addedVars) ==> n !in core.vars
      ensures core.vars == map k | k in old(core.vars) && k !in old(addedVars) :: old(core.vars)[k]
    {
      if |addedVars| > 0 {
        core.RemoveVar(addedVars);
        addedVars := [];
      } else {
        assert core.vars == map k | k in old(core.vars) && k !in old(addedVars) :: old(core.vars)[k];
      }
    }

    /**
     * `init(config)`: the referrers default to the document's referrer, the session is read from
     * the cookie, and on the first call only the timers are reset, the visibility checked and the
     * ten handlers subscribed.
     */
    method Init(core: Boomr, b: Browser)
      requires Valid() && core.Valid()
      modifies this`complete, this`timers, this`initialized, this`visiblefired, this`visibilityState, this`r,
        this`r2, this`tStart, this`tFbApprox, this`hadSession, this`navigationType, this`navigationStart, this`responseStart,
        this`cachedTStart, this`addedVars,
        core`vars, core`cookieJar, core`beaconUrl, core`beaconQueued, core`immediate, core`events
      ensures Valid() && core.Valid() && initialized
      ensures r2 == Some(HashQS(b, b.referrer))
      ensures !hadSession && old(visibilityState) != Some("prerender") ==> r == r2
      ensures old(initialized) ==>
        core.events == old(core.events) && timers == old(timers) && complete == old(complete) &&
        visibilityState == old(visibilityState)
      ensures !old(initialized) ==> RtSubscribed(core.events) && visibilityState == Some(b.visibility)
      ensures !old(initialized) && !(old(visibilityState) == Some("prerender") && b.visibility != "prerender") ==>
        !complete && timers == []
      ensures !old(initialized) && old(visibilityState) == Some("prerender") && b.visibility != "prerender" ==>
        complete && core.beaconQueued
    {
      ghost var kept := (initialized, visibilityState, timers, complete, core.events);
      Referrers(core, b);
      assert (initialized, visibilityState, timers, complete, core.events) == kept;
      InitOnce(core, b);
    }

    /** The part of `init` that runs only the first time: the reset, the visibility check and the subscriptions. */
    method InitOnce(core: Boomr, b: Browser)
      requires Valid() && core.Valid()
      modifies this`complete, this`timers, this`initialized, this`visiblefired, this`visibilityState, this`r,
        this`tStart, this`tFbApprox, this`navigationType, this`navigationStart, this`responseStart,
        this`cachedTStart, this`addedVars,
        core`vars, core`cookieJar, core`beaconUrl, core`beaconQueued, core`immediate, core`events
      ensures Valid() && core.Valid() && initialized && r2 == old(r2)
      ensures old(initialized) ==>
        core.events == old(core.events) && timers == old(timers) && complete == old(complete) &&
        visibilityState == old(visibilityState) && r == old(r)
      ensures !old(initialized) ==> RtSubscribed(core.events) && visibilityState == Some(b.visibility)
      ensures !old(initialized) && !(old(visibilityState) == Some("prerender") && b.visibility != "prerender") ==>
        !complete && timers == [] && r == old(r)
      ensures !old(initialized) && old(visibilityState) == Some("prerender") && b.visibility != "prerender" ==>
        complete && core.beaconQueued
    {
      if initialized {
        return;
      }
      Setup(core, b);
    }

    /** The first steps of `init`: both referrers are the hashed referrer, then the cookie is read. */
    method Referrers(core: Boomr, b: Browser)
      modifies this`r, this`r2, this`tStart, this`tFbApprox, this`hadSession, core`cookieJar
      ensures r2 == Some(HashQS(b, b.referrer))
      ensures !hadSession ==> r == r2
    {
      r := Some(HashQS(b, b.referrer));
      r2 := r;
      ghost var kept := (cookie, r2);
      LoadSession(core, b);
      assert (cookie, r2) == kept;
    }

    /** The once-only part of `init`: reset, check the visibility, subscribe. */
    method Setup(core: Boomr, b: Browser)
      requires core.Valid()
      modifies this`complete, this`timers, this`initialized, this`visiblefired, this`visibilityState, this`r,
        this`tStart, this`tFbApprox, this`navigationType, this`navigationStart, this`responseStart,
        this`cachedTStart, this`addedVars,
        core`vars, core`cookieJar, core`beaconUrl, core`beaconQueued, core`immediate, core`events
      ensures Valid() && core.Valid() && initialized && r2 == old(r2)
      ensures RtSubscribed(core.events) && visibilityState == Some(b.visibility)
      ensures !(old(visibilityState) == Some("prerender") && b.visibility != "prerender") ==>
        !complete && timers == [] && r == old(r)
      ensures old(visibilityState) == Some("prerender") && b.visibility != "prerender" ==>
        complete && core.beaconQueued
    {
      complete := false;
      timers := [];
      ghost var ev := core.events;
      FirstVisibilityCheck(core, b);
      assert core.events == ev;
      ghost var kept := (complete, timers, r, r2, visibilityState, core.beaconQueued);
      RegisterAll(core);
      assert (complete, timers, r, r2, visibilityState, core.beaconQueued) == kept;
      initialized := true;
    }

    /** `check_visibility()` on the freshly reset plugin, as `init` runs it. */
    method FirstVisibilityCheck(core: Boomr, b: Browser)
      requires timers == [] && !complete
      modifies this`visiblefired, this`visibilityState, this`complete, this`timers, this`r, this`tStart,
        this`tFbApprox, this`navigationType, this`navigationStart, this`responseStart, this`cachedTStart,
        this`addedVars, core`vars, core`cookieJar, core`beaconUrl, core`beaconQueued, core`immediate
      ensures Valid() && visibilityState == Some(b.visibility)
      ensures !(old(visibilityState) == Some("prerender") && b.visibility != "prerender") ==>
        !complete && timers == [] && r == old(r)
      ensures old(visibilityState) == Some("prerender") && b.visibility != "prerender" ==>
        complete && core.beaconQueued
    {
      CheckVisibility(core, b);
    }

    /** The ten subscriptions of `init`. */
    static method RegisterAll(core: Boomr)
      requires core.Valid()
      modifies core`events, core`immediate
      ensures core.Valid() && RtSubscribed(core.events)
    {
      RegisterPageHandlers(core);
      RegisterUserHandlers(core);
    }

    /** The first five subscriptions of `init`: page_ready (twice), visibility_changed, xhr_load and dom_loaded. */
    static method RegisterPageHandlers(core: Boomr)
      requires core.Valid()
      modifies core`events, core`immediate
      ensures core.Valid() && SubscribedFirst(core.events, RtHandlers, 5)
    {
      RtHandlersKnown();
      SubscribeNext(core, RtHandlers, 0);
      SubscribeNext(core, RtHandlers, 1);
      SubscribeNext(core, RtHandlers, 2);
      SubscribeNext(core, RtHandlers, 3);
      SubscribeNext(core, RtHandlers, 4);
    }

    /** The last five subscriptions of `init`: page_unload, click, form_submit, before_beacon and onbeacon. */
    static method RegisterUserHandlers(core: Boomr)
      requires core.Valid() && SubscribedFirst(core.events, RtHandlers, 5)
      modifies core`events, core`immediate
      ensures core.Valid() && SubscribedFirst(core.events, RtHandlers, 10)
    {
      RtHandlersKnown();
      SubscribeNext(core, RtHandlers, 5);
      SubscribeNext(core, RtHandlers, 6);
      SubscribeNext(core, RtHandlers, 7);
      SubscribeNext(core, RtHandlers, 8);
      SubscribeNext(core, RtHandlers, 9);
    }
  }

  /** The ten subscriptions `init` makes, in its order, as (event, handler) pairs. */
  const RtHandlers: seq<(string, Handler)> := [
    ("page_ready", Handler("RT.impl.page_ready", NoData, ScopeObj("RT.impl"))),
    ("visibility_changed", Handler("RT.impl.check_visibility", NoData, ScopeObj("RT.impl"))),
    ("page_ready", Handler("RT.done", Data("load"), ScopeObj("RT"))),
    ("xhr_load", Handler("RT.done", Data("xhr"), ScopeObj("RT"))),
    ("dom_loaded", Handler("RT.impl.domloaded", NoData, ScopeObj("RT.impl"))),
    ("page_unload", Handler("RT.impl.page_unload", NoData, ScopeObj("RT.impl"))),
    ("click", Handler("RT.impl.onclick", NoData, ScopeObj("RT.impl"))),
    ("form_submit", Handler("RT.impl.onsubmit", NoData, ScopeObj("RT.impl"))),
    ("before_beacon", Handler("RT.addTimersToBeacon", Data("beacon"), ScopeObj("RT"))),
    ("onbeacon", Handler("RT.impl.clear", NoData, ScopeObj("RT.impl")))
  ]

  /** Each of the ten names a known, lower-case event and an object scope. */
  lemma RtHandlersKnown()
    ensures KnownHandlers(RtHandlers)
  {
    EventNamesLowerCase();
  }

  /** The ten handlers `init` subscribes. */
  predicate RtSubscribed(events: map<string, seq<Handler>>) {
    SubscribedFirst(events, RtHandlers, |RtHandlers|)
  }

  /** The timer an unload writes into the cookie: `ul` for beforeunload, `hd` otherwise. */
  function UnloadTimer(edata: EventData): (t: string)
    ensures t != "" && t != "r"
  {
    if edata.eventType == "beforeunload" then "ul" else "hd"
  }
}
