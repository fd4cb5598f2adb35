/**
 * The BOOMR core object: the beacon variables, the error log, the event registry with its
 * handler lists, the page-ready and beacon-queue flags, and the cookie write guard.
 *
 * Handlers are opaque: a handler is named by the function it wraps, its callback data and its
 * scope; what its body does is outside this object, and firing an event records only the
 * exceptions the handlers threw (given as `thrown`, handler index to error text).
 * `setImmediate` appends to the `immediate` queue instead of running anything.
 * `BOOMR.now()` is the `now` parameter.
 */
module BoomrCore {
  import opened Wrappers
  import opened JsText
  import opened JsObject
  import opened JsValue
  import opened BoomrUtils

  /** The keys of `impl.events`: the only events one can subscribe to or fire. */
  const EventNames: set<string> := {
    "page_ready", "page_unload", "before_unload", "dom_loaded", "visibility_changed",
    "before_beacon", "onbeacon", "xhr_load", "click", "form_submit"
  }

  lemma BeforeBeaconName()
    ensures "before_beacon" in EventNames && ToLowerAscii("before_beacon") == "before_beacon"
  {
    ToLowerAsciiFixed("before_beacon");
  }

  const Version: string := "0.9"

  /** Every event name is already lower case, so naming it exactly finds it. */
  lemma EventNamesLowerCase()
    ensures forall e :: e in EventNames ==> ToLowerAscii(e) == e
  {
    forall e | e in EventNames
      ensures ToLowerAscii(e) == e
    {
      ToLowerAsciiFixed(e);
    }
  }

  /** The `cb_data` argument of `subscribe`: falsy, or an object. */
  datatype CbData = NoData | Data(id: string)

  /** The `cb_scope` argument of `subscribe`: `undefined`, `null` or an object. */
  datatype Scope = Undef | Null | ScopeObj(id: string)

  /** An entry of a handler list: `{fn, cb_data, scope}`. */
  datatype Handler = Handler(fn: string, cbData: CbData, scope: Scope)

  /** A call queued with `setImmediate`. */
  datatype Deferred = CallRealSendBeacon | CallHandler(handler: Handler)

  /** What the page and the loader snippet fixed before any handler runs. */
  datatype BoomrConfig = BoomrConfig(
    siteDomain: string,
    stripQueryString: bool,
    tStart: int,
    tLstart: Option<int>,
    tOnload: Option<int>,
    tEnd: Option<int>,
    loadedLate: bool,
    scriptUrl: Option<string>,
    configUrl: Option<string>)

  /** A plugin's name and what its `is_complete()` answers. */
  datatype PluginStatus = PluginStatus(name: string, complete: bool)

  /** The browser facts `real_sendBeacon` copies onto the beacon. */
  datatype PageInfo = PageInfo(
    documentUrl: string,
    visibility: string,
    lastVisible: Option<int>,
    lastHidden: Option<int>,
    platform: string,
    vendor: string,
    inIframe: bool)

  /** The entry `subscribe` pushes: `cb_data || {}` and `cb_scope || null`. */
  function StoredHandler(fn: string, cbData: CbData, scope: Scope): (h: Handler)
    ensures h.scope != Undef
  {
    Handler(fn, cbData, if scope == Undef then Null else scope)
  }

  /**
   * The duplicate test `subscribe` performs, as written: it compares the stored entry with the
   * raw arguments, and a stored `{}` (from falsy `cb_data`) or `null` (from `undefined` scope)
   * is never identical to them.
   */
  predicate MatchesAsWritten(h: Handler, fn: string, cbData: CbData, scope: Scope) {
    h.fn == fn && h.cbData.Data? && h.cbData == cbData && h.scope == scope
  }

  /** A handler list after `subscribe` as written. */
  function SubscribeAsWritten(hs: seq<Handler>, fn: string, cbData: CbData, scope: Scope): seq<Handler> {
    if exists i :: 0 <= i < |hs| && MatchesAsWritten(hs[i], fn, cbData, scope) then hs
    else hs + [StoredHandler(fn, cbData, scope)]
  }

  /** No handler appears twice in a list. */
  predicate NoDuplicates(hs: seq<Handler>) {
    forall i, j :: 0 <= i < j < |hs| ==> hs[i] != hs[j]
  }

  /** A handler list after `subscribe` with the duplicate test it was meant to make: same function, data and scope. */
  function AddHandler(hs: seq<Handler>, fn: string, cbData: CbData, scope: Scope): (r: seq<Handler>)
    ensures StoredHandler(fn, cbData, scope) in r
    ensures StoredHandler(fn, cbData, scope) in hs ==> r == hs
    ensures StoredHandler(fn, cbData, scope) !in hs ==> r == hs + [StoredHandler(fn, cbData, scope)]
    ensures NoDuplicates(hs) ==> NoDuplicates(r)
  {
    var h := StoredHandler(fn, cbData, scope);
    if h in hs then hs else hs + [h]
  }

  /** Subscribing the same handler twice is subscribing it once. */
  lemma AddHandlerIdempotent(hs: seq<Handler>, fn: string, cbData: CbData, scope: Scope)
    ensures AddHandler(AddHandler(hs, fn, cbData, scope), fn, cbData, scope) == AddHandler(hs, fn, cbData, scope)
  {
  }

  /** Where the caller passes an object as data and a defined scope, the code as written already refuses duplicates. */
  lemma SubscribeAsWrittenAgrees(hs: seq<Handler>, fn: string, cbData: CbData, scope: Scope)
    requires cbData.Data? && scope != Undef
    ensures SubscribeAsWritten(hs, fn, cbData, scope) == AddHandler(hs, fn, cbData, scope)
  {
    var h := StoredHandler(fn, cbData, scope);
    if h in hs {
      var i :| 0 <= i < |hs| && hs[i] == h;
      assert MatchesAsWritten(hs[i], fn, cbData, scope);
    }
  }

  /** As written, `subscribe(e, f)` twice (no data) leaves two copies of the handler. */
  lemma SubscribeAsWrittenDuplicatesWithoutData()
    ensures SubscribeAsWritten(SubscribeAsWritten([], "f", NoData, Null), "f", NoData, Null)
         == [Handler("f", NoData, Null), Handler("f", NoData, Null)]
  {
    var once := SubscribeAsWritten([], "f", NoData, Null);
    assert once == [Handler("f", NoData, Null)];
    assert !MatchesAsWritten(once[0], "f", NoData, Null);
  }

  /** As written, `subscribe(e, f, d)` twice (scope left undefined) leaves two copies too. */
  lemma SubscribeAsWrittenDuplicatesWithoutScope()
    ensures SubscribeAsWritten(SubscribeAsWritten([], "f", Data("d"), Undef), "f", Data("d"), Undef)
         == [Handler("f", Data("d"), Null), Handler("f", Data("d"), Null)]
  {
    var once := SubscribeAsWritten([], "f", Data("d"), Undef);
    assert once == [Handler("f", Data("d"), Null)];
    assert !MatchesAsWritten(once[0], "f", Data("d"), Undef);
  }

  /** The text `addError(err, src, extra)` counts: `[src:now] err:: extra`. */
  function ErrorMessage(err: string, src: Option<string>, extra: Option<string>, now: int): (m: string)
    ensures src.None? && !IsSetStr(extra) ==> m == err
    ensures src.Some? ==> StartsWith(m, "[" + src.value + ":" + IntToString(now) + "] " + err)
    ensures src.None? ==> StartsWith(m, err)
    ensures |m| == (if src.Some? then |src.value| + |IntToString(now)| + 4 else 0) + |err| +
      (if IsSetStr(extra) then 3 + |extra.value| else 0)
    ensures IsSetStr(extra) ==> m[|m| - (3 + |extra.value|)..] == ":: " + extra.value
  {
    (if src.Some? then "[" + src.value + ":" + IntToString(now) + "] " else "")
    + err
    + (if IsSetStr(extra) then ":: " + extra.value else "")
  }

  /** The error log after one more occurrence of `m`: a new message counts 1, a known one is incremented in place. */
  function Record(errors: Entries<nat>, m: string): Entries<nat> {
    Put(errors, m, Get(errors, m).GetOr(0) + 1)
  }

  lemma RecordDistinct(errors: Entries<nat>, m: string)
    requires DistinctKeys(errors)
    ensures DistinctKeys(Record(errors, m))
  {
    PutDistinct(errors, m, Get(errors, m).GetOr(0) + 1);
  }

  /** The error log after the messages `msgs`, first to last. */
  function RecordAll(errors: Entries<nat>, msgs: seq<string>): Entries<nat>
    decreases |msgs|
  {
    if |msgs| == 0 then errors
    else Record(RecordAll(errors, msgs[..|msgs| - 1]), msgs[|msgs| - 1])
  }

  lemma RecordAllSnoc(errors: Entries<nat>, msgs: seq<string>, m: string)
    ensures RecordAll(errors, msgs + [m]) == Record(RecordAll(errors, msgs), m)
  {
    assert (msgs + [m])[..|msgs|] == msgs;
  }

  /** Errors are deduplicated by message: each message's count grows by the number of times it was reported. */
  lemma {:induction false} RecordAllCounts(errors: Entries<nat>, msgs: seq<string>, m: string)
    ensures Get(RecordAll(errors, msgs), m).GetOr(0) == Get(errors, m).GetOr(0) + multiset(msgs)[m]
    decreases |msgs|
  {
    if |msgs| > 0 {
      var n := |msgs| - 1;
      RecordAllCounts(errors, msgs[..n], m);
      assert msgs == msgs[..n] + [msgs[n]];
      assert multiset(msgs) == multiset(msgs[..n]) + multiset{msgs[n]};
    }
  }

  /** The log never holds a message twice. */
  lemma {:induction false} RecordAllDistinct(errors: Entries<nat>, msgs: seq<string>)
    requires DistinctKeys(errors)
    ensures DistinctKeys(RecordAll(errors, msgs))
    decreases |msgs|
  {
    if |msgs| > 0 {
      var n := |msgs| - 1;
      RecordAllDistinct(errors, msgs[..n]);
      var before := RecordAll(errors, msgs[..n]);
      assert RecordAll(errors, msgs) == Record(before, msgs[n]);
      RecordDistinct(before, msgs[n]);
    }
  }

  /** The `src` `fireEvent` reports for a handler that threw: `fireEvent.<name><<i>>`. */
  function FireSource(name: string, i: nat): string {
    "fireEvent." + name + "<" + IntToString(i) + ">"
  }

  /** The messages `fireEvent` logs when the first `count` handlers run and those in `thrown` throw. */
  function FireErrors(name: string, count: nat, thrown: map<nat, string>, now: int): seq<string> {
    if count == 0 then []
    else
      FireErrors(name, count - 1, thrown, now)
      + (if count - 1 in thrown then [ErrorMessage(thrown[count - 1], Some(FireSource(name, count - 1)), None, now)] else [])
  }

  /** Running handler `i` records its message when it throws and nothing otherwise. */
  lemma FireStep(errors: Entries<nat>, name: string, i: nat, thrown: map<nat, string>, now: int)
    ensures RecordAll(errors, FireErrors(name, i + 1, thrown, now)) ==
      if i in thrown then Record(RecordAll(errors, FireErrors(name, i, thrown, now)), ErrorMessage(thrown[i], Some(FireSource(name, i)), None, now))
      else RecordAll(errors, FireErrors(name, i, thrown, now))
  {
    if i in thrown {
      RecordAllSnoc(errors, FireErrors(name, i, thrown, now), ErrorMessage(thrown[i], Some(FireSource(name, i)), None, now));
    } else {
      assert FireErrors(name, i + 1, thrown, now) == FireErrors(name, i, thrown, now);
    }
  }

  /** The lines `real_sendBeacon` joins into the `errors` variable: each message, with " (*n)" when it occurred n > 1 times. */
  function ErrorLines(errors: Entries<nat>): (lines: seq<string>)
    ensures |lines| == |errors|
    ensures forall i :: 0 <= i < |errors| && errors[i].1 <= 1 ==> lines[i] == errors[i].0
    ensures forall i :: 0 <= i < |errors| && errors[i].1 > 1 ==>
      lines[i] == errors[i].0 + " (*" + IntToString(errors[i].1) + ")"
  {
    seq(|errors|, i requires 0 <= i < |errors| =>
      errors[i].0 + (if errors[i].1 > 1 then " (*" + IntToString(errors[i].1) + ")" else ""))
  }

  /** A text `msg + " (*" + digits + ")"` splits back into the message and the digits. */
  lemma CountSuffixSplit(msg: string, digits: string)
    ensures var line := msg + " (*" + digits + ")";
      |line| == |msg| + |digits| + 4 && line[..|msg|] == msg && line[|msg|..|msg| + 3] == " (*" &&
      line[|line| - 1] == ')' && line[|msg| + 3..|line| - 1] == digits
  {
    var line := msg + " (*" + digits + ")";
    assert line == msg + (" (*" + digits + ")");
    assert line[..|msg|] == msg;
    assert line[|msg|..] == " (*" + digits + ")";
    assert line[|msg|..][..3] == " (*";
    assert line[|msg|..][3..|line| - 1 - |msg|] == digits;
  }

  /** The line of a repeated error, `msg + " (*" + n + ")"`, holds `n` between " (*" and ")". */
  lemma RepeatedErrorText(msg: string, n: nat)
    ensures var line := msg + " (*" + IntToString(n) + ")";
      msg <= line && |line| >= |msg| + 4 && line[|msg|..|msg| + 3] == " (*" && line[|line| - 1] == ')' &&
      ParseInt(line[|msg| + 3..|line| - 1], 10) == Some(n)
  {
    CountSuffixSplit(msg, IntToString(n));
    ParseIntOfIntToString(n);
  }

  /**
   * An error line reads back to its message and count: the message is a prefix, and a repeated
   * error's count is the number between " (*" and the closing ")".
   */
  lemma ErrorLineReadBack(errors: Entries<nat>, i: nat)
    requires i < |errors|
    ensures var line := ErrorLines(errors)[i]; var msg := errors[i].0;
      msg <= line &&
      (errors[i].1 <= 1 ==> line == msg) &&
      (errors[i].1 > 1 ==>
        |line| >= |msg| + 4 && line[|msg|..|msg| + 3] == " (*" && line[|line| - 1] == ')' &&
        ParseInt(line[|msg| + 3..|line| - 1], 10) == Some(errors[i].1))
  {
    if errors[i].1 > 1 {
      RepeatedErrorText(errors[i].0, errors[i].1);
    }
  }

  /** Some plugin that is not disabled is not complete, so the beacon must wait. */
  predicate Blocking(plugins: seq<PluginStatus>, disabled: set<string>) {
    exists i :: 0 <= i < |plugins| && plugins[i].name !in disabled && !plugins[i].complete
  }

  /** Whether the beacon belongs to a single-page-app navigation. */
  predicate IsSpa(vars: map<string, Json>) {
    "http.initiator" in vars && vars["http.initiator"] == JStr("spa")
  }

  /**
   * The page URL written as `pgu`, then copied to `u` when `u` is unset or this is a
   * single-page-app beacon, then dropped from `pgu` when it equals `u`.
   */
  function UrlVars(vars: map<string, Json>, pgu: Json): map<string, Json> {
    var v1 := vars["pgu" := pgu];
    var v2 := if !("u" in v1 && v1["u"].Truthy()) || IsSpa(vars) then v1["u" := pgu] else v1;
    if v2["pgu"] == v2["u"] then v2 - {"pgu"} else v2
  }

  /** The visibility state and, when known, the time since the page was last visible and last hidden. */
  function VisibilityVars(vars: map<string, Json>, page: PageInfo, now: int): map<string, Json> {
    if page.visibility == "" then vars
    else
      var w1 := vars["vis.st" := JStr(page.visibility)];
      var w2 := if IsSet(page.lastVisible) then w1["vis.lv" := JNum(now - page.lastVisible.value)] else w1;
      if IsSet(page.lastHidden) then w2["vis.lh" := JNum(now - page.lastHidden.value)] else w2
  }

  /** The page-level variables `real_sendBeacon` writes before firing `before_beacon`. */
  function BeaconVars(vars: map<string, Json>, errors: Entries<nat>, page: PageInfo, now: int, strip: bool): map<string, Json> {
    var v := PageVars(vars, page, now, strip);
    if |errors| > 0 then v["errors" := JStr(Join(ErrorLines(errors), '\n'))] else v
  }

  /** The variables `real_sendBeacon` sets before the error log: URL, version, visibility, platform, frame. */
  function PageVars(vars: map<string, Json>, page: PageInfo, now: int, strip: bool): map<string, Json> {
    var url := if IsSpa(vars) then page.documentUrl else StripHash(page.documentUrl);
    var v1 := UrlVars(vars, JStr(CleanupURL(Some(url), strip)))["v" := JStr(Version)];
    AgentVars(VisibilityVars(v1, page, now), page)
  }

  /** The platform and vendor, and `if` when the page is in an iframe. */
  function AgentVars(vars: map<string, Json>, page: PageInfo): map<string, Json> {
    var v := vars["ua.plt" := JStr(page.platform)]["ua.vnd" := JStr(page.vendor)];
    if page.inIframe then v["if" := JStr("")] else v
  }

  /** The agent variables leave every other variable as it was. */
  lemma AgentVarsKeeps(vars: map<string, Json>, page: PageInfo, k: string)
    requires k != "ua.plt" && k != "ua.vnd" && k != "if"
    ensures var r := AgentVars(vars, page);
      (k in r <==> k in vars) && (k in vars ==> r[k] == vars[k])
  {
  }

  lemma UrlVarsFacts(vars: map<string, Json>, pgu: Json)
    ensures var r := UrlVars(vars, pgu);
      "u" in r &&
      ("u" in vars && vars["u"].Truthy() && !IsSpa(vars) ==> r["u"] == vars["u"]) &&
      (!("u" in vars && vars["u"].Truthy()) || IsSpa(vars) ==> r["u"] == pgu) &&
      ("pgu" in r <==> r["u"] != pgu) && ("pgu" in r ==> r["pgu"] == pgu) &&
      ("errors" in r <==> "errors" in vars)
  {
  }

  /** The visibility variables leave every other variable as it was. */
  lemma VisibilityVarsKeeps(vars: map<string, Json>, page: PageInfo, now: int, k: string)
    requires k != "vis.st" && k != "vis.lv" && k != "vis.lh"
    ensures var r := VisibilityVars(vars, page, now);
      (k in r <==> k in vars) && (k in vars ==> r[k] == vars[k])
  {
  }

  /**
   * `u` is always set, and an earlier non-empty `u` survives except on single-page-app beacons;
   * `pgu` is sent only when it differs from `u`; the version is stamped; the error log becomes
   * the `errors` variable, one line per message.
   */
  lemma BeaconVarsFacts(vars: map<string, Json>, errors: Entries<nat>, page: PageInfo, now: int, strip: bool)
    ensures var r := BeaconVars(vars, errors, page, now, strip);
      "u" in r && "v" in r && r["v"] == JStr(Version) &&
      ("u" in vars && vars["u"].Truthy() && !IsSpa(vars) ==> r["u"] == vars["u"]) &&
      ("pgu" in r ==> r["pgu"] != r["u"]) &&
      ("errors" in r <==> "errors" in vars || errors != []) &&
      (errors != [] ==> "errors" in r && r["errors"] == JStr(Join(ErrorLines(errors), '\n')))
  {
    PageVarsFacts(vars, page, now, strip);
  }

  /** The page variables: `u` set, `pgu` only when it differs, the version stamped, `errors` as it was. */
  lemma PageVarsFacts(vars: map<string, Json>, page: PageInfo, now: int, strip: bool)
    ensures var r := PageVars(vars, page, now, strip);
      "u" in r && "v" in r && r["v"] == JStr(Version) &&
      ("u" in vars && vars["u"].Truthy() && !IsSpa(vars) ==> r["u"] == vars["u"]) &&
      ("pgu" in r ==> r["pgu"] != r["u"]) &&
      ("errors" in r <==> "errors" in vars)
  {
    var url := if IsSpa(vars) then page.documentUrl else StripHash(page.documentUrl);
    var pgu := JStr(CleanupURL(Some(url), strip));
    var u := UrlVars(vars, pgu);
    UrlVarsFacts(vars, pgu);
    var v1 := u["v" := JStr(Version)];
    VisibilityVarsKeeps(v1, page, now, "u");
    VisibilityVarsKeeps(v1, page, now, "pgu");
    VisibilityVarsKeeps(v1, page, now, "v");
    VisibilityVarsKeeps(v1, page, now, "errors");
    var w := VisibilityVars(v1, page, now);
    AgentVarsKeeps(w, page, "u");
    AgentVarsKeeps(w, page, "pgu");
    AgentVarsKeeps(w, page, "v");
    AgentVarsKeeps(w, page, "errors");
  }

  class Boomr {
    const config: BoomrConfig
    /** `impl.vars`: the beacon parameters. */
    var vars: map<string, Json>
    /** `impl.errors`: each distinct error message with its count, in first-seen order. */
    var errors: Entries<nat>
    /** `impl.events`: each event's handler list. */
    var events: map<string, seq<Handler>>
    var onloadfired: bool
    var beaconQueued: bool
    var beaconUrl: string
    /** Calls waiting in `setImmediate`. */
    var immediate: seq<Deferred>
    var disabledPlugins: set<string>
    /** What `document.cookie` reads back, as far as this script's cookie goes. */
    var cookieJar: string

    predicate Valid()
      reads this`events, this`errors
    {
      events.Keys == EventNames &&
      (forall e :: e in events ==> NoDuplicates(events[e])) &&
      DistinctKeys(errors)
    }

    constructor(config: BoomrConfig, cookieJar: string, disabledPlugins: set<string>)
      ensures Valid()
      ensures this.config == config && this.cookieJar == cookieJar && this.disabledPlugins == disabledPlugins
      ensures vars == map[] && errors == [] && immediate == []
      ensures events == map e | e in EventNames :: []
      ensures !onloadfired && !beaconQueued && beaconUrl == ""
    {
      this.config := config;
      this.cookieJar := cookieJar;
      this.disabledPlugins := disabledPlugins;
      vars := map[];
      errors := [];
      events := map e | e in EventNames :: [];
      onloadfired := false;
      beaconQueued := false;
      beaconUrl := "";
      immediate := [];
    }

    /** `hasVar(name)`. */
    predicate HasVar(name: string)
      reads this
    {
      name in vars
    }

    /** `addVar(name, value)`. */
    method AddVar(name: string, value: Json)
      modifies this`vars
      ensures HasVar(name) && vars[name] == value
      ensures vars == old(vars)[name := value]
    {
      vars := vars[name := value];
    }

    /** `addVar(o)`: every own property of `o` becomes a variable. */
    method AddVars(o: Entries<Json>)
      requires DistinctKeys(o)
      modifies this`vars
      ensures forall j :: 0 <= j < |o| ==> o[j].0 in vars && vars[o[j].0] == o[j].1
      ensures forall k :: k in vars && !Has(o, k) ==> k in old(vars) && vars[k] == old(vars)[k]
      ensures forall k :: k in old(vars) ==> k in vars
    {
      var i := 0;
      while i < |o|
        invariant 0 <= i <= |o|
        invariant forall j :: 0 <= j < i ==> o[j].0 in vars && vars[o[j].0] == o[j].1
        invariant forall k :: k in vars && !Has(o[..i], k) ==> k in old(vars) && vars[k] == old(vars)[k]
        invariant forall k :: k in old(vars) ==> k in vars
      {
        vars := vars[o[i].0 := o[i].1];
        assert forall k :: Has(o[..i], k) ==> Has(o[..i + 1], k) by {
          forall k | Has(o[..i], k) ensures Has(o[..i + 1], k) {
            var m :| 0 <= m < i && o[..i][m].0 == k;
            assert o[..i + 1][m].0 == k;
          }
        }
        assert Has(o[..i + 1], o[i].0) by { assert o[..i + 1][i].0 == o[i].0; }
        forall k | k in vars && !Has(o[..i + 1], k)
          ensures k in old(vars) && vars[k] == old(vars)[k]
        {
          assert !Has(o[..i], k);
        }
        i := i + 1;
      }
      forall k | k in vars && !Has(o, k)
        ensures k in old(vars) && vars[k] == old(vars)[k]
      {
        assert o[..i] == o;
      }
    }

    /** `removeVar(names)`: the named variables that exist are deleted. */
    method RemoveVar(names: seq<string>)
      modifies this`vars
      ensures forall n :: n in names ==> !HasVar(n)
      ensures vars == map k | k in old(vars) && k !in names :: old(vars)[k]
    {
      var i := 0;
      while i < |names|
        invariant 0 <= i <= |names|
        invariant vars == map k | k in old(vars) && k !in names[..i] :: old(vars)[k]
      {
        if names[i] in vars {
          vars := vars - {names[i]};
        }
        assert forall k :: k in names[..i + 1] <==> k in names[..i] || k == names[i] by {
          assert names[..i + 1] == names[..i] + [names[i]];
        }
        i := i + 1;
      }
      assert names[..i] == names;
    }

    /** `addError(err, src, extra)`. */
    method AddError(err: string, src: Option<string>, extra: Option<string>, now: int)
      requires Valid()
      modifies this`errors
      ensures Valid()
      ensures errors == Record(old(errors), ErrorMessage(err, src, extra, now))
    {
      var m := ErrorMessage(err, src, extra, now);
      RecordDistinct(errors, m);
      errors := Record(errors, m);
    }

    /** `fireEvent(name, data)`: unknown events do nothing; each handler that throws is logged. */
    method FireEvent(name: string, thrown: map<nat, string>, now: int)
      requires Valid()
      modifies this`errors
      ensures Valid()
      ensures var e := ToLowerAscii(name);
        errors == RecordAll(old(errors), FireErrors(e, if e in events then |events[e]| else 0, thrown, now))
    {
      var e := ToLowerAscii(name);
      if e !in events {
        return;
      }
      var count := |events[e]|;
      var before := errors;
      var log := before;
      var i := 0;
      while i < count
        invariant 0 <= i <= count
        invariant log == RecordAll(before, FireErrors(e, i, thrown, now))
      {
        FireStep(before, e, i, thrown, now);
        if i in thrown {
          log := Record(log, ErrorMessage(thrown[i], Some(FireSource(e, i)), None, now));
        }
        i := i + 1;
      }
      RecordAllDistinct(before, FireErrors(e, count, thrown, now));
      errors := log;
    }

    /** `subscribe(name, fn, cb_data, cb_scope)`, refusing a handler already in the list. */
    method Subscribe(name: string, fn: string, cbData: CbData, scope: Scope)
      requires Valid()
      modifies this`events, this`immediate
      ensures Valid()
      ensures var e := ToLowerAscii(name);
        if e in EventNames then events == old(events)[e := AddHandler(old(events)[e], fn, cbData, scope)]
        else events == old(events)
      ensures var e := ToLowerAscii(name);
        immediate == old(immediate) +
          (if e == "page_ready" && onloadfired && StoredHandler(fn, cbData, scope) !in old(events)[e]
           then [CallHandler(StoredHandler(fn, cbData, scope))] else [])
    {
      var e := ToLowerAscii(name);
      if e !in events {
        return;
      }
      var ev := events[e];
      var h := StoredHandler(fn, cbData, scope);
      var i := 0;
      while i < |ev|
        invariant 0 <= i <= |ev|
        invariant forall j :: 0 <= j < i ==> ev[j] != h
      {
        if ev[i] == h {
          return;
        }
        i := i + 1;
      }
      events := events[e := ev + [h]];
      if e == "page_ready" && onloadfired {
        immediate := immediate + [CallHandler(h)];
      }
    }

    /** `page_ready(ev)`: fires `page_ready` once; later calls do nothing. */
    method PageReady(thrown: map<nat, string>, now: int)
      requires Valid()
      modifies this`errors, this`onloadfired
      ensures Valid() && onloadfired
      ensures old(onloadfired) ==> errors == old(errors)
      ensures !old(onloadfired) ==>
        errors == RecordAll(old(errors), FireErrors("page_ready", |events["page_ready"]|, thrown, now))
    {
      if onloadfired {
        return;
      }
      ToLowerAsciiFixed("page_ready");
      FireEvent("page_ready", thrown, now);
      onloadfired := true;
    }

    /** `sendBeacon(url)`: queues one `real_sendBeacon`; while one is queued, nothing more is scheduled. */
    method SendBeacon(beaconUrlOverride: Option<string>) returns (r: bool)
      modifies this`beaconUrl, this`beaconQueued, this`immediate
      ensures r && beaconQueued
      ensures beaconUrl == if IsSetStr(beaconUrlOverride) then beaconUrlOverride.value else old(beaconUrl)
      ensures old(beaconQueued) ==> immediate == old(immediate)
      ensures !old(beaconQueued) ==> immediate == old(immediate) + [CallRealSendBeacon]
    {
      if IsSetStr(beaconUrlOverride) {
        beaconUrl := beaconUrlOverride.value;
      }
      if !beaconQueued {
        beaconQueued := true;
        immediate := immediate + [CallRealSendBeacon];
      }
      return true;
    }

    /**
     * `real_sendBeacon()` up to the hand-off to the transport: nothing unless a send is queued;
     * the flag is cleared first; an incomplete enabled plugin defers the beacon; otherwise the
     * page variables and the error log are written to the beacon, the log is emptied and
     * `before_beacon` fires.
     */
    method RealSendBeacon(plugins: seq<PluginStatus>, page: PageInfo, now: int, thrown: map<nat, string>) returns (r: bool)
      requires Valid()
      modifies this`beaconQueued, this`vars, this`errors
      ensures Valid() && !beaconQueued
      ensures !old(beaconQueued) ==> !r && vars == old(vars) && errors == old(errors)
      ensures old(beaconQueued) && Blocking(plugins, disabledPlugins) ==> !r && vars == old(vars) && errors == old(errors)
      ensures old(beaconQueued) && !Blocking(plugins, disabledPlugins) ==>
        r && vars == BeaconVars(old(vars), old(errors), page, now, config.stripQueryString) &&
        errors == RecordAll([], FireErrors("before_beacon", |events["before_beacon"]|, thrown, now))
    {
      if !beaconQueued {
        return false;
      }
      beaconQueued := false;
      var ready := PluginsComplete(plugins);
      if !ready {
        return false;
      }
      var sent := BeaconVars(vars, errors, page, now, config.stripQueryString);
      vars := sent;
      errors := [];
      BeforeBeaconName();
      FireEvent("before_beacon", thrown, now);
      return true;
    }

    /** The loop over the plugins: every plugin that is not disabled reports itself complete. */
    method PluginsComplete(plugins: seq<PluginStatus>) returns (ready: bool)
      ensures ready <==> !Blocking(plugins, disabledPlugins)
    {
      var k := 0;
      while k < |plugins|
        invariant 0 <= k <= |plugins|
        invariant forall j :: 0 <= j < k ==> plugins[j].name in disabledPlugins || plugins[j].complete
      {
        if plugins[k].name !in disabledPlugins && !plugins[k].complete {
          return false;
        }
        k := k + 1;
      }
      return true;
    }

    /**
     * `setCookie(name, subcookies, max_age)`: refused without a name or a site domain or when
     * `name="value"` is 500 characters or more; otherwise written (the browser may block it:
     * `accepted`), read back, and reported successful only if the value read back matches.
     * A negative `max_age` expires the cookie.
     */
    method SetCookie(name: string, subcookies: Entries<string>, maxAge: int, accepted: bool) returns (ok: bool)
      modifies this`cookieJar
      ensures var value := ObjectToString(subcookies);
        var written := name != "" && config.siteDomain != "" && |CookieText(name, value)| < 500;
        cookieJar == (if written && accepted then (if maxAge < 0 then "" else CookieText(name, value)) else old(cookieJar)) &&
        (ok <==> written && GetCookie(name, cookieJar) == Some(value))
      ensures var value := ObjectToString(subcookies);
        name != "" && config.siteDomain != "" && |CookieText(name, value)| < 500 && accepted && maxAge >= 0 && ';' !in value
        ==> ok
    {
      if name == "" || config.siteDomain == "" {
        return false;
      }
      var value := ObjectToString(subcookies);
      var nameval := CookieText(name, value);
      if |nameval| < 500 {
        if accepted {
          cookieJar := if maxAge < 0 then "" else nameval;
        }
        if accepted && maxAge >= 0 && ';' !in value {
          GetCookieOfCookieText(name, value);
        }
        var saved := GetCookie(name, cookieJar);
        return saved == Some(value);
      }
      return false;
    }

    /** `removeCookie(name)`: an expired empty cookie; once the browser drops it, the read-back fails and the call answers false. */
    method RemoveCookie(name: string, accepted: bool) returns (ok: bool)
      modifies this`cookieJar
      ensures name != "" && config.siteDomain != "" && |name| < 497 && accepted ==> cookieJar == "" && !ok
      ensures !(name != "" && config.siteDomain != "" && |name| < 497 && accepted) ==> cookieJar == old(cookieJar)
    {
      ok := SetCookie(name, [], -86400, accepted);
      if name != "" && config.siteDomain != "" && |name| < 497 && accepted {
        GetCookieEmpty(name);
      }
    }
  }

  /** An empty cookie jar holds no cookie. */
  lemma GetCookieEmpty(name: string)
    ensures GetCookie(name, "") == None
  {
    if name != "" {
      var key := " " + name + "=";
      assert forall k :: !OccursAt(" ;", key, k);
    }
  }

  /** The handler `h` is in the list of event `e`. */
  predicate Subscribed(events: map<string, seq<Handler>>, e: string, h: Handler) {
    e in events && h in events[e]
  }

  /** Every subscription of `a` is still in `b`. */
  predicate Grows(a: map<string, seq<Handler>>, b: map<string, seq<Handler>>) {
    forall e, h :: e in a && h in a[e] ==> Subscribed(b, e, h)
  }

  /** The first `n` of the (event, handler) pairs `hs` are in place. */
  predicate SubscribedFirst(events: map<string, seq<Handler>>, hs: seq<(string, Handler)>, n: nat)
    requires n <= |hs|
  {
    forall i | 0 <= i < n :: Subscribed(events, hs[i].0, hs[i].1)
  }

  /**
   * One `subscribe` of a handler with a defined scope to a known, lower-case event: it is added
   * and every earlier subscription stays.
   */
  method SubscribeOne(core: Boomr, e: string, h: Handler)
    requires core.Valid() && e in EventNames && ToLowerAscii(e) == e && h.scope.ScopeObj?
    modifies core`events, core`immediate
    ensures core.Valid()
    ensures Grows(old(core.events), core.events)
    ensures Subscribed(core.events, e, h)
  {
    core.Subscribe(e, h.fn, h.cbData, h.scope);
  }

  /** Every pair names a known, lower-case event and a handler with a defined scope. */
  predicate KnownHandlers(hs: seq<(string, Handler)>) {
    forall i | 0 <= i < |hs| :: hs[i].0 in EventNames && ToLowerAscii(hs[i].0) == hs[i].0 && hs[i].1.scope.ScopeObj?
  }

  /** The `k`-th of a plugin's subscriptions `hs`, after the ones before it, which stay in place. */
  method SubscribeNext(core: Boomr, hs: seq<(string, Handler)>, k: nat)
    requires core.Valid() && k < |hs| && SubscribedFirst(core.events, hs, k) && KnownHandlers(hs)
    modifies core`events, core`immediate
    ensures core.Valid() && SubscribedFirst(core.events, hs, k + 1)
  {
    var (e, h) := hs[k];
    SubscribeOne(core, e, h);
  }
}
