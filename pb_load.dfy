/** The `pb-load` element: loads content from a server-side script whenever a
    trigger event arrives, building the request parameters from the trigger,
    the bound document, the pagination offset and the user's toggled
    parameters, and announcing the pagination headers of each response. */
module ContentLoader {
  import opened Wrappers
  import opened JsValues

  /** Request parameters: a plain object of scalar values */
  type Params = JsValues.Object

  /** What `load` is given: nothing, an event (whose `detail.params` may be
      missing), or a plain parameter object passed by a caller */
  datatype Trigger =
    | NoTrigger
    | EventTrigger(detailParams: Option<Params>)
    | PlainParams(params: Params)

  /** Everything the element does that others can observe: events on the
      event bus, requests through its AJAX element, and the calls into the
      page's URL and history state */
  datatype Effect =
    | StartUpdate
    | EndUpdate
    | Request(url: string, params: Params)
    | ResultsReceived(count: JsValue, start: JsValue, params: Params)
    | SetParameter(name: string, value: JsValue)
    | PushHistory(kind: string, start: JsValue)

  /** Number of requests in a log of effects */
  function Requests(log: seq<Effect>): nat {
    if log == [] then 0 else (if log[0].Request? then 1 else 0) + Requests(log[1..])
  }

  lemma {:induction false} RequestsAppend(a: seq<Effect>, b: seq<Effect>)
    ensures Requests(a + b) == Requests(a) + Requests(b)
  {
    if a == [] {
      assert a + b == b;
    } else {
      assert (a + b)[1..] == a[1..] + b;
      RequestsAppend(a[1..], b);
    }
  }

  lemma RequestsAppendOne(a: seq<Effect>, e: Effect)
    ensures Requests(a + [e]) == Requests(a) + if e.Request? then 1 else 0
  {
    RequestsAppend(a, [e]);
    assert [e][1..] == [];
  }

  lemma AppendTwo(log: seq<Effect>, first: Effect, second: Effect)
    ensures log + [first] + [second] == log + [first, second]
  {
  }

  /** The object `load` starts from: the event's `detail.params`, the plain
      object itself, or a fresh empty object */
  function BaseParams(trigger: Trigger): Params {
    match trigger
    case NoTrigger => map[]
    case EventTrigger(detail) => detail.GetOr(map[])
    case PlainParams(p) => p
  }

  function UserKeys(userParams: Option<Params>): set<string> {
    if userParams.Some? then userParams.value.Keys else {}
  }

  /** The parameters of a request: those of the trigger, the bound document's
      path as `doc`, the remembered offset as `start` when the trigger has no
      truthy one, and the user's parameters over all of them */
  function ResolvedParams(base: Params, document: Option<string>, start: JsValue, userParams: Option<Params>): Params
  {
    var keys := base.Keys + UserKeys(userParams)
      + (if document.Some? then {"doc"} else {})
      + (if Truthy(start) then {"start"} else {});
    map k | k in keys :: ResolvedValue(base, document, start, userParams, k)
  }

  /** The value of one key of ResolvedParams */
  function ResolvedValue(base: Params, document: Option<string>, start: JsValue, userParams: Option<Params>, k: string): JsValue {
    if k in UserKeys(userParams) then userParams.value[k]
    else if k == "doc" && document.Some? then Str(document.value)
    else if k == "start" && Truthy(start) && !Truthy(Lookup(base, "start")) then start
    else Lookup(base, k)
  }

  /** Key by key, in order of precedence: the user's toggled parameters win
      on every key they hold; then the bound document's path is `doc`; then
      the remembered offset fills `start`, but only when it is truthy and the
      trigger has no truthy `start`; every other key keeps the trigger's value,
      and no other key appears. */
  lemma ResolvedParamsPrecedence(base: Params, document: Option<string>, start: JsValue, userParams: Option<Params>)
    ensures ResolvedParams(base, document, start, userParams).Keys == base.Keys + UserKeys(userParams)
      + (if document.Some? then {"doc"} else {})
      + (if Truthy(start) then {"start"} else {})
    ensures forall k :: k in UserKeys(userParams) ==> ResolvedParams(base, document, start, userParams)[k] == userParams.value[k]
    ensures "doc" !in UserKeys(userParams) ==>
      Lookup(ResolvedParams(base, document, start, userParams), "doc") == if document.Some? then Str(document.value) else Lookup(base, "doc")
    ensures "start" !in UserKeys(userParams) && Truthy(Lookup(base, "start")) ==> ResolvedParams(base, document, start, userParams)["start"] == base["start"]
    ensures "start" !in UserKeys(userParams) && !Truthy(Lookup(base, "start")) && Truthy(start) ==> ResolvedParams(base, document, start, userParams)["start"] == start
    ensures "start" !in UserKeys(userParams) && !Truthy(start) ==> Lookup(ResolvedParams(base, document, start, userParams), "start") == Lookup(base, "start")
    ensures forall k :: k in base && k !in UserKeys(userParams) && k != "doc" && k != "start" ==>
      ResolvedParams(base, document, start, userParams)[k] == base[k]
  {
  }

  /** The map after `load` has written `doc` and filled a gap in `start` */
  predicate DocAndStartWritten(base: Params, document: Option<string>, start: JsValue, withDoc: Params, withStart: Params) {
    && withDoc == (if document.Some? then base["doc" := Str(document.value)] else base)
    && withStart == if Truthy(start) && !Truthy(Lookup(withDoc, "start")) then withDoc["start" := start] else withDoc
  }

  /** The map after the user's parameters have been merged into `withStart` */
  predicate UserParamsMerged(withStart: Params, userParams: Option<Params>, l: Params) {
    && l.Keys == withStart.Keys + UserKeys(userParams)
    && forall k :: k in l ==> l[k] == if k in UserKeys(userParams) then userParams.value[k] else withStart[k]
  }

  /** The step-by-step construction of `load` (write `doc`, fill a gap in
      `start`, merge the user's parameters) yields ResolvedParams */
  lemma ResolvedBySteps(base: Params, document: Option<string>, start: JsValue, userParams: Option<Params>,
                        withDoc: Params, withStart: Params, l: Params)
    requires DocAndStartWritten(base, document, start, withDoc, withStart)
    requires UserParamsMerged(withStart, userParams, l)
    ensures l == ResolvedParams(base, document, start, userParams)
  {
    var r := ResolvedParams(base, document, start, userParams);
    ResolvedKeys(base, document, start, userParams, withDoc, withStart, l);
    forall k | k in l
      ensures l[k] == r[k]
    {
      StepValue(base, document, start, userParams, withDoc, withStart, l, k);
    }
  }

  lemma ResolvedKeys(base: Params, document: Option<string>, start: JsValue, userParams: Option<Params>,
                     withDoc: Params, withStart: Params, l: Params)
    requires DocAndStartWritten(base, document, start, withDoc, withStart)
    requires UserParamsMerged(withStart, userParams, l)
    ensures l.Keys == ResolvedParams(base, document, start, userParams).Keys
  {
    StepKeys(base, document, start, withDoc, withStart);
  }

  lemma StepKeys(base: Params, document: Option<string>, start: JsValue, withDoc: Params, withStart: Params)
    requires DocAndStartWritten(base, document, start, withDoc, withStart)
    ensures withStart.Keys == base.Keys
      + (if document.Some? then {"doc"} else {})
      + (if Truthy(start) then {"start"} else {})
  {
    assert Lookup(withDoc, "start") == Lookup(base, "start");
    if Truthy(start) && Truthy(Lookup(withDoc, "start")) {
      assert "start" in withDoc;
    }
  }

  lemma StepValue(base: Params, document: Option<string>, start: JsValue, userParams: Option<Params>,
                  withDoc: Params, withStart: Params, l: Params, k: string)
    requires DocAndStartWritten(base, document, start, withDoc, withStart)
    requires UserParamsMerged(withStart, userParams, l)
    requires k in l
    ensures l[k] == ResolvedValue(base, document, start, userParams, k)
  {
    StepKeys(base, document, start, withDoc, withStart);
    assert Lookup(withDoc, "start") == Lookup(base, "start");
    if k !in UserKeys(userParams) {
      assert l[k] == withStart[k];
      if k != "start" {
        assert withStart[k] == withDoc[k];
      }
    }
  }

  /** With a trigger of `{start: 5}` and a remembered offset of 2, the request asks for offset 5 */
  lemma ExplicitStartKept(document: Option<string>)
    ensures Lookup(ResolvedParams(map["start" := Num(5)], document, Num(2), None), "start") == Num(5)
  {
  }

  /** `getResponseHeader` gives `null` for a missing header */
  function HeaderValue(header: Option<string>): JsValue {
    if header.Some? then Str(header.value) else Null
  }

  /** The `count` of a `pb-results-received` event: the header parsed as a
      decimal integer, or 0 when the header is missing or empty */
  function ResultCount(total: Option<string>): (c: JsValue)
    ensures !Truthy(HeaderValue(total)) ==> c == Num(0)
    ensures c.Num? || c.NaN?
  {
    if Truthy(HeaderValue(total)) then ParseInt(HeaderValue(total), 10) else Num(0)
  }

  /** The offset `_parseHeaders` keeps: the current one when it is strictly
      equal to the `pb-start` header, otherwise the header parsed as an
      integer. Either way it denotes the same integer as the header. */
  function NextStart(current: JsValue, header: Option<string>): (r: JsValue)
    ensures StrictEquals(current, HeaderValue(header)) ==> r == current
    ensures StrictEquals(r, HeaderValue(header)) || r.Num? || r.NaN?
  {
    var h := HeaderValue(header);
    if StrictEquals(current, h) then current else ParseInt(h, 0)
  }

  /** Whether the offset is kept or replaced, it denotes the same integer as the header */
  lemma NextStartDenotesHeader(current: JsValue, header: Option<string>)
    ensures ParseInt(NextStart(current, header), 0) == ParseInt(HeaderValue(header), 0)
  {
    var h := HeaderValue(header);
    if !StrictEquals(current, h) {
      ParseIntIdempotent(h, 0);
    }
  }

  /** A `pb-total` header carrying the decimal form of n gives a count of n */
  lemma ResultCountOfDecimal(n: int)
    ensures ResultCount(Some(NumberToString(n))) == Num(n)
  {
    ParseIntNumberToString(n, 10);
    NumberToStringStart(n);
  }

  /** `pb-total: 42` and `pb-start: 10` give a count of 42 and an offset of
      10, unless the offset already was the string "10", which is kept */
  lemma ResultsOfExampleHeaders(current: JsValue)
    requires current != Str("10")
    ensures ResultCount(Some("42")) == Num(42)
    ensures NextStart(current, Some("10")) == Num(10)
  {
    assert NatDigits(42) == "42";
    assert NatDigits(10) == "10";
    ResultCountOfDecimal(42);
    ParseIntNumberToString(10, 0);
  }

  class PbLoad {
    /** The `url` attribute */
    const url: string
    /** What `getEndpoint()` gives: the application's root URL */
    const endpoint: string
    /** Path of the document `getDocument()` finds, if the element is bound to one */
    const document: Option<string>
    const loadOnce: bool
    const history: bool
    const auto: bool

    /** Pagination offset */
    var start: JsValue
    var loaded: bool
    /** Parameters set by the last `pb-toggle` event */
    var userParams: Option<Params>
    /** The `params` of the AJAX element: those of the last request */
    var requestParams: Params
    var effects: seq<Effect>

    /** With `loadOnce`, `loaded` records whether the one request has been
        issued; without it, `loaded` stays false */
    ghost predicate Valid()
      reads this
    {
      && (!loadOnce ==> !loaded)
      && (loadOnce ==> Requests(effects) == if loaded then 1 else 0)
    }

    constructor (url: string, endpoint: string, document: Option<string>, loadOnce: bool, history: bool, auto: bool)
      ensures Valid()
      ensures this.url == url && this.endpoint == endpoint && this.document == document
      ensures this.loadOnce == loadOnce && this.history == history && this.auto == auto
      ensures start == Undefined && !loaded && userParams == None && requestParams == map[] && effects == []
    {
      this.url := url;
      this.endpoint := endpoint;
      this.document := document;
      this.loadOnce := loadOnce;
      this.history := history;
      this.auto := auto;
      start := Undefined;
      loaded := false;
      userParams := None;
      requestParams := map[];
      effects := [];
    }

    /** `getURL()`: the endpoint and the `url` attribute joined by a slash,
        so that both can be read back from it */
    function URL(): (r: string)
      reads this
      ensures |r| == |endpoint| + 1 + |url|
      ensures r[..|endpoint|] == endpoint && r[|endpoint|] == '/' && r[|endpoint| + 1..] == url
    {
      endpoint + "/" + url
    }

    /** `prepareParameters`: merges the user's parameters into `params`,
        where they win on every shared key; without them `params` is returned as it is */
    method PrepareParameters(params: Params) returns (r: Params)
      ensures userParams.None? ==> r == params
      ensures r.Keys == params.Keys + UserKeys(userParams)
      ensures forall k :: k in r ==> r[k] == if k in UserKeys(userParams) then userParams.value[k] else params[k]
    {
      r := params;
      if userParams.Some? {
        r := params + userParams.value;
      }
    }

    /** Builds the parameters of a request the way `load` does, step by step */
    method ResolveParameters(trigger: Trigger) returns (params: Params)
      ensures params == ResolvedParams(BaseParams(trigger), document, start, userParams)
    {
      params := map[];
      match trigger {
        case NoTrigger =>
        case EventTrigger(detail) =>
          if detail.Some? {
            params := detail.value;
          }
        case PlainParams(p) =>
          params := p;
      }
      ghost var base := params;
      if document.Some? {
        params := params["doc" := Str(document.value)];
      }
      ghost var withDoc := params;
      if Truthy(start) && !Truthy(Lookup(params, "start")) {
        params := params["start" := start];
      }
      ghost var withStart := params;
      assert DocAndStartWritten(base, document, start, withDoc, withStart);
      params := PrepareParameters(params);
      ResolvedBySteps(base, document, start, userParams, withDoc, withStart, params);
    }

    /** `load`: unless the element loads once and has loaded, announces the
        update and issues exactly one request with the resolved parameters */
    method Load(trigger: Trigger)
      requires Valid()
      modifies this
      ensures Valid()
      ensures start == old(start) && userParams == old(userParams)
      ensures old(loadOnce && loaded) ==>
        loaded && effects == old(effects) && requestParams == old(requestParams)
      ensures !old(loadOnce && loaded) ==>
        && loaded == loadOnce
        && requestParams == ResolvedParams(BaseParams(trigger), document, start, userParams)
        && effects == old(effects) + [StartUpdate, Request(URL(), requestParams)]
      ensures Requests(effects) == Requests(old(effects)) + if old(loadOnce && loaded) then 0 else 1
      ensures loadOnce ==> Requests(effects) <= 1
    {
      if loadOnce && loaded {
        return;
      }
      effects := effects + [StartUpdate];
      RequestsAppendOne(old(effects), StartUpdate);
      var params := ResolveParameters(trigger);
      requestParams := params;
      RequestsAppendOne(effects, Request(URL(), params));
      effects := effects + [Request(URL(), params)];
      if loadOnce {
        loaded := true;
      }
    }

    /** The handler of the trigger event: with history on, a truthy `start`
        among the event's parameters goes into the page URL and a history
        entry; then the element loads with the event */
    method OnTrigger(detailParams: Option<Params>)
      requires Valid()
      modifies this
      ensures Valid()
      ensures start == old(start) && userParams == old(userParams)
      ensures
        var pushed := if history && detailParams.Some? && Truthy(Lookup(detailParams.value, "start"))
          then [SetParameter("start", Lookup(detailParams.value, "start")),
                PushHistory("pagination", Lookup(detailParams.value, "start"))]
          else [];
        var loading := if old(loadOnce && loaded) then []
          else [StartUpdate, Request(URL(), ResolvedParams(BaseParams(EventTrigger(detailParams)), document, start, userParams))];
        effects == old(effects) + pushed + loading
      ensures old(loadOnce && loaded) ==> loaded && requestParams == old(requestParams)
      ensures !old(loadOnce && loaded) ==>
        && loaded == loadOnce
        && requestParams == ResolvedParams(BaseParams(EventTrigger(detailParams)), document, start, userParams)
      ensures Requests(effects) == Requests(old(effects)) + if old(loadOnce && loaded) then 0 else 1
    {
      var pushed: seq<Effect> := [];
      if history && detailParams.Some? {
        var s := Lookup(detailParams.value, "start");
        if Truthy(s) {
          pushed := [SetParameter("start", s), PushHistory("pagination", s)];
          RequestsAppendOne(effects, SetParameter("start", s));
          RequestsAppendOne(effects + [SetParameter("start", s)], PushHistory("pagination", s));
          assert effects + pushed == effects + [SetParameter("start", s)] + [PushHistory("pagination", s)];
          effects := effects + pushed;
        }
      }
      Load(EventTrigger(detailParams));
    }

    /** The `popstate` listener, registered only with history on: a truthy
        offset in the history entry that differs from the current one becomes
        the current offset and the element reloads */
    method OnPopState(stateStart: JsValue)
      requires Valid()
      modifies this
      ensures Valid()
      ensures userParams == old(userParams)
      ensures history && Truthy(stateStart) && !StrictEquals(stateStart, old(start)) ==>
        && start == stateStart
        && (old(loadOnce && loaded) ==> loaded && effects == old(effects) && requestParams == old(requestParams))
        && (!old(loadOnce && loaded) ==>
              && loaded == loadOnce
              && requestParams == ResolvedParams(map[], document, stateStart, userParams)
              && effects == old(effects) + [StartUpdate, Request(URL(), requestParams)])
      ensures !(history && Truthy(stateStart) && !StrictEquals(stateStart, old(start))) ==>
        start == old(start) && loaded == old(loaded) && effects == old(effects) && requestParams == old(requestParams)
    {
      if history && Truthy(stateStart) && !StrictEquals(stateStart, start) {
        start := stateStart;
        Load(NoTrigger);
      }
    }

    /** `toggleFeature`: stores the event's properties as the user's
        parameters, and reloads only when the action is `refresh` */
    method ToggleFeature(properties: Option<Params>, action: JsValue)
      requires Valid()
      modifies this
      ensures Valid()
      ensures userParams == properties && start == old(start)
      ensures StrictEquals(action, Str("refresh")) && !old(loadOnce && loaded) ==>
        && loaded == loadOnce
        && requestParams == ResolvedParams(map[], document, start, properties)
        && effects == old(effects) + [StartUpdate, Request(URL(), requestParams)]
      ensures !StrictEquals(action, Str("refresh")) || old(loadOnce && loaded) ==>
        loaded == old(loaded) && effects == old(effects) && requestParams == old(requestParams)
    {
      userParams := properties;
      if StrictEquals(action, Str("refresh")) {
        Load(NoTrigger);
      }
    }

    /** `firstUpdated`: with `auto`, takes the offset from the page's query
        (`queryStart` is what `getParameter` returns) and loads */
    method FirstUpdated(queryStart: JsValue)
      requires Valid()
      modifies this
      ensures Valid()
      ensures userParams == old(userParams)
      ensures auto ==> start == queryStart
      ensures auto && old(loadOnce && loaded) ==>
        loaded && effects == old(effects) && requestParams == old(requestParams)
      ensures auto && !old(loadOnce && loaded) ==>
        && loaded == loadOnce
        && requestParams == ResolvedParams(map[], document, queryStart, userParams)
        && effects == old(effects) + [StartUpdate, Request(URL(), requestParams)]
      ensures !auto ==>
        start == old(start) && loaded == old(loaded) && effects == old(effects) && requestParams == old(requestParams)
    {
      if auto {
        start := queryStart;
        Load(NoTrigger);
      }
    }

    /** `_parseHeaders`: takes the offset from the `pb-start` header and
        announces the count, the offset and the parameters of the request */
    method ParseHeaders(total: Option<string>, startHeader: Option<string>)
      requires Valid()
      modifies this`start, this`effects
      ensures Valid()
      ensures start == NextStart(old(start), startHeader)
      ensures effects == old(effects) + [ResultsReceived(ResultCount(total), start, requestParams)]
    {
      var h := HeaderValue(startHeader);
      if !StrictEquals(start, h) {
        start := ParseInt(h, 0);
      }
      var event := ResultsReceived(ResultCount(total), start, requestParams);
      RequestsAppendOne(effects, event);
      effects := effects + [event];
    }

    /** `_handleContent`: after the headers, the content goes into the page
        and the update is announced as finished */
    method HandleContent(total: Option<string>, startHeader: Option<string>)
      requires Valid()
      modifies this`start, this`effects
      ensures Valid()
      ensures start == NextStart(old(start), startHeader)
      ensures effects == old(effects) + [ResultsReceived(ResultCount(total), start, requestParams), EndUpdate]
    {
      ghost var before := effects;
      ParseHeaders(total, startHeader);
      RequestsAppendOne(effects, EndUpdate);
      AppendTwo(before, ResultsReceived(ResultCount(total), start, requestParams), EndUpdate);
      effects := effects + [EndUpdate];
    }

    /** `_handleError`: the update is announced as finished exactly once */
    method HandleError()
      requires Valid()
      modifies this`effects
      ensures Valid()
      ensures effects == old(effects) + [EndUpdate]
    {
      RequestsAppendOne(effects, EndUpdate);
      effects := effects + [EndUpdate];
    }
  }
}
