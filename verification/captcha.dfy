/** The captcha pipeline of `internal/captcha/captcha.py`: vendor choice by
    priority, task-type choice per vendor, the `createTask` payload, the
    vendor error checks and the bounded `getTaskResult` poll loop, all
    under the five-attempt retry wrapper.

    Every HTTP reply is an input (`Delivery<...>`); sleeping is the
    counter `waited`, ten seconds per poll. */
module Captcha {
  import opened Errors
  import Text
  import Retry

  // ---------------------------------------------------------------------
  // Task types and vendors
  // ---------------------------------------------------------------------

  /** The `TaskType` enum. */
  datatype TaskType = RecaptchaV2 | RecaptchaV3 | RecaptchaV3Proxyless {
    /** The enum member's value, sent as the task's `type`. */
    function Value(): string {
      match this
      case RecaptchaV2 => "RecaptchaV2Task"
      case RecaptchaV3 => "RecaptchaV3Task"
      case RecaptchaV3Proxyless => "RecaptchaV3TaskProxyless"
    }
  }

  /** The payload test `'Proxyless' not in task_type.value`. */
  predicate SendsProxy(t: TaskType) {
    !Text.Contains(t.Value(), "Proxyless")
  }

  /** Of the three task types exactly the proxyless one withholds proxy fields. */
  lemma SendsProxyExactly(t: TaskType)
    ensures SendsProxy(t) <==> t != RecaptchaV3Proxyless
  {
    match t
    case RecaptchaV2 =>
      assert 'P' !in t.Value();
      Text.NotContainsWithoutHead(t.Value(), "Proxyless");
    case RecaptchaV3 =>
      assert 'P' !in t.Value();
      Text.NotContainsWithoutHead(t.Value(), "Proxyless");
    case RecaptchaV3Proxyless =>
      assert Text.OccursAt(t.Value(), "Proxyless", 15);
  }

  /** The three captcha vendors. */
  datatype Vendor = CapSolver | TwoCaptcha | CapMonster

  /** Position in the fixed priority order (0 is tried first). */
  function Rank(v: Vendor): nat {
    match v
    case CapSolver => 0
    case TwoCaptcha => 1
    case CapMonster => 2
  }

  /** The configured API keys; the empty string means "not configured". */
  datatype ApiKeys = ApiKeys(capSolver: string, twoCaptcha: string, capMonster: string)

  function KeyOf(keys: ApiKeys, v: Vendor): string {
    match v
    case CapSolver => keys.capSolver
    case TwoCaptcha => keys.twoCaptcha
    case CapMonster => keys.capMonster
  }

  predicate NoKeyConfigured(keys: ApiKeys) {
    keys.capSolver == "" && keys.twoCaptcha == "" && keys.capMonster == ""
  }

  /** The `if / elif / elif / else` on the API keys: the highest-priority
      vendor whose key is non-empty, or the "no keys" error. */
  function SelectVendor(keys: ApiKeys): (r: Result<Vendor>)
    ensures r.Err? <==> NoKeyConfigured(keys)
    ensures r.Err? ==> r.error == NoApiKeys
    ensures r.Ok? ==> KeyOf(keys, r.value) != ""
    ensures r.Ok? ==> forall v :: Rank(v) < Rank(r.value) ==> KeyOf(keys, v) == ""
  {
    if keys.capSolver != "" then Ok(CapSolver)
    else if keys.twoCaptcha != "" then Ok(TwoCaptcha)
    else if keys.capMonster != "" then Ok(CapMonster)
    else Err(NoApiKeys)
  }

  /** Which solver entry point was called, with the argument that is
      specific to it: the user agent for v2 (a global of the bot, passed in
      here), the page action for v3. */
  datatype Challenge = V2(userAgent: string) | V3(pageAction: string)

  /** The task type each entry point passes for each vendor. */
  function TaskTypeFor(c: Challenge, v: Vendor): (t: TaskType)
    ensures c.V2? ==> t == RecaptchaV2
    ensures c.V3? ==> t != RecaptchaV2
    ensures c.V3? ==> (SendsProxy(t) <==> v == CapSolver)
  {
    SendsProxyExactly(RecaptchaV3);
    SendsProxyExactly(RecaptchaV3Proxyless);
    match c
    case V2(_) => RecaptchaV2
    case V3(_) => if v == CapSolver then RecaptchaV3 else RecaptchaV3Proxyless
  }

  // ---------------------------------------------------------------------
  // The createTask payload
  // ---------------------------------------------------------------------

  /** JSON values that occur in a task payload. `JDecimal(u, s)` is u / 10^s. */
  datatype Json = JStr(s: string) | JInt(i: int) | JDecimal(units: int, scale: nat) | JNull

  /** `minScore=0.9` */
  const MinScore: Json := JDecimal(9, 1)

  /** The keyword arguments each entry point adds itself. */
  function FixedProperties(c: Challenge): (m: map<string, Json>)
    ensures c.V2? ==> m.Keys == {"userAgent"}
    ensures c.V3? ==> m.Keys == {"pageAction", "minScore"}
  {
    match c
    case V2(ua) => map["userAgent" := JStr(ua)]
    case V3(action) => map["pageAction" := JStr(action), "minScore" := MinScore]
  }

  /** A proxy as the bot hands it over: the configured string and the parts
      `urlparse(get_proxy_url(raw))` yields for it (parsing is not modelled). */
  datatype Proxy = Proxy(
    raw: string,
    scheme: string,
    hostname: Option<string>,
    port: Option<int>,
    username: Option<string>,
    password: Option<string>)

  /** Python truthiness of the `proxy` argument (None or "" is falsy). */
  predicate ProxyGiven(proxy: Option<Proxy>) {
    proxy.Some? && proxy.value.raw != ""
  }

  function OrNull(o: Option<string>): Json {
    match o
    case Some(s) => JStr(s)
    case None => JNull
  }

  const ProxyKeys: set<string> := {"proxyType", "proxyAddress", "proxyPort", "proxyLogin", "proxyPassword"}

  /** The five proxy fields added to a task that routes through a proxy. */
  function ProxyFields(p: Proxy): (m: map<string, Json>)
    ensures m.Keys == ProxyKeys
    ensures m["proxyType"] == JStr(p.scheme)
    ensures m["proxyAddress"] == OrNull(p.hostname)
    ensures m["proxyPort"] == (if p.port.Some? then JInt(p.port.value) else JNull)
    ensures m["proxyLogin"] == OrNull(p.username)
    ensures m["proxyPassword"] == OrNull(p.password)
  {
    map[
      "proxyType" := JStr(p.scheme),
      "proxyAddress" := OrNull(p.hostname),
      "proxyPort" := (match p.port case Some(n) => JInt(n) case None => JNull),
      "proxyLogin" := OrNull(p.username),
      "proxyPassword" := OrNull(p.password)]
  }

  const BaseKeys: set<string> := {"type", "websiteURL", "websiteKey"}

  /** The `task` object of the createTask request: type, URL and site key,
      overlaid by the extra properties, plus the proxy fields when a proxy
      is given and the task type is not proxyless. */
  function TaskPayload(t: TaskType, url: string, siteKey: string, extra: map<string, Json>, proxy: Option<Proxy>)
    : (task: map<string, Json>)
    ensures task.Keys ==
      BaseKeys + extra.Keys + (if ProxyGiven(proxy) && t != RecaptchaV3Proxyless then ProxyKeys else {})
    ensures "type" !in extra ==> task["type"] == JStr(t.Value())
    ensures "websiteURL" !in extra ==> task["websiteURL"] == JStr(url)
    ensures "websiteKey" !in extra ==> task["websiteKey"] == JStr(siteKey)
    ensures forall k :: k in extra && k !in ProxyKeys ==> task[k] == extra[k]
    ensures ProxyGiven(proxy) && t != RecaptchaV3Proxyless ==>
      forall k :: k in ProxyKeys ==> task[k] == ProxyFields(proxy.value)[k]
    ensures !(ProxyGiven(proxy) && t != RecaptchaV3Proxyless) ==>
      forall k :: k in extra ==> task[k] == extra[k]
  {
    SendsProxyExactly(t);
    var base := map["type" := JStr(t.Value()), "websiteURL" := JStr(url), "websiteKey" := JStr(siteKey)] + extra;
    if ProxyGiven(proxy) && SendsProxy(t) then base + ProxyFields(proxy.value) else base
  }

  /** The createTask request: which vendor it goes to, the client key, the task. */
  datatype CreateTaskRequest = CreateTaskRequest(vendor: Vendor, clientKey: string, task: map<string, Json>)

  // ---------------------------------------------------------------------
  // Vendor replies
  // ---------------------------------------------------------------------

  datatype CreateReply = CreateReply(
    errorId: int,
    taskId: Json,
    errorCode: Option<string>,
    errorDescription: Option<string>)

  /** `create_task`'s check: a non-zero `errorId` raises with the vendor's
      code and description, otherwise the task id is the result. */
  function CheckCreate(reply: CreateReply): (r: Result<Json>)
    ensures r.Ok? <==> reply.errorId == 0
    ensures r.Ok? ==> r.value == reply.taskId
    ensures r.Err? ==> r.error == CreateTaskError(reply.errorCode, reply.errorDescription)
  {
    if reply.errorId != 0 then Err(CreateTaskError(reply.errorCode, reply.errorDescription))
    else Ok(reply.taskId)
  }

  datatype Solution = Solution(gRecaptchaResponse: Option<string>)

  datatype PollReply = PollReply(
    errorId: int,
    status: Option<string>,
    solution: Option<Solution>,
    errorCode: Option<string>,
    errorDescription: Option<string>)

  /** What one poll means for the loop: keep polling, or stop with a result. */
  datatype PollStep = Continue | Stop(result: Result<string>)

  /** One iteration of the poll loop: an exception or a non-zero `errorId`
      ends the loop with that error; no solution means keep polling; a
      solution ends the loop -- with its token, or with the timeout error
      when the token is null. The status text plays no part. */
  function Step(d: Delivery<PollReply>): (s: PollStep)
    ensures s.Continue? <==> d.Delivered? && d.reply.errorId == 0 && d.reply.solution.None?
    ensures d.Raised? ==> s == Stop(Err(Transport(d.detail)))
    ensures d.Delivered? && d.reply.errorId != 0 ==>
      s == Stop(Err(TaskResultError(d.reply.errorCode, d.reply.errorDescription)))
    ensures s.Stop? && s.result.Ok? ==>
      d.Delivered? && d.reply.solution == Some(Solution(Some(s.result.value)))
  {
    match d
    case Raised(detail) => Stop(Err(Transport(detail)))
    case Delivered(reply) =>
      if reply.errorId != 0 then Stop(Err(TaskResultError(reply.errorCode, reply.errorDescription)))
      else match reply.solution
        case None => Continue
        case Some(sol) =>
          match sol.gRecaptchaResponse
          case None => Stop(Err(CaptchaTimeout))
          case Some(token) => Stop(Ok(token))
  }

  // ---------------------------------------------------------------------
  // The getTaskResult poll loop
  // ---------------------------------------------------------------------

  /** Seconds slept before each poll. */
  const PollInterval: nat := 10
  /** The loop runs while `waited <= PollBudget`. */
  const PollBudget: nat := 180
  /** Polls made at most: one for each `waited` in 0, 10, ..., 180. */
  const MaxPolls: nat := 19

  /** The loop's outcome and the number of `getTaskResult` calls it made;
      the time slept is `PollInterval * polls`. */
  datatype PollRun = PollRun(result: Result<string>, polls: nat)

  /** The loop after `i` polls, i.e. with `waited == PollInterval * i`. */
  function PollFrom(replies: seq<Delivery<PollReply>>, i: nat): (r: PollRun)
    requires i <= MaxPolls <= |replies|
    ensures i <= r.polls <= MaxPolls
    ensures i < MaxPolls ==> i < r.polls
    ensures forall j :: i <= j < r.polls - 1 ==> Step(replies[j]).Continue?
    ensures r.polls > i && Step(replies[r.polls - 1]).Stop? ==> r.result == Step(replies[r.polls - 1]).result
    ensures r.polls == i || Step(replies[r.polls - 1]).Continue? ==>
      r.polls == MaxPolls && r.result == Err(CaptchaTimeout)
    decreases MaxPolls - i
  {
    if PollInterval * i > PollBudget then PollRun(Err(CaptchaTimeout), i)
    else
      match Step(replies[i])
      case Continue => PollFrom(replies, i + 1)
      case Stop(res) => PollRun(res, i + 1)
  }

  /** The poll loop: it stops at the first poll that does not say "keep
      polling" and returns what that poll decided; after 19 polls without a
      solution it fails with the timeout error. */
  function PollLoop(replies: seq<Delivery<PollReply>>): (r: PollRun)
    requires MaxPolls <= |replies|
    ensures 1 <= r.polls <= MaxPolls
    ensures PollInterval * r.polls <= PollBudget + PollInterval
    ensures forall j :: 0 <= j < r.polls - 1 ==> Step(replies[j]).Continue?
    ensures r.polls < MaxPolls ==> Step(replies[r.polls - 1]).Stop?
    ensures Step(replies[r.polls - 1]).Stop? ==> r.result == Step(replies[r.polls - 1]).result
    ensures Step(replies[r.polls - 1]).Continue? ==> r.result == Err(CaptchaTimeout)
  {
    PollFrom(replies, 0)
  }

  /** Index of the first poll that stops the loop among the first `n`, or `n`. */
  function FirstStop(replies: seq<Delivery<PollReply>>, n: nat): (k: nat)
    requires n <= |replies|
    ensures k <= n
    ensures forall j :: 0 <= j < k ==> Step(replies[j]).Continue?
    ensures k < n ==> Step(replies[k]).Stop?
    decreases n
  {
    if n == 0 then 0
    else
      var k := FirstStop(replies, n - 1);
      if k < n - 1 then k
      else if Step(replies[n - 1]).Stop? then n - 1
      else n
  }

  /** The loop succeeds exactly when, among the first 19 polls, the first one
      carrying a solution (or an error) carries a solution with a token --
      and then it returns that token after exactly that many polls. */
  lemma PollSuccessIff(replies: seq<Delivery<PollReply>>, token: string)
    requires MaxPolls <= |replies|
    ensures PollLoop(replies).result == Ok(token) <==>
      var k := FirstStop(replies, MaxPolls);
      k < MaxPolls && replies[k].Delivered? && replies[k].reply.errorId == 0 &&
      replies[k].reply.solution == Some(Solution(Some(token)))
    ensures PollLoop(replies).result.Ok? ==> PollLoop(replies).polls == FirstStop(replies, MaxPolls) + 1
  {
    var r := PollLoop(replies);
    var k := FirstStop(replies, MaxPolls);
    FirstStopUnique(replies, MaxPolls, r.polls - 1);
  }

  /** The loop fails with the timeout error in exactly two cases: no poll
      among the first 19 carried a solution or an error, or the first
      solution had a null token. */
  lemma PollTimeoutIff(replies: seq<Delivery<PollReply>>)
    requires MaxPolls <= |replies|
    ensures PollLoop(replies).result == Err(CaptchaTimeout) <==>
      var k := FirstStop(replies, MaxPolls);
      k == MaxPolls ||
      (replies[k].Delivered? && replies[k].reply.errorId == 0 &&
       replies[k].reply.solution == Some(Solution(None)))
  {
    var r := PollLoop(replies);
    FirstStopUnique(replies, MaxPolls, r.polls - 1);
  }

  /** A stopping poll preceded only by "keep polling" ones is the first stop. */
  lemma FirstStopUnique(replies: seq<Delivery<PollReply>>, n: nat, k: nat)
    requires n <= |replies| && k < n
    requires forall j :: 0 <= j < k ==> Step(replies[j]).Continue?
    ensures Step(replies[k]).Stop? ==> FirstStop(replies, n) == k
    ensures Step(replies[k]).Continue? && k == n - 1 ==> FirstStop(replies, n) == n
  {
  }

  /** The poll loop as written: `waited` counts the seconds slept, `response`
      the token of the first solution. */
  method PollTaskResult(replies: seq<Delivery<PollReply>>) returns (result: Result<string>, polls: nat)
    requires MaxPolls <= |replies|
    ensures PollRun(result, polls) == PollLoop(replies)
  {
    var waited := 0;
    var response: Option<string> := None;
    polls := 0;
    while waited <= PollBudget
      invariant waited == PollInterval * polls && polls <= MaxPolls
      invariant PollFrom(replies, polls) == PollLoop(replies)
      decreases PollBudget - waited
    {
      waited := waited + PollInterval;
      var reply := replies[polls];
      polls := polls + 1;
      if reply.Raised? {
        result := Err(Transport(reply.detail));
        return;
      }
      if reply.reply.errorId != 0 {
        result := Err(TaskResultError(reply.reply.errorCode, reply.reply.errorDescription));
        return;
      }
      if reply.reply.solution.None? {
        continue;
      }
      response := reply.reply.solution.value.gRecaptchaResponse;
      break;
    }
    if response.None? {
      result := Err(CaptchaTimeout);
    } else {
      result := Ok(response.value);
    }
  }

  /** The vendor sends three "processing" replies and then a ready one with
      token "TOKEN": the loop returns "TOKEN" after four polls. */
  lemma ThreePendingThenReady()
    ensures
      var pending := Delivered(PollReply(0, Some("processing"), None, None, None));
      var ready := Delivered(PollReply(0, Some("ready"), Some(Solution(Some("TOKEN"))), None, None));
      var replies := [pending, pending, pending, ready] + seq(15, _ => pending);
      PollLoop(replies) == PollRun(Ok("TOKEN"), 4)
  {
    var pending := Delivered(PollReply(0, Some("processing"), None, None, None));
    var ready := Delivered(PollReply(0, Some("ready"), Some(Solution(Some("TOKEN"))), None, None));
    var replies := [pending, pending, pending, ready] + seq(15, _ => pending);
    assert replies[0] == pending && replies[1] == pending && replies[2] == pending && replies[3] == ready;
  }

  // ---------------------------------------------------------------------
  // One solve attempt and the retried entry points
  // ---------------------------------------------------------------------

  /** The vendor's replies during one attempt: to createTask, and to each
      getTaskResult poll the loop may make. */
  datatype Script = Script(create: Delivery<CreateReply>, polls: seq<Delivery<PollReply>>)

  /** One attempt: its outcome, the createTask request it sent (None when
      it raised before any request), and the number of polls it made. */
  datatype Attempt = Attempt(result: Result<string>, request: Option<CreateTaskRequest>, polls: nat)

  /** Parameter names of the entry point, which therefore never reach `**kwargs`. */
  function EntryParameters(c: Challenge): set<string> {
    {"idx", "url", "site_key", "proxy"} + (if c.V3? then {"page_action"} else {})
  }

  /** Keywords that `_solve_captcha` receives twice when they are also in
      `**kwargs`: its own parameter names and the properties the entry point
      adds itself. */
  function ClashingKeywords(c: Challenge): set<string> {
    {"api_url", "client_key", "task_type"} + FixedProperties(c).Keys
  }

  /** The createTask request one attempt sends to vendor `v`. */
  function RequestFor(keys: ApiKeys, v: Vendor, c: Challenge, url: string, siteKey: string,
                      proxy: Option<Proxy>, kwargs: map<string, Json>): CreateTaskRequest
  {
    CreateTaskRequest(v, KeyOf(keys, v), TaskPayload(TaskTypeFor(c, v), url, siteKey, FixedProperties(c) + kwargs, proxy))
  }

  /** One run of an entry point's body (vendor dispatch, then `_solve_captcha`). */
  function SolveOnce(keys: ApiKeys, c: Challenge, url: string, siteKey: string, proxy: Option<Proxy>,
                     kwargs: map<string, Json>, script: Script): (a: Attempt)
    requires EntryParameters(c) !! kwargs.Keys
    requires MaxPolls <= |script.polls|
    ensures NoKeyConfigured(keys) ==> a == Attempt(Err(NoApiKeys), None, 0)
    ensures a.request.Some? <==> !NoKeyConfigured(keys) && ClashingKeywords(c) !! kwargs.Keys
    ensures a.request.Some? ==>
      a.request.value == RequestFor(keys, SelectVendor(keys).value, c, url, siteKey, proxy, kwargs)
    ensures a.polls > 0 ==> script.create.Delivered? && script.create.reply.errorId == 0
    ensures a.result.Ok? ==>
      a.request.Some? && a.polls > 0 && PollLoop(script.polls) == PollRun(a.result, a.polls)
    ensures a.request.Some? && script.create.Raised? ==>
      a == Attempt(Err(Transport(script.create.detail)), a.request, 0)
    ensures a.request.Some? && script.create.Delivered? && script.create.reply.errorId != 0 ==>
      a.result == Err(CreateTaskError(script.create.reply.errorCode, script.create.reply.errorDescription)) &&
      a.polls == 0
    ensures a.request.Some? && script.create.Delivered? && script.create.reply.errorId == 0 ==>
      PollRun(a.result, a.polls) == PollLoop(script.polls)
    ensures !NoKeyConfigured(keys) && !(ClashingKeywords(c) !! kwargs.Keys) ==>
      a == Attempt(Err(ArgumentClash), None, 0)
  {
    match SelectVendor(keys)
    case Err(e) => Attempt(Err(e), None, 0)
    case Ok(v) =>
      if !(ClashingKeywords(c) !! kwargs.Keys) then Attempt(Err(ArgumentClash), None, 0)
      else
        var request := RequestFor(keys, v, c, url, siteKey, proxy, kwargs);
        match script.create
        case Raised(detail) => Attempt(Err(Transport(detail)), Some(request), 0)
        case Delivered(reply) =>
          match CheckCreate(reply)
          case Err(e) => Attempt(Err(e), Some(request), 0)
          case Ok(_) =>
            var run := PollLoop(script.polls);
            Attempt(run.result, Some(request), run.polls)
  }

  /** Scripts long enough for every attempt of the retry wrapper. */
  predicate ScriptsCover(scripts: seq<Script>) {
    Retry.MaxAttempts <= |scripts| && forall i :: 0 <= i < |scripts| ==> MaxPolls <= |scripts[i].polls|
  }

  /** What each of the five possible attempts would produce. */
  function Attempts(keys: ApiKeys, c: Challenge, url: string, siteKey: string, proxy: Option<Proxy>,
                    kwargs: map<string, Json>, scripts: seq<Script>): (results: seq<Result<string>>)
    requires EntryParameters(c) !! kwargs.Keys
    requires ScriptsCover(scripts)
    ensures |results| == Retry.MaxAttempts
    ensures forall i :: 0 <= i < Retry.MaxAttempts ==>
      results[i] == SolveOnce(keys, c, url, siteKey, proxy, kwargs, scripts[i]).result
  {
    seq(Retry.MaxAttempts, i requires 0 <= i < Retry.MaxAttempts =>
      SolveOnce(keys, c, url, siteKey, proxy, kwargs, scripts[i]).result)
  }

  /** The retry-wrapped entry point: attempt `i` plays `scripts[i]`. It
      returns the first attempt that succeeds; after five failed attempts it
      raises the fifth attempt's error. */
  function SolveRecaptcha(keys: ApiKeys, c: Challenge, url: string, siteKey: string, proxy: Option<Proxy>,
                          kwargs: map<string, Json>, scripts: seq<Script>): (r: Retry.Run<string>)
    requires EntryParameters(c) !! kwargs.Keys
    requires ScriptsCover(scripts)
    ensures 1 <= r.calls <= Retry.MaxAttempts
    ensures r.result == SolveOnce(keys, c, url, siteKey, proxy, kwargs, scripts[r.calls - 1]).result
    ensures forall i :: 0 <= i < r.calls - 1 ==>
      SolveOnce(keys, c, url, siteKey, proxy, kwargs, scripts[i]).result.Err?
    ensures r.result.Err? ==> r.calls == Retry.MaxAttempts
  {
    Retry.Retry(Attempts(keys, c, url, siteKey, proxy, kwargs, scripts))
  }

  /** `solve_recaptcha_v2` */
  function SolveRecaptchaV2(keys: ApiKeys, userAgent: string, url: string, siteKey: string,
                            proxy: Option<Proxy>, kwargs: map<string, Json>, scripts: seq<Script>)
    : (r: Retry.Run<string>)
    requires EntryParameters(V2(userAgent)) !! kwargs.Keys
    requires ScriptsCover(scripts)
    ensures 1 <= r.calls <= Retry.MaxAttempts
    ensures NoKeyConfigured(keys) ==> r == Retry.Run(Err(NoApiKeys), Retry.MaxAttempts)
    ensures r.result.Ok? ==>
      SolveOnce(keys, V2(userAgent), url, siteKey, proxy, kwargs, scripts[r.calls - 1]).request
        == Some(RequestFor(keys, SelectVendor(keys).value, V2(userAgent), url, siteKey, proxy, kwargs))
  {
    SolveRecaptcha(keys, V2(userAgent), url, siteKey, proxy, kwargs, scripts)
  }

  /** `solve_recaptcha_v3` */
  function SolveRecaptchaV3(keys: ApiKeys, url: string, siteKey: string, pageAction: string,
                            proxy: Option<Proxy>, kwargs: map<string, Json>, scripts: seq<Script>)
    : (r: Retry.Run<string>)
    requires EntryParameters(V3(pageAction)) !! kwargs.Keys
    requires ScriptsCover(scripts)
    ensures 1 <= r.calls <= Retry.MaxAttempts
    ensures NoKeyConfigured(keys) ==> r == Retry.Run(Err(NoApiKeys), Retry.MaxAttempts)
    ensures r.result.Ok? ==>
      SolveOnce(keys, V3(pageAction), url, siteKey, proxy, kwargs, scripts[r.calls - 1]).request
        == Some(RequestFor(keys, SelectVendor(keys).value, V3(pageAction), url, siteKey, proxy, kwargs))
  {
    SolveRecaptcha(keys, V3(pageAction), url, siteKey, proxy, kwargs, scripts)
  }

  /** With extra properties apart from the proxy fields, a task carries all
      five proxy fields exactly when a proxy is given and its type is not
      proxyless, and none of them otherwise. */
  lemma PayloadProxy(t: TaskType, url: string, siteKey: string, extra: map<string, Json>, proxy: Option<Proxy>)
    requires extra.Keys !! ProxyKeys
    ensures var task := TaskPayload(t, url, siteKey, extra, proxy);
      && (ProxyKeys <= task.Keys <==> ProxyGiven(proxy) && t != RecaptchaV3Proxyless)
      && (!(ProxyGiven(proxy) && t != RecaptchaV3Proxyless) ==> task.Keys !! ProxyKeys)
  {
    assert "proxyType" in ProxyKeys && "proxyType" !in BaseKeys;
  }

  /** A v2 request is a `RecaptchaV2Task` carrying the user agent, with the
      proxy fields exactly when a proxy is given. */
  lemma V2Request(keys: ApiKeys, v: Vendor, ua: string, url: string, siteKey: string,
                  proxy: Option<Proxy>, kwargs: map<string, Json>)
    requires "type" !in kwargs && kwargs.Keys !! ProxyKeys
    requires ClashingKeywords(V2(ua)) !! kwargs.Keys
    ensures var task := RequestFor(keys, v, V2(ua), url, siteKey, proxy, kwargs).task;
      && task["type"] == JStr("RecaptchaV2Task")
      && task["userAgent"] == JStr(ua)
      && (ProxyKeys <= task.Keys <==> ProxyGiven(proxy))
  {
    var extra := FixedProperties(V2(ua)) + kwargs;
    assert "userAgent" in extra && extra["userAgent"] == JStr(ua);
    assert extra.Keys !! ProxyKeys;
    PayloadProxy(RecaptchaV2, url, siteKey, extra, proxy);
  }

  /** A v3 request carries the page action and `minScore` 0.9; it is a
      `RecaptchaV3Task` with the proxy fields at CapSolver, and a proxyless
      task without them at 2Captcha and CapMonster. */
  lemma V3Request(keys: ApiKeys, v: Vendor, action: string, url: string, siteKey: string,
                  proxy: Option<Proxy>, kwargs: map<string, Json>)
    requires "type" !in kwargs && kwargs.Keys !! ProxyKeys
    requires ClashingKeywords(V3(action)) !! kwargs.Keys
    ensures var task := RequestFor(keys, v, V3(action), url, siteKey, proxy, kwargs).task;
      && task["pageAction"] == JStr(action)
      && task["minScore"] == MinScore
      && (task["type"] == JStr("RecaptchaV3Task") <==> v == CapSolver)
      && (ProxyKeys <= task.Keys <==> v == CapSolver && ProxyGiven(proxy))
      && (v != CapSolver ==> task.Keys !! ProxyKeys)
  {
    var extra := FixedProperties(V3(action)) + kwargs;
    var t := TaskTypeFor(V3(action), v);
    assert "pageAction" in extra && extra["pageAction"] == JStr(action);
    assert "minScore" in extra && extra["minScore"] == MinScore;
    assert "type" !in extra && extra.Keys !! ProxyKeys;
    PayloadProxy(t, url, siteKey, extra, proxy);
    if v != CapSolver {
      assert t.Value() != "RecaptchaV3Task";
    }
  }

  /** With no API key configured every attempt raises before sending any
      request, so the error surfaces only after all five attempts. */
  lemma NoKeysRetriedFiveTimes(keys: ApiKeys, c: Challenge, url: string, siteKey: string,
                               proxy: Option<Proxy>, kwargs: map<string, Json>, scripts: seq<Script>)
    requires EntryParameters(c) !! kwargs.Keys
    requires ScriptsCover(scripts)
    requires NoKeyConfigured(keys)
    ensures SolveRecaptcha(keys, c, url, siteKey, proxy, kwargs, scripts) == Retry.Run(Err(NoApiKeys), Retry.MaxAttempts)
    ensures forall i :: 0 <= i < Retry.MaxAttempts ==>
      SolveOnce(keys, c, url, siteKey, proxy, kwargs, scripts[i]).request.None?
  {
  }
}
