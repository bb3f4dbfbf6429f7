/**
  The signed HTTP client of the exchange: query strings, the signature base string, the
  request a method name leads to, one attempt of a public or signed request, the retried
  request, and cursor pagination. Network replies, the clock, HMAC-SHA256, `json.dumps`
  and Python's `str()` of a value are parameters.
 */
module Requester {
  import opened Wrappers
  import opened Json
  import opened Text
  import ODict
  import Retry

  type Params = ODict.ODict<string, Json>

  const RecvWindow: string := "5000"
  const MainnetUrl: string := "https://api.bybit.com"
  const TestnetUrl: string := "https://api-testnet.bybit.com"

  /** The requester's fixed configuration. */
  datatype Config = Config(apiKey: string, apiSecret: string, testnet: bool)

  /** `f'{key}={value}'` for every item, in insertion order. */
  function Pairs(params: Params, str: Json -> string): (ps: seq<string>)
    ensures |ps| == |params|
    ensures forall i | 0 <= i < |params| :: ps[i] == params[i].0 + "=" + str(params[i].1)
  {
    if |params| == 0 then [] else [params[0].0 + "=" + str(params[0].1)] + Pairs(params[1..], str)
  }

  /** `dict_to_query_string`: the pairs joined by '&', nothing percent-encoded. */
  function QueryString(params: Params, str: Json -> string): (q: string)
    ensures |params| == 0 ==> q == ""
  {
    Join(Pairs(params, str), "&")
  }

  /** One `key=value` piece read back at its first '='. */
  function ParsePair(piece: string): (string, string) {
    match IndexOf(piece, '=')
    case Some(k) => (piece[..k], piece[k + 1..])
    case None => (piece, "")
  }

  lemma ParsePairOf(key: string, value: string)
    requires '=' !in key
    ensures ParsePair(key + "=" + value) == (key, value)
  {
    assert key + "=" + value == key + ("=" + value);
    IndexOfAfterFree(key, "=" + value, '=');
    assert (key + ("=" + value))[..|key|] == key;
    assert (key + ("=" + value))[|key| + 1..] == value;
  }

  /** Read a query string back: split at '&', then each piece at its first '='. */
  function ParseQuery(q: string): (kv: seq<(string, string)>)
    ensures |kv| == |Split(q, '&')|
    ensures forall i | 0 <= i < |kv| :: kv[i] == ParsePair(Split(q, '&')[i])
  {
    var pieces := Split(q, '&');
    seq(|pieces|, i requires 0 <= i < |pieces| => ParsePair(pieces[i]))
  }

  /** Keys free of '&' and '=' and values whose text is free of '&' survive the round trip. */
  predicate QuerySafe(params: Params, str: Json -> string) {
    forall i | 0 <= i < |params| ::
      '&' !in params[i].0 && '=' !in params[i].0 && '&' !in str(params[i].1)
  }

  /** A non-empty query string reads back as the items it was built from, in order. */
  lemma QueryStringRoundTrip(params: Params, str: Json -> string)
    requires |params| > 0 && QuerySafe(params, str)
    ensures |ParseQuery(QueryString(params, str))| == |params|
    ensures forall i | 0 <= i < |params| ::
      ParseQuery(QueryString(params, str))[i] == (params[i].0, str(params[i].1))
  {
    var ps := Pairs(params, str);
    forall i | 0 <= i < |ps| ensures '&' !in ps[i] {
      assert ps[i] == params[i].0 + ("=" + str(params[i].1));
    }
    SplitJoin(ps, '&');
    assert Split(QueryString(params, str), '&') == ps;
    forall i | 0 <= i < |params|
      ensures ParseQuery(QueryString(params, str))[i] == (params[i].0, str(params[i].1))
    {
      ParsePairOf(params[i].0, str(params[i].1));
    }
  }

  function BaseUrl(cfg: Config): (url: string)
    ensures url == TestnetUrl <==> cfg.testnet
    ensures url == MainnetUrl <==> !cfg.testnet
  {
    if cfg.testnet then TestnetUrl else MainnetUrl
  }

  predicate IsPost(httpMethod: string) {
    Upper(httpMethod) == "POST"
  }

  /**
    The string that is signed: timestamp, API key, receive window, then the JSON body for
    a POST and the query string for any other method.
   */
  function SignaturePayload(cfg: Config, params: Params, timestamp: string, httpMethod: string,
                            dumps: Params -> string, str: Json -> string): (payload: string)
    ensures StartsWith(payload, timestamp + cfg.apiKey + RecvWindow)
    ensures IsPost(httpMethod) ==> payload[|timestamp + cfg.apiKey + RecvWindow|..] == dumps(params)
    ensures !IsPost(httpMethod) ==> payload[|timestamp + cfg.apiKey + RecvWindow|..] == QueryString(params, str)
  {
    var paramStr := if IsPost(httpMethod) then dumps(params) else QueryString(params, str);
    var prefix := timestamp + cfg.apiKey + RecvWindow;
    assert (prefix + paramStr)[..|prefix|] == prefix;
    prefix + paramStr
  }

  datatype Verb = Post | Get

  /** The two methods the signed client supports, compared case-insensitively. */
  function MethodVerb(httpMethod: string): (r: Result<Verb, Exc>)
    ensures r == Success(Post) <==> Upper(httpMethod) == "POST"
    ensures r == Success(Get) <==> Upper(httpMethod) == "GET"
    ensures r.Failure? ==> r.error == ValueError
  {
    if Upper(httpMethod) == "POST" then Success(Post)
    else if Upper(httpMethod) == "GET" then Success(Get)
    else Failure(ValueError)
  }

  datatype HttpRequest = HttpRequest(verb: Verb, url: string, headers: seq<(string, string)>, body: Option<string>)

  /**
    The request one signed attempt sends. The signature is computed before the method is
    checked, so an unsupported method fails only after signing; it never reaches the network.
   */
  function SignedRequest(cfg: Config, httpMethod: string, endpoint: string, params: Params, timestamp: string,
                         hmac: (string, string) -> string, dumps: Params -> string,
                         str: Json -> string): (r: Result<HttpRequest, Exc>)
    ensures r.Success? <==> MethodVerb(httpMethod).Success?
    ensures r.Failure? ==> r.error == ValueError
    ensures r.Success? ==> r.value.verb == MethodVerb(httpMethod).value
    ensures r.Success? ==>
      ("X-BAPI-SIGN", hmac(cfg.apiSecret, SignaturePayload(cfg, params, timestamp, httpMethod, dumps, str))) in r.value.headers
    ensures r.Success? ==> ("X-BAPI-RECV-WINDOW", RecvWindow) in r.value.headers
    ensures r.Success? ==> ("X-BAPI-TIMESTAMP", timestamp) in r.value.headers
    ensures r.Success? && r.value.verb == Post ==>
      r.value.url == BaseUrl(cfg) + endpoint && r.value.body == Some(dumps(params))
    ensures r.Success? && r.value.verb == Get ==>
      r.value.url == BaseUrl(cfg) + endpoint + "?" + QueryString(params, str) && r.value.body.None?
  {
    var signature := hmac(cfg.apiSecret, SignaturePayload(cfg, params, timestamp, httpMethod, dumps, str));
    var headers := [
      ("X-BAPI-API-KEY", cfg.apiKey),
      ("X-BAPI-SIGN", signature),
      ("X-BAPI-SIGN-TYPE", "2"),
      ("X-BAPI-TIMESTAMP", timestamp),
      ("X-BAPI-RECV-WINDOW", RecvWindow),
      ("Content-Type", "application/json"),
      ("Accept", "application/json")];
    var url := BaseUrl(cfg) + endpoint;
    match MethodVerb(httpMethod)
    case Success(Post) => Success(HttpRequest(Post, url, headers, Some(dumps(params))))
    case Success(Get) => Success(HttpRequest(Get, url + "?" + QueryString(params, str), headers, None))
    case Failure(e) => Failure(e)
  }

  /**
    One signed attempt: build the request, take the transport's outcome (a decoded reply,
    or a connection or HTTP-status error), and validate the reply.
   */
  function SignedAttempt(cfg: Config, httpMethod: string, endpoint: string, params: Params, timestamp: string,
                         reply: Result<Json, Exc>, hmac: (string, string) -> string,
                         dumps: Params -> string, str: Json -> string): (r: Result<Json, Exc>)
    ensures MethodVerb(httpMethod).Failure? ==> r == Failure(ValueError)
    ensures MethodVerb(httpMethod).Success? && reply.Failure? ==> r == reply
    ensures r.Success? ==> reply == r && Retry.ValidateResponse(r.value).Success?
    ensures MethodVerb(httpMethod).Success? && reply.Success? ==>
      (r.Failure? <==> Retry.ValidateResponse(reply.value).Failure?)
  {
    var _ :- SignedRequest(cfg, httpMethod, endpoint, params, timestamp, hmac, dumps, str);
    var data :- reply;
    var _ :- Retry.ValidateResponse(data);
    Success(data)
  }

  /** One public (unsigned GET) attempt: the transport's outcome, validated. */
  function PublicAttempt(reply: Result<Json, Exc>): (r: Result<Json, Exc>)
    ensures r.Success? <==> reply.Success? && Retry.ValidateResponse(reply.value).Success?
    ensures r.Success? ==> r == reply
  {
    var data :- reply;
    var _ :- Retry.ValidateResponse(data);
    Success(data)
  }

  /** An attempt never raises an API error with a repeat code: its API errors come from validation. */
  lemma SignedAttemptNeverRepeats(cfg: Config, httpMethod: string, endpoint: string, params: Params, timestamp: string,
                                  reply: Result<Json, Exc>, hmac: (string, string) -> string,
                                  dumps: Params -> string, str: Json -> string)
    requires reply.Failure? ==> !reply.error.ApiError?
    ensures var r := SignedAttempt(cfg, httpMethod, endpoint, params, timestamp, reply, hmac, dumps, str);
      r.Failure? ==> !Retry.IsRepeat(r.error)
  {
    if reply.Success? {
      Retry.ValidateNeverRepeats(reply.value);
    }
  }

  /** The attempts of one signed request: the k-th uses the k-th clock reading and transport outcome. */
  function SignedAttempts(cfg: Config, httpMethod: string, endpoint: string, params: Params,
                          clock: nat -> string, replies: nat -> Result<Json, Exc>,
                          hmac: (string, string) -> string, dumps: Params -> string,
                          str: Json -> string): nat -> Result<Json, Exc>
  {
    (k: nat) => SignedAttempt(cfg, httpMethod, endpoint, params, clock(k), replies(k), hmac, dumps, str)
  }

  lemma SignedAttemptsValid(cfg: Config, httpMethod: string, endpoint: string, params: Params,
                            clock: nat -> string, replies: nat -> Result<Json, Exc>,
                            hmac: (string, string) -> string, dumps: Params -> string,
                            str: Json -> string, j: nat)
    ensures var r := SignedAttempts(cfg, httpMethod, endpoint, params, clock, replies, hmac, dumps, str)(j);
      r.Success? ==> Retry.ValidateResponse(r.value).Success?
  {
    var r := SignedAttempt(cfg, httpMethod, endpoint, params, clock(j), replies(j), hmac, dumps, str);
    assert SignedAttempts(cfg, httpMethod, endpoint, params, clock, replies, hmac, dumps, str)(j) == r;
  }

  /**
    `send_signed_request` under the decorator, with `count` retries left (the decorator's
    `count` keyword, `ApiRetryCount` unless the caller passes one).
   */
  function SendSignedRequest(cfg: Config, httpMethod: string, endpoint: string, params: Params,
                             clock: nat -> string, replies: nat -> Result<Json, Exc>,
                             hmac: (string, string) -> string, dumps: Params -> string,
                             str: Json -> string, count: int): (t: Retry.Trace<Json>)
    ensures t.result.Success? ==> Retry.ValidateResponse(t.result.value).Success?
  {
    var attempt := SignedAttempts(cfg, httpMethod, endpoint, params, clock, replies, hmac, dumps, str);
    var t := Retry.Retrier(attempt, count, Retry.ApiRetryCount, 0);
    assert t.result.Success? ==> Retry.ValidateResponse(t.result.value).Success? by {
      if t.result.Success? {
        RetrierSuccessFromAttempt(attempt, count, Retry.ApiRetryCount, 0);
        var j: nat :| attempt(j) == t.result;
        SignedAttemptsValid(cfg, httpMethod, endpoint, params, clock, replies, hmac, dumps, str, j);
      }
    }
    t
  }

  /** An unsupported method raises ValueError after one call, with no retry. */
  lemma SendSignedRequestBadMethod(cfg: Config, httpMethod: string, endpoint: string, params: Params,
                                   clock: nat -> string, replies: nat -> Result<Json, Exc>,
                                   hmac: (string, string) -> string, dumps: Params -> string,
                                   str: Json -> string, count: int)
    requires MethodVerb(httpMethod).Failure?
    ensures SendSignedRequest(cfg, httpMethod, endpoint, params, clock, replies, hmac, dumps, str, count)
         == Retry.Trace(Failure(ValueError), 1, [])
  {
    var attempt := SignedAttempts(cfg, httpMethod, endpoint, params, clock, replies, hmac, dumps, str);
    assert attempt(0) == SignedAttempt(cfg, httpMethod, endpoint, params, clock(0), replies(0), hmac, dumps, str);
    assert attempt(0) == Failure(ValueError);
    Retry.RetrierNoRetryOtherErrors(attempt, count, Retry.ApiRetryCount, 0);
  }

  /** A success the decorator returns is one of the attempts' successes. */
  lemma {:induction false} RetrierSuccessFromAttempt<T>(attempt: nat -> Result<T, Exc>, count: int, maxRetries: int, k: nat)
    ensures var t := Retry.Retrier(attempt, count, maxRetries, k);
      t.result.Success? ==> exists j: nat :: attempt(j) == t.result
    decreases if count > 0 then count else 0
  {
    var r := attempt(k);
    if r.Failure? && !Retry.IsRepeat(r.error) && r.error.ApiError? && count > 0 {
      RetrierSuccessFromAttempt(attempt, count - 1, maxRetries, k + 1);
    } else if r.Failure? && r.error.ApiError? && Retry.IsRepeat(r.error) {
      assert attempt(k + 1) == Retry.Retrier(attempt, count, maxRetries, k).result;
    } else {
      assert attempt(k) == Retry.Retrier(attempt, count, maxRetries, k).result;
    }
  }

  /** When the transport never raises an API error itself, a signed request makes at most `count + 1` calls. */
  lemma SendSignedRequestCalls(cfg: Config, httpMethod: string, endpoint: string, params: Params,
                               clock: nat -> string, replies: nat -> Result<Json, Exc>,
                               hmac: (string, string) -> string, dumps: Params -> string,
                               str: Json -> string, count: nat)
    requires forall k: nat :: replies(k).Failure? ==> !replies(k).error.ApiError?
    ensures SendSignedRequest(cfg, httpMethod, endpoint, params, clock, replies, hmac, dumps, str, count).calls <= count + 1
  {
    var attempt := SignedAttempts(cfg, httpMethod, endpoint, params, clock, replies, hmac, dumps, str);
    forall j: nat | j >= 0 ensures attempt(j).Failure? ==> !Retry.IsRepeat(attempt(j).error) {
      SignedAttemptNeverRepeats(cfg, httpMethod, endpoint, params, clock(j), replies(j), hmac, dumps, str);
    }
    Retry.RetrierNoRepeatBound(attempt, count, Retry.ApiRetryCount, 0);
  }

  // ---------------------------------------------------------------- pagination

  /** `response.get('result', {})`. */
  function ResultOf(response: Json): Result<Json, Exc> {
    GetOr(response, "result", EmptyObj())
  }

  /**
    The records one page adds: `result.extend(response.get('result', {}).get('list', []))`.
    A list adds its items and a string its characters. A dict, which Python would iterate
    by its keys, raises TypeError here, as do the non-iterables.
   */
  function PageItems(response: Json): (r: Result<seq<Json>, Exc>)
    ensures !response.Obj? ==> r == Failure(AttributeError)
    ensures response.Obj? && "result" !in response.fields ==> r == Success([])
    ensures response.Obj? && "result" in response.fields ==>
      var res := response.fields["result"];
      && (!res.Obj? ==> r == Failure(AttributeError))
      && (res.Obj? && "list" !in res.fields ==> r == Success([]))
      && (res.Obj? && "list" in res.fields && res.fields["list"].Arr? ==> r == Success(res.fields["list"].items))
      && (res.Obj? && "list" in res.fields && res.fields["list"].Str? ==>
            r.Success? && |r.value| == |res.fields["list"].s| &&
            forall i | 0 <= i < |r.value| :: r.value[i] == Str([res.fields["list"].s[i]]))
      && (res.Obj? && "list" in res.fields && !res.fields["list"].Arr? && !res.fields["list"].Str? ==>
            r == Failure(TypeError))
  {
    var res :- ResultOf(response);
    var list :- GetOr(res, "list", Arr([]));
    match list
    case Arr(xs) => Success(xs)
    case Str(s) => Success(seq(|s|, i requires 0 <= i < |s| => Str([s[i]])))
    case _ => Failure(TypeError)
  }

  /** `response.get('result', {}).get('nextPageCursor')`. */
  function NextCursor(response: Json): Result<Json, Exc> {
    var res :- ResultOf(response);
    GetOr(res, "nextPageCursor", Null)
  }

  /** The records of the pages requested with `sent`, concatenated in request order. */
  function Collected(send: (nat, Params) -> Result<Json, Exc>, sent: seq<Params>): seq<Json> {
    if |sent| == 0 then []
    else
      var last := |sent| - 1;
      var page := send(last, sent[last]);
      Collected(send, sent[..last]) + (if page.Success? then PageItems(page.value).GetOr([]) else [])
  }

  lemma CollectedPrefix(send: (nat, Params) -> Result<Json, Exc>, sent: seq<Params>, p: Params)
    ensures Collected(send, sent + [p]) ==
      Collected(send, sent) + (if send(|sent|, p).Success? then PageItems(send(|sent|, p).value).GetOr([]) else [])
  {
    var all := sent + [p];
    assert |all| - 1 == |sent| && all[|sent|] == p;
    assert all[..|sent|] == sent;
  }

  /** The params of a follow-up request carry a cursor free of '%' and no time window. */
  predicate CursorParams(p: Params) {
    var c := ODict.Get(p, "cursor");
    c.Some? && c.value.Str? && '%' !in c.value.s &&
    !ODict.HasKey(p, "startTime") && !ODict.HasKey(p, "endTime")
  }

  /** Set the rewritten cursor, then drop the time window. */
  function FollowUpParams(params: Params, cursor: string): (p: Params)
    requires ODict.Unique(params)
    ensures ODict.Unique(p)
    ensures CursorParams(p)
    ensures ODict.Get(p, "cursor") == Some(Str(ReplaceChar(cursor, '%', ':')))
    ensures forall key | key != "cursor" && key != "startTime" && key != "endTime" ::
      ODict.Get(p, key) == ODict.Get(params, key)
  {
    ODict.SetDropping(params, "cursor", Str(ReplaceChar(cursor, '%', ':')), "startTime", "endTime")
  }

  datatype Pages = Pages(items: seq<Json>, params: Params, sent: seq<Params>)

  /** How pagination ended: normally, by an exception, or with the step budget spent. */
  datatype PageOutcome =
    | Finished(pages: Pages)
    | Raised(error: Exc, sent: seq<Params>)
    | Unfinished(pages: Pages)
  {
    function Sent(): seq<Params> {
      match this
      case Finished(p) => p.sent
      case Raised(_, s) => s
      case Unfinished(p) => p.sent
    }
  }

  /** The params of the next request: unchanged without a cursor, else the follow-up params. */
  function RequestParams(params: Params, cursor: Json): (r: Result<Params, Exc>)
    requires ODict.Unique(params)
    ensures r.Failure? <==> Truthy(cursor) && !cursor.Str?
    ensures r.Failure? ==> r.error == AttributeError
    ensures r.Success? ==> ODict.Unique(r.value)
    ensures r.Success? && !Truthy(cursor) ==> r.value == params
    ensures r.Success? && Truthy(cursor) ==> CursorParams(r.value)
  {
    if !Truthy(cursor) then Success(params)
    else if cursor.Str? then Success(FollowUpParams(params, cursor.s))
    else Failure(AttributeError)
  }

  /** One page: the records it adds and the cursor it announces. */
  function FetchPage(send: (nat, Params) -> Result<Json, Exc>, i: nat, p: Params): (r: Result<(seq<Json>, Json), Exc>)
    ensures r.Success? ==> send(i, p).Success? && PageItems(send(i, p).value) == Success(r.value.0)
  {
    var response :- send(i, p);
    var items :- PageItems(response);
    var next :- NextCursor(response);
    Success((items, next))
  }

  /**
    Whether the loop stops after a page announcing `next`, when the page was requested
    with `cursor`. As written (`rawGuard` false) `next` is compared with `cursor` after
    its '%' were rewritten to ':'; with `rawGuard` it is compared with `cursor` itself.
   */
  predicate Stops(next: Json, cursor: Json, rawGuard: bool) {
    var last := if Truthy(cursor) && cursor.Str? then Str(ReplaceChar(cursor.s, '%', ':')) else cursor;
    !Truthy(next) || PyEq(next, if rawGuard then cursor else last)
  }

  /**
    The requests `all` a run of the loop has made, when it started after the requests
    `sent` with `cursor` and `fuel`: it only appends, at most `fuel` requests, and at least
    one when it has fuel and the cursor can be used; its first request uses the caller's
    params when there is no cursor, and every other request carries follow-up params.
   */
  predicate SentShape(params: Params, cursor: Json, sent: seq<Params>, fuel: nat, all: seq<Params>) {
    && |sent| <= |all| <= |sent| + fuel
    && all[..|sent|] == sent
    && (fuel > 0 && !(Truthy(cursor) && !cursor.Str?) ==> |all| > |sent|)
    && (!Truthy(cursor) && |all| > |sent| ==> all[|sent|] == params)
    && (Truthy(cursor) && |all| > |sent| ==> CursorParams(all[|sent|]))
    && (forall i | |sent| < i < |all| :: CursorParams(all[i]))
  }

  /** A run that continues after the request `p` has the shape of a run that made `p` first. */
  lemma SentShapeStep(params: Params, cursor: Json, sent: seq<Params>, fuel: nat, p: Params, next: Json, all: seq<Params>)
    requires ODict.Unique(params) && fuel > 0 && RequestParams(params, cursor) == Success(p) && Truthy(next)
    requires SentShape(p, next, sent + [p], fuel - 1, all)
    ensures SentShape(params, cursor, sent, fuel, all)
  {
    var sent' := sent + [p];
    assert all[..|sent|] == all[..|sent'|][..|sent|];
    assert all[|sent|] == sent'[|sent|] == p;
    forall i | |sent| < i < |all| ensures CursorParams(all[i]) {
      if i == |sent'| {
        assert CursorParams(all[|sent'|]);
      }
    }
  }

  /** A run that stops right after the request `p`. */
  lemma SentShapeLast(params: Params, cursor: Json, sent: seq<Params>, fuel: nat, p: Params)
    requires ODict.Unique(params) && fuel > 0 && RequestParams(params, cursor) == Success(p)
    ensures SentShape(params, cursor, sent, fuel, sent + [p])
  {
    assert (sent + [p])[..|sent|] == sent;
  }

  /** The cursor announced with the page that request `i`, made with `p`, returned; None when it failed. */
  function Announced(send: (nat, Params) -> Result<Json, Exc>, i: nat, p: Params): Json {
    match FetchPage(send, i, p)
    case Success(page) => page.1
    case Failure(_) => Null
  }

  /**
    The loop's `next_cursor` when it makes request `i` of `all`, in a run whose first
    request was request `k`, made with `cursor`: the cursor the previous page announced.
   */
  function CursorBefore(send: (nat, Params) -> Result<Json, Exc>, cursor: Json, k: nat, all: seq<Params>, i: nat): Json
    requires k <= i < |all|
  {
    if i == k then cursor else Announced(send, i - 1, all[i - 1])
  }

  /**
    Request `i` of the run was answered with a page whose cursor does not stop the loop,
    and request `i + 1` is request `i`'s parameters rebuilt with that cursor: the cursor
    with its '%' rewritten to ':', the time window dropped, every other key kept.
   */
  predicate Link(send: (nat, Params) -> Result<Json, Exc>, cursor: Json, k: nat, all: seq<Params>, rawGuard: bool, i: nat)
    requires k <= i < |all| - 1
  {
    && FetchPage(send, i, all[i]).Success?
    && !Stops(Announced(send, i, all[i]), CursorBefore(send, cursor, k, all, i), rawGuard)
    && Announced(send, i, all[i]).Str?
    && ODict.Get(all[i + 1], "cursor") == Some(Str(ReplaceChar(Announced(send, i, all[i]).s, '%', ':')))
    && ODict.Unique(all[i]) && RequestParams(all[i], Announced(send, i, all[i])) == Success(all[i + 1])
  }

  /** Every request of the run but its last is linked to the next one. */
  predicate Chained(send: (nat, Params) -> Result<Json, Exc>, cursor: Json, k: nat, all: seq<Params>, rawGuard: bool) {
    forall i: nat | k <= i < |all| - 1 :: Link(send, cursor, k, all, rawGuard, i)
  }

  /**
    How a run that started at request `k` with `params`, `cursor` and `fuel` ended: it
    finishes exactly when its last page announces a cursor that stops the loop; it runs
    out of budget after `fuel` requests of which none stopped it; and it raises either
    the error of its last request or AttributeError for a truthy cursor that is no string.
   */
  predicate Ends(send: (nat, Params) -> Result<Json, Exc>, cursor: Json, k: nat, fuel: nat, rawGuard: bool, o: PageOutcome) {
    var all := o.Sent();
    var last := |all| - 1;
    match o
    case Finished(_) =>
      && k <= last
      && FetchPage(send, last, all[last]).Success?
      && Stops(Announced(send, last, all[last]), CursorBefore(send, cursor, k, all, last), rawGuard)
    case Unfinished(_) =>
      && |all| == k + fuel
      && (k <= last ==>
            && FetchPage(send, last, all[last]).Success?
            && !Stops(Announced(send, last, all[last]), CursorBefore(send, cursor, k, all, last), rawGuard))
    case Raised(e, _) =>
      if |all| == k then Truthy(cursor) && !cursor.Str? && e == AttributeError
      else
        && k <= last
        && (|| FetchPage(send, last, all[last]) == Failure(e)
            || (&& FetchPage(send, last, all[last]).Success?
                && !Stops(Announced(send, last, all[last]), CursorBefore(send, cursor, k, all, last), rawGuard)
                && Truthy(Announced(send, last, all[last])) && !Announced(send, last, all[last]).Str?
                && e == AttributeError))
  }

  /** Past the first request of a run, its cursors are those of the run that starts one request later. */
  lemma CursorBeforeShift(send: (nat, Params) -> Result<Json, Exc>, cursor: Json, k: nat, all: seq<Params>,
                          p: Params, page: (seq<Json>, Json), i: nat)
    requires k < i < |all| && all[k] == p && FetchPage(send, k, p) == Success(page)
    ensures CursorBefore(send, cursor, k, all, i) == CursorBefore(send, page.1, k + 1, all, i)
  {
  }

  /** A chain that starts one request later extends by a first request whose cursor does not stop the loop. */
  lemma ChainedStep(send: (nat, Params) -> Result<Json, Exc>, cursor: Json, k: nat, all: seq<Params>,
                    p: Params, page: (seq<Json>, Json), rawGuard: bool)
    requires k < |all| && all[k] == p && ODict.Unique(p)
    requires FetchPage(send, k, p) == Success(page) && !Stops(page.1, cursor, rawGuard)
    requires k + 1 < |all| ==> RequestParams(p, page.1) == Success(all[k + 1])
    requires Chained(send, page.1, k + 1, all, rawGuard)
    ensures Chained(send, cursor, k, all, rawGuard)
  {
    forall i: nat | k <= i < |all| - 1 ensures Link(send, cursor, k, all, rawGuard, i) {
      LinkAt(send, cursor, k, all, p, page, rawGuard, i);
    }
  }

  /** Each request of the longer run but its last is linked to the next one. */
  lemma LinkAt(send: (nat, Params) -> Result<Json, Exc>, cursor: Json, k: nat, all: seq<Params>,
               p: Params, page: (seq<Json>, Json), rawGuard: bool, i: nat)
    requires k <= i < |all| - 1 && all[k] == p && ODict.Unique(p)
    requires FetchPage(send, k, p) == Success(page) && !Stops(page.1, cursor, rawGuard)
    requires k + 1 < |all| ==> RequestParams(p, page.1) == Success(all[k + 1])
    requires Chained(send, page.1, k + 1, all, rawGuard)
    ensures Link(send, cursor, k, all, rawGuard, i)
  {
    if i > k {
      LinkShift(send, cursor, k, all, p, page, rawGuard, i);
    } else {
      LinkFirst(send, cursor, k, all, p, page, rawGuard);
    }
  }

  /** The first request of a run is linked to the second when its cursor does not stop the loop. */
  lemma LinkFirst(send: (nat, Params) -> Result<Json, Exc>, cursor: Json, k: nat, all: seq<Params>,
                  p: Params, page: (seq<Json>, Json), rawGuard: bool)
    requires k + 1 < |all| && all[k] == p && ODict.Unique(p)
    requires FetchPage(send, k, p) == Success(page) && !Stops(page.1, cursor, rawGuard)
    requires RequestParams(p, page.1) == Success(all[k + 1])
    ensures Link(send, cursor, k, all, rawGuard, k)
  {
    assert Announced(send, k, p) == page.1;
  }

  /** A link of the run that starts one request later is a link of the longer run. */
  lemma LinkShift(send: (nat, Params) -> Result<Json, Exc>, cursor: Json, k: nat, all: seq<Params>,
                  p: Params, page: (seq<Json>, Json), rawGuard: bool, i: nat)
    requires k < i < |all| - 1 && all[k] == p && FetchPage(send, k, p) == Success(page)
    requires Chained(send, page.1, k + 1, all, rawGuard)
    ensures Link(send, cursor, k, all, rawGuard, i)
  {
    assert Link(send, page.1, k + 1, all, rawGuard, i);
    CursorBeforeShift(send, cursor, k, all, p, page, i);
  }

  /** A run that starts one request later ends, as `Ends` says, after a first request that did not stop the loop. */
  lemma EndsStep(send: (nat, Params) -> Result<Json, Exc>, cursor: Json, k: nat, fuel: nat, rawGuard: bool,
                 o: PageOutcome, p: Params, page: (seq<Json>, Json))
    requires fuel > 0 && k < |o.Sent()| && o.Sent()[k] == p
    requires FetchPage(send, k, p) == Success(page) && !Stops(page.1, cursor, rawGuard)
    requires Ends(send, page.1, k + 1, fuel - 1, rawGuard, o)
    ensures Ends(send, cursor, k, fuel, rawGuard, o)
  {
    var all := o.Sent();
    var last := |all| - 1;
    assert Announced(send, k, p) == page.1;
    if last > k {
      CursorBeforeShift(send, cursor, k, all, p, page, last);
    }
  }

  /** The facts of a run that starts one request later give those of the run that made request `p` first. */
  lemma TraceStep(send: (nat, Params) -> Result<Json, Exc>, params: Params, cursor: Json, sent: seq<Params>, fuel: nat,
                  rawGuard: bool, p: Params, page: (seq<Json>, Json), o: PageOutcome, o': PageOutcome)
    requires fuel > 0 && ODict.Unique(params) && RequestParams(params, cursor) == Success(p)
    requires FetchPage(send, |sent|, p) == Success(page) && !Stops(page.1, cursor, rawGuard)
    requires o == o'
    requires SentShape(p, page.1, sent + [p], fuel - 1, o'.Sent())
    requires |o'.Sent()| > |sent + [p]| ==> RequestParams(p, page.1) == Success(o'.Sent()[|sent + [p]|])
    requires Chained(send, page.1, |sent + [p]|, o'.Sent(), rawGuard)
    requires Ends(send, page.1, |sent + [p]|, fuel - 1, rawGuard, o')
    ensures |o.Sent()| > |sent| ==> RequestParams(params, cursor) == Success(o.Sent()[|sent|])
    ensures Chained(send, cursor, |sent|, o.Sent(), rawGuard)
    ensures Ends(send, cursor, |sent|, fuel, rawGuard, o)
  {
    var k := |sent|;
    PrefixLast(o.Sent(), sent, p);
    ChainedStep(send, cursor, k, o.Sent(), p, page, rawGuard);
    EndsStep(send, cursor, k, fuel, rawGuard, o, p, page);
  }

  /** The request at the end of a prefix. */
  lemma PrefixLast(all: seq<Params>, sent: seq<Params>, p: Params)
    requires |sent| < |all| && all[..|sent| + 1] == sent + [p]
    ensures all[|sent|] == p
  {
    assert all[..|sent| + 1][|sent|] == (sent + [p])[|sent|];
  }

  /** A run that ends after its first request, or before making one. */
  lemma TraceFirst(send: (nat, Params) -> Result<Json, Exc>, params: Params, cursor: Json, sent: seq<Params>, fuel: nat,
                   rawGuard: bool, o: PageOutcome)
    requires ODict.Unique(params)
    requires fuel == 0 ==> o.Unfinished? && o.Sent() == sent
    requires fuel > 0 ==> match RequestParams(params, cursor)
      case Failure(e) => o == Raised(e, sent)
      case Success(p) =>
        && o.Sent() == sent + [p]
        && (match FetchPage(send, |sent|, p)
            case Failure(e) => o == Raised(e, sent + [p])
            case Success(page) => Stops(page.1, cursor, rawGuard) && o.Finished?)
    ensures |o.Sent()| > |sent| ==> RequestParams(params, cursor) == Success(o.Sent()[|sent|])
    ensures Chained(send, cursor, |sent|, o.Sent(), rawGuard)
    ensures Ends(send, cursor, |sent|, fuel, rawGuard, o)
  {
    if fuel > 0 && RequestParams(params, cursor).Success? {
      var p := RequestParams(params, cursor).value;
      assert o.Sent()[|sent|] == p;
      assert Announced(send, |sent|, p) == (if FetchPage(send, |sent|, p).Success? then FetchPage(send, |sent|, p).value.1 else Null);
    }
  }

  /**
    The pagination loop from the state after `|sent|` requests, with `cursor` the loop's
    `next_cursor` and `acc` the records gathered so far; `fuel` bounds the further requests.
    Unless it raised, the records it returns are those of the pages it requested. Its
    requests have the shape `SentShape` describes, the first one is made with the params of
    `RequestParams`, each later one carries the cursor the previous page announced
    (`Chained`), and the run ends as `Ends` says.
   */
  function PageLoop(send: (nat, Params) -> Result<Json, Exc>, params: Params, cursor: Json,
                    acc: seq<Json>, sent: seq<Params>, fuel: nat, rawGuard: bool): (o: PageOutcome)
    requires ODict.Unique(params)
    requires acc == Collected(send, sent)
    ensures !o.Raised? ==> o.pages.items == Collected(send, o.pages.sent)
    ensures SentShape(params, cursor, sent, fuel, o.Sent())
    ensures |o.Sent()| > |sent| ==> RequestParams(params, cursor) == Success(o.Sent()[|sent|])
    ensures Chained(send, cursor, |sent|, o.Sent(), rawGuard)
    ensures Ends(send, cursor, |sent|, fuel, rawGuard, o)
    decreases fuel
  {
    if fuel == 0 then
      var o := Unfinished(Pages(acc, params, sent));
      TraceFirst(send, params, cursor, sent, fuel, rawGuard, o);
      o
    else
      match RequestParams(params, cursor)
      case Failure(e) =>
        var o := Raised(e, sent);
        TraceFirst(send, params, cursor, sent, fuel, rawGuard, o);
        o
      case Success(p) =>
        var sent' := sent + [p];
        SentShapeLast(params, cursor, sent, fuel, p);
        match FetchPage(send, |sent|, p)
        case Failure(e) =>
          var o := Raised(e, sent');
          TraceFirst(send, params, cursor, sent, fuel, rawGuard, o);
          o
        case Success(page) =>
          CollectedPrefix(send, sent, p);
          if Stops(page.1, cursor, rawGuard) then
            var o := Finished(Pages(acc + page.0, p, sent'));
            TraceFirst(send, params, cursor, sent, fuel, rawGuard, o);
            o
          else
            var o := PageLoop(send, p, page.1, acc + page.0, sent', fuel - 1, rawGuard);
            SentShapeStep(params, cursor, sent, fuel, p, page.1, o.Sent());
            TraceStep(send, params, cursor, sent, fuel, rawGuard, p, page, o, o);
            o
  }

  /** `send_paginated_request` as written, from the caller's params (`params or {}`). */
  function PaginateAsWritten(send: (nat, Params) -> Result<Json, Exc>, params: Params, fuel: nat): (o: PageOutcome)
    requires ODict.Unique(params)
    ensures fuel > 0 ==> |o.Sent()| > 0 && o.Sent()[0] == params
    ensures forall i | 0 < i < |o.Sent()| :: CursorParams(o.Sent()[i])
    ensures !o.Raised? ==> o.pages.items == Collected(send, o.pages.sent)
    ensures Chained(send, Null, 0, o.Sent(), false)
    ensures Ends(send, Null, 0, fuel, false, o)
  {
    PageLoop(send, params, Null, [], [], fuel, false)
  }

  /** The loop with its cycle guard comparing cursors as the exchange sent them. */
  function Paginate(send: (nat, Params) -> Result<Json, Exc>, params: Params, fuel: nat): (o: PageOutcome)
    requires ODict.Unique(params)
    ensures fuel > 0 ==> |o.Sent()| > 0 && o.Sent()[0] == params
    ensures forall i | 0 < i < |o.Sent()| :: CursorParams(o.Sent()[i])
    ensures !o.Raised? ==> o.pages.items == Collected(send, o.pages.sent)
    ensures Chained(send, Null, 0, o.Sent(), true)
    ensures Ends(send, Null, 0, fuel, true, o)
  {
    PageLoop(send, params, Null, [], [], fuel, true)
  }

  /** An exchange that answers every request with an empty page and the same cursor `a%3D`. */
  function StuckServer(): (nat, Params) -> Result<Json, Exc> {
    (i: nat, p: Params) =>
      Success(Obj(map["retCode" := Int(0), "retMsg" := Str("OK"),
                      "result" := Obj(map["list" := Arr([]), "nextPageCursor" := Str("a%3D")])]))
  }

  lemma StuckServerPage(i: nat, p: Params)
    ensures StuckServer()(i, p).Success?
    ensures PageItems(StuckServer()(i, p).value) == Success([])
    ensures NextCursor(StuckServer()(i, p).value) == Success(Str("a%3D"))
  {
  }

  /** Every request to `send` yields an empty page announcing the cursor `next`. */
  ghost predicate AlwaysStuck(send: (nat, Params) -> Result<Json, Exc>, next: Json) {
    forall i: nat, p: Params :: FetchPage(send, i, p) == Success(([], next))
  }

  /** A cursor holding a '%' is never equal to itself with the '%' rewritten to ':'. */
  lemma PercentCursorNotStops(next: Json, cursor: Json)
    requires next.Str? && '%' in next.s
    requires cursor == Null || cursor == next
    ensures !Stops(next, cursor, false)
  {
    assert Truthy(next) && NumberOf(next).None?;
    var last := if Truthy(cursor) && cursor.Str? then Str(ReplaceChar(cursor.s, '%', ':')) else cursor;
    if cursor == next {
      var i :| 0 <= i < |next.s| && next.s[i] == '%';
      assert last.s[i] == ':';
    }
    assert !last.Arr? && NumberOf(last).None? && last != next;
  }

  /**
    As written, a repeated cursor holding a '%' is compared with itself after the '%' were
    rewritten to ':', so against an exchange that keeps announcing it the loop never stops:
    whatever the budget, it is spent without finishing.
   */
  lemma StuckServerNeverFinishes(send: (nat, Params) -> Result<Json, Exc>, next: Json,
                                 params: Params, cursor: Json, acc: seq<Json>,
                                 sent: seq<Params>, fuel: nat)
    requires AlwaysStuck(send, next) && next.Str? && '%' in next.s
    requires ODict.Unique(params) && acc == Collected(send, sent)
    requires cursor == Null || cursor == next
    ensures PageLoop(send, params, cursor, acc, sent, fuel, false).Unfinished?
  {
    var o := PageLoop(send, params, cursor, acc, sent, fuel, false);
    var all, k := o.Sent(), |sent|;
    forall i | k <= i < |all|
      ensures FetchPage(send, i, all[i]).Success? && Announced(send, i, all[i]) == next
      ensures CursorBefore(send, cursor, k, all, i) == cursor || CursorBefore(send, cursor, k, all, i) == next
    {
      assert FetchPage(send, i, all[i]) == Success(([], next));
      if i > k {
        assert FetchPage(send, i - 1, all[i - 1]) == Success(([], next));
      }
    }
    forall i | k <= i < |all| ensures !Stops(Announced(send, i, all[i]), CursorBefore(send, cursor, k, all, i), false) {
      PercentCursorNotStops(next, CursorBefore(send, cursor, k, all, i));
    }
    NeverStopsRunsOut(send, cursor, k, fuel, false, o);
  }

  /**
    A run whose every request is answered with a string cursor that does not stop the loop
    neither finishes nor raises: it runs out of budget.
   */
  lemma NeverStopsRunsOut(send: (nat, Params) -> Result<Json, Exc>, cursor: Json, k: nat, fuel: nat,
                          rawGuard: bool, o: PageOutcome)
    requires Ends(send, cursor, k, fuel, rawGuard, o)
    requires !(Truthy(cursor) && !cursor.Str?)
    requires forall i | k <= i < |o.Sent()| ::
      && FetchPage(send, i, o.Sent()[i]).Success?
      && Announced(send, i, o.Sent()[i]).Str?
      && !Stops(Announced(send, i, o.Sent()[i]), CursorBefore(send, cursor, k, o.Sent(), i), rawGuard)
    ensures o.Unfinished?
  {
  }

  /** The example exchange is such an exchange, with the cursor `a%3D`. */
  lemma StuckServerAlwaysStuck()
    ensures AlwaysStuck(StuckServer(), Str("a%3D"))
  {
    forall i: nat, p: Params ensures FetchPage(StuckServer(), i, p) == Success(([], Str("a%3D"))) {
      StuckServerPage(i, p);
    }
  }

  /** The corrected guard stops the same exchange after the second request. */
  lemma StuckServerStopsWhenCorrected(params: Params, fuel: nat)
    requires ODict.Unique(params) && fuel >= 2
    ensures Paginate(StuckServer(), params, fuel).Finished?
    ensures |Paginate(StuckServer(), params, fuel).Sent()| == 2
    ensures Paginate(StuckServer(), params, fuel).pages.items == []
  {
    var send := StuckServer();
    var none: seq<Json> := [];
    var cursor := Str("a%3D");
    StuckServerPage(0, params);
    assert FetchPage(send, 0, params) == Success((none, cursor));
    assert !Stops(cursor, Null, true);
    CollectedPrefix(send, [], params);
    assert Collected(send, [params]) == none;
    var p := FollowUpParams(params, "a%3D");
    assert RequestParams(params, cursor) == Success(p);
    StuckServerPage(1, p);
    assert FetchPage(send, 1, p) == Success((none, cursor));
    PyEqReflexive(cursor);
    assert Stops(cursor, cursor, true);
    var second := PageLoop(send, params, cursor, none, [params], fuel - 1, true);
    assert second == Finished(Pages(none, p, [params] + [p]));
    assert PageLoop(send, params, Null, [], [], fuel, true) == second;
  }

  lemma AsWrittenNeverFinishes(params: Params, fuel: nat)
    requires ODict.Unique(params)
    ensures PaginateAsWritten(StuckServer(), params, fuel).Unfinished?
  {
    StuckServerAlwaysStuck();
    assert "a%3D"[1] == '%';
    StuckServerNeverFinishes(StuckServer(), Str("a%3D"), params, Null, [], [], fuel);
  }
}
