/** Building one signed request of `XHS_Apis`: the query string
    (`splice_str`), the B3 trace id (`generate_x_b3_traceid`), the header
    template with its four signed fields (`generate_headers`) and the
    cookie lookup in front of them (`generate_request_params`).

    The signer (a JavaScript routine) and the X-Ray trace id generator are
    outside the model: they are parameters, as is the stream of random
    draws. */
module Requests {
  import opened Wrappers
  import opened Text
  import opened Json
  import opened Cookies

  // ---------------------------------------------------------------------
  // splice_str

  /** A query parameter in dictionary order; `None` stands for Python's
      `None` value. */
  type Param = (string, Option<string>)

  /** `key + "=" + value`, with `None` rendered as the empty string. */
  function PairText(param: Param): string
  {
    param.0 + "=" + (if param.1.Some? then param.1.value else "")
  }

  function PairTexts(params: seq<Param>): (r: seq<string>)
    ensures |r| == |params|
    ensures forall i :: 0 <= i < |params| ==> r[i] == PairText(params[i])
  {
    if |params| == 0 then [] else [PairText(params[0])] + PairTexts(params[1..])
  }

  /** Every pair followed by `&`, in the order the loop appends them. */
  function Terminated(params: seq<Param>): string
  {
    if |params| == 0 then ""
    else Terminated(params[..|params| - 1]) + PairText(params[|params| - 1]) + "&"
  }

  lemma {:induction false} TerminatedJoin(params: seq<Param>)
    requires |params| > 0
    ensures Terminated(params) == Join(PairTexts(params), "&") + "&"
    decreases |params|
  {
    var init := params[..|params| - 1];
    if |init| > 0 {
      TerminatedJoin(init);
      assert PairTexts(params) == PairTexts(init) + [PairText(params[|params| - 1])];
      JoinSnoc(PairTexts(init), PairText(params[|params| - 1]), "&");
    }
  }

  /** `splice_str(api, params)`: the pairs joined by `&` after a `?`; with
      no parameters the `?` is cut off again and `api` comes back. */
  method SpliceStr(api: string, params: seq<Param>) returns (url: string)
    ensures params == [] ==> url == api
    ensures params != [] ==> url == api + "?" + Join(PairTexts(params), "&")
  {
    url := api + "?";
    var i := 0;
    while i < |params|
      invariant 0 <= i <= |params|
      invariant url == api + "?" + Terminated(params[..i])
    {
      var (key, value) := params[i];
      if value.None? {
        value := Some("");
      }
      ghost var done := Terminated(params[..i]);
      assert params[..i + 1][..i] == params[..i];
      assert PairText(params[i]) == key + "=" + value.value;
      AppendAssoc(api + "?", done + PairText(params[i]), "&");
      AppendAssoc(api + "?", done, PairText(params[i]));
      AppendAssoc(url, key + "=", value.value);
      AppendAssoc(url, key, "=");
      url := url + key + "=" + value.value + "&";
      i := i + 1;
    }
    assert params[..|params|] == params;
    if |params| > 0 {
      TerminatedJoin(params);
      AppendAssoc(api + "?", Join(PairTexts(params), "&"), "&");
    }
    url := url[..|url| - 1];
  }

  // ---------------------------------------------------------------------
  // generate_x_b3_traceid

  const HexAlphabet: string := "abcdef0123456789"

  /** One draw `math.floor(16 * random.random())`. */
  type HexDraw = i: int | 0 <= i < 16

  /** `id` is the trace id of length `len` built from the draws: character
      `i` is the alphabet letter picked by draw `i`. */
  predicate TraceIdFrom(id: string, len: int, draw: nat -> HexDraw)
  {
    |id| == (if len < 0 then 0 else len) &&
    forall i :: 0 <= i < |id| ==> id[i] == HexAlphabet[draw(i)]
  }

  method GenerateTraceId(len: int, draw: nat -> HexDraw) returns (id: string)
    ensures TraceIdFrom(id, len, draw)
    ensures forall i :: 0 <= i < |id| ==> id[i] in HexAlphabet
  {
    id := "";
    var t := 0;
    while t < len
      invariant 0 <= t <= (if len < 0 then 0 else len) && |id| == t
      invariant forall i :: 0 <= i < t ==> id[i] == HexAlphabet[draw(i)]
    {
      id := id + [HexAlphabet[draw(t)]];
      t := t + 1;
    }
  }

  // ---------------------------------------------------------------------
  // generate_headers / generate_request_params

  /** What the signer returns for `(api, data, a1)`: `xs`, `xt` (a number)
      and `xs_common`. */
  datatype Signature = Signature(xs: string, xt: int, xsCommon: string)

  /** The signing routine, called with the api path, the request data and
      the `a1` cookie. */
  type Signer = (string, Json, string) -> Signature

  /** The fields of the header dictionary, in the template's order. */
  datatype Field =
    | Authority | Accept | AcceptLanguage | CacheControl | ContentType | Origin | Pragma | Referer
    | SecChUa | SecChUaMobile | SecChUaPlatform | SecFetchDest | SecFetchMode | SecFetchSite
    | UserAgent | B3TraceId | Mns | XS | XSCommon | XT | XrayTraceId

  /** The name a field is sent under. */
  function FieldName(f: Field): string
  {
    match f
    case Authority => "authority"
    case Accept => "accept"
    case AcceptLanguage => "accept-language"
    case CacheControl => "cache-control"
    case ContentType => "content-type"
    case Origin => "origin"
    case Pragma => "pragma"
    case Referer => "referer"
    case SecChUa => "sec-ch-ua"
    case SecChUaMobile => "sec-ch-ua-mobile"
    case SecChUaPlatform => "sec-ch-ua-platform"
    case SecFetchDest => "sec-fetch-dest"
    case SecFetchMode => "sec-fetch-mode"
    case SecFetchSite => "sec-fetch-site"
    case UserAgent => "user-agent"
    case B3TraceId => "x-b3-traceid"
    case Mns => "x-mns"
    case XS => "x-s"
    case XSCommon => "x-s-common"
    case XT => "x-t"
    case XrayTraceId => "x-xray-traceid"
  }

  /** The fixed values of the template. */
  const AuthorityValue: string := "edith.xiaohongshu.com"
  const AcceptValue: string := "application/json, text/plain, */*"
  const AcceptLanguageValue: string := "zh-CN,zh;q=0.9,en;q=0.8,en-GB;q=0.7,en-US;q=0.6"
  const ContentTypeValue: string := "application/json;charset=UTF-8"
  const OriginValue: string := "https://www.xiaohongshu.com"
  const RefererValue: string := "https://www.xiaohongshu.com/"
  const SecChUaValue: string :=
    "\"Not A(Brand\";v=\"99\", \"Microsoft Edge\";v=\"121\", \"Chromium\";v=\"121\""
  const SecChUaPlatformValue: string := "\"Windows\""
  const UserAgentValue: string :=
    "Mozilla/5.0 (Windows NT 10.0; Win64; x64) AppleWebKit/537.36 (KHTML, like Gecko) Chrome/121.0.0.0 Safari/537.36 Edg/121.0.0.0"

  /** The entries of `get_request_headers_template()`, in order; only the
      X-Ray trace id is computed afresh on every call. */
  function TemplateEntries(xray: string): seq<(Field, string)>
  {
    [
      (Authority, AuthorityValue),
      (Accept, AcceptValue),
      (AcceptLanguage, AcceptLanguageValue),
      (CacheControl, "no-cache"),
      (ContentType, ContentTypeValue),
      (Origin, OriginValue),
      (Pragma, "no-cache"),
      (Referer, RefererValue),
      (SecChUa, SecChUaValue),
      (SecChUaMobile, "?0"),
      (SecChUaPlatform, SecChUaPlatformValue),
      (SecFetchDest, "empty"),
      (SecFetchMode, "cors"),
      (SecFetchSite, "same-site"),
      (UserAgent, UserAgentValue),
      (B3TraceId, ""),
      (Mns, "unload"),
      (XS, ""),
      (XSCommon, ""),
      (XT, ""),
      (XrayTraceId, xray)
    ]
  }

  function HeaderTemplate(xray: string): map<Field, string>
  {
    MapOf(TemplateEntries(xray))
  }

  /** The four header fields `generate_headers` overwrites. */
  const SignedFields: set<Field> := {XS, XT, XSCommon, B3TraceId}

  /** `headers` is `template` with exactly the four signed fields replaced:
      the signature parts (`x-t` as decimal text) and the trace id. */
  predicate SignedFrom(headers: map<Field, string>, template: map<Field, string>,
                       sig: Signature, traceId: string)
  {
    headers.Keys == template.Keys + SignedFields &&
    (forall k :: k in template && k !in SignedFields ==> headers[k] == template[k]) &&
    headers[XS] == sig.xs &&
    headers[XT] == IntToString(sig.xt) &&
    headers[XSCommon] == sig.xsCommon &&
    headers[B3TraceId] == traceId
  }

  /** The request body: the compact JSON text of `data` when `data` is
      truthy, otherwise `data` itself. JSON text is not modelled; `Compact`
      stands for `json.dumps(data, separators=(",", ":"))`. */
  datatype Body = Compact(value: Json) | Unchanged(value: Json)

  method GenerateHeaders(a1: string, api: string, data: Json, sign: Signer,
                         xray: string, draw: nat -> HexDraw)
    returns (headers: map<Field, string>, body: Body)
    ensures B3TraceId in headers
    ensures SignedFrom(headers, HeaderTemplate(xray), sign(api, data, a1), headers[B3TraceId])
    ensures TraceIdFrom(headers[B3TraceId], 16, draw)
    ensures Truthy(data) ==> body == Compact(data)
    ensures !Truthy(data) ==> body == Unchanged(data)
  {
    var sig := sign(api, data, a1);
    var traceId := GenerateTraceId(16, draw);
    headers := HeaderTemplate(xray);
    headers := headers[XS := sig.xs];
    headers := headers[XT := IntToString(sig.xt)];
    headers := headers[XSCommon := sig.xsCommon];
    headers := headers[B3TraceId := traceId];
    if Truthy(data) {
      body := Compact(data);
    } else {
      body := Unchanged(data);
    }
  }

  /** Everything a request carries: headers, the cookie dictionary and
      the body. */
  datatype Prepared = Prepared(headers: map<Field, string>, cookies: map<string, string>, body: Body)

  /** `p` is what `generate_headers` builds for this call, given the
      parsed cookies. */
  predicate PreparedFrom(p: Prepared, cookies: map<string, string>, api: string, data: Json,
                         sign: Signer, xray: string, draw: nat -> HexDraw)
    requires "a1" in cookies
  {
    p.cookies == cookies &&
    B3TraceId in p.headers &&
    SignedFrom(p.headers, HeaderTemplate(xray), sign(api, data, cookies["a1"]), p.headers[B3TraceId]) &&
    TraceIdFrom(p.headers[B3TraceId], 16, draw)
  }

  /** `generate_request_params`: the cookie string must hold `a1`, whose
      value goes to the signer; otherwise the `KeyError` surfaces. */
  method GenerateRequestParams(cookiesStr: string, api: string, data: Json, sign: Signer,
                               xray: string, draw: nat -> HexDraw)
    returns (r: Result<Prepared>)
    ensures "a1" !in TransCookies(cookiesStr) ==> r == Failure(KeyErrorText("a1"))
    ensures "a1" in TransCookies(cookiesStr) ==>
      r.Success? && PreparedFrom(r.value, TransCookies(cookiesStr), api, data, sign, xray, draw)
  {
    var cookies := TransCookies(cookiesStr);
    if "a1" in cookies {
      var headers, body := GenerateHeaders(cookies["a1"], api, data, sign, xray, draw);
      r := Success(Prepared(headers, cookies, body));
    } else {
      r := Failure(KeyErrorText("a1"));
    }
  }

  /** The signed fields and the trace id determine the headers: two header
      maps signed from the same template with the same signature and trace
      id are equal. */
  lemma SignedFromUnique(h1: map<Field, string>, h2: map<Field, string>,
                         template: map<Field, string>, sig: Signature, traceId: string)
    requires SignedFrom(h1, template, sig, traceId) && SignedFrom(h2, template, sig, traceId)
    ensures h1 == h2
  {
    forall k | k in h1.Keys
      ensures h1[k] == h2[k]
    {
      if k !in SignedFields {
        assert h1[k] == template[k] == h2[k];
      }
    }
  }

  /** Two requests built from the same template differ at most in the
      signed fields, whatever was signed and drawn. */
  lemma OnlySignedFieldsDiffer(h1: map<Field, string>, h2: map<Field, string>, xray: string,
                               s1: Signature, s2: Signature, id1: string, id2: string)
    requires SignedFrom(h1, HeaderTemplate(xray), s1, id1)
    requires SignedFrom(h2, HeaderTemplate(xray), s2, id2)
    ensures h1.Keys == h2.Keys == HeaderTemplate(xray).Keys
    ensures forall k :: k in h1 && k !in SignedFields ==> h1[k] == h2[k]
    ensures XrayTraceId in h1 && h1[XrayTraceId] == xray
    ensures Mns in h1 && h1[Mns] == "unload"
  {
    TemplateFields(xray);
  }

  /** The template already holds the signed fields, the fixed `x-mns` and
      the X-Ray trace id. */
  lemma TemplateFields(xray: string)
    ensures SignedFields <= HeaderTemplate(xray).Keys
    ensures Mns in HeaderTemplate(xray) && HeaderTemplate(xray)[Mns] == "unload"
    ensures XrayTraceId in HeaderTemplate(xray) && HeaderTemplate(xray)[XrayTraceId] == xray
  {
    var e := TemplateEntries(xray);
    MapOfEntry(e, 15);
    MapOfEntry(e, 16);
    MapOfEntry(e, 17);
    MapOfEntry(e, 18);
    MapOfEntry(e, 19);
    MapOfEntry(e, 20);
  }
}
