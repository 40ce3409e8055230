/** The URL handling of `XHS_Apis`: the `urllib.parse.urlparse` call the
    list walkers and `get_note_info`/`get_note_all_comment` make, the
    resource id taken from the last path segment, the query dictionary
    built by splitting on `&` and `=`, the watermark-free image URL of
    `get_note_no_water_img`, and the filter labels of `search_note`. */
module Urls {
  import opened Wrappers
  import opened Text
  import opened Requests

  /** `s.split(c, 1)`, padded with an empty second part when `c` does not
      occur. */
  function Partition(s: string, c: char): (r: (string, string))
    ensures c in s ==> s == r.0 + [c] + r.1 && c !in r.0
    ensures c !in s ==> r == (s, "")
  {
    var i := IndexOf(s, c);
    if i < |s| then
      assert s == s[..i] + [c] + s[i + 1..];
      (s[..i], s[i + 1..])
    else (s, "")
  }

  // ---------------------------------------------------------------------
  // urllib.parse.urlparse

  datatype UrlParts = UrlParts(scheme: string, netloc: string, path: string, query: string, fragment: string)

  predicate AsciiLetter(c: char)
  {
    'a' <= c <= 'z' || 'A' <= c <= 'Z'
  }

  predicate SchemeChar(c: char)
  {
    AsciiLetter(c) || '0' <= c <= '9' || c == '+' || c == '-' || c == '.'
  }

  function LowerAscii(s: string): (r: string)
    ensures |r| == |s|
  {
    if |s| == 0 then ""
    else [if 'A' <= s[0] <= 'Z' then (s[0] as int + 32) as char else s[0]] + LowerAscii(s[1..])
  }

  /** The scheme: the text before the first `:` when it starts with a
      letter and holds only scheme characters; otherwise none. */
  function SplitScheme(url: string): (r: (string, string))
    ensures |r.1| <= |url| && r.1 == url[|url| - |r.1|..]
  {
    var i := IndexOf(url, ':');
    if 0 < i < |url| && AsciiLetter(url[0]) && forall j :: 0 <= j < i ==> SchemeChar(url[j]) then
      (LowerAscii(url[..i]), url[i + 1..])
    else ("", url)
  }

  /** The network location after `//`: up to the first `/`, `?` or `#`. */
  function SplitNetloc(rest: string): (r: (string, string))
    ensures |r.1| <= |rest| && r.1 == rest[|rest| - |r.1|..]
  {
    var d := Delimiter(rest);
    (rest[..d], rest[d..])
  }

  function Delimiter(s: string): (d: nat)
    ensures d <= |s|
    decreases |s|
  {
    if |s| == 0 || s[0] == '/' || s[0] == '?' || s[0] == '#' then 0 else 1 + Delimiter(s[1..])
  }

  /** The schemes for which `urlparse` separates `;parameters` from the
      last path segment. */
  const UsesParams: set<string> :=
    {"", "ftp", "hdl", "prospero", "http", "imap", "https", "shttp", "rtsp", "rtspu",
     "sip", "sips", "mms", "sftp", "tel"}

  /** The path without its `;parameters`: cut at the first `;` after the
      last `/`. */
  function SplitParams(path: string): (r: string)
    ensures ';' !in path ==> r == path
  {
    var j := LastIndexOf(path, '/');
    var start := if j < |path| then j else 0;
    var k := IndexOf(path[start..], ';');
    if k < |path| - start then path[..start + k] else path
  }

  /** What follows the scheme and the network location. */
  function Hierarchy(url: string): (r: string)
    ensures |r| <= |url| && r == url[|url| - |r|..]
    ensures '#' !in url ==> '#' !in r
  {
    var r := HierarchyOf(url);
    if '#' !in url then
      SliceAvoids(url, |url| - |r|, |url|, '#');
      r
    else r
  }

  function HierarchyOf(url: string): (r: string)
    ensures |r| <= |url| && r == url[|url| - |r|..]
  {
    var rest := SplitScheme(url).1;
    if |rest| >= 2 && rest[..2] == "//" then SplitNetloc(rest[2..]).1 else rest
  }

  /** What follows the network location, split at the first `#` and then
      at the first `?`: `(path, query, fragment)`. */
  function SplitRest(h: string): (r: (string, string, string))
    ensures '#' !in r.1
    ensures '#' !in h ==> r.2 == ""
  {
    var (rest3, fragment) := Partition(h, '#');
    var (path, query) := Partition(rest3, '?');
    (path, query, fragment)
  }

  /** `urllib.parse.urlparse(url)` for the parts the client reads: the
      query ends where the fragment starts, and there is no fragment
      without a `#`. */
  function UrlParse(url: string): (r: UrlParts)
    ensures '#' !in r.query
    ensures '#' !in url ==> r.fragment == ""
  {
    var scheme := SplitScheme(url).0;
    var rest := SplitScheme(url).1;
    var netloc := if |rest| >= 2 && rest[..2] == "//" then SplitNetloc(rest[2..]).0 else "";
    var (path, query, fragment) := SplitRest(Hierarchy(url));
    UrlParts(scheme, netloc, if scheme in UsesParams then SplitParams(path) else path, query, fragment)
  }

  /** `urlParse.path.split("/")[-1]` */
  function LastSegment(path: string): string
  {
    var segs := Split(path, "/");
    segs[|segs| - 1]
  }

  // ---------------------------------------------------------------------
  // The query dictionary

  /** `{kv.split("=")[0]: kv.split("=")[1] for kv in kvs}`: a pair without
      `=` raises `IndexError`; a later pair overwrites an earlier one. */
  function PairsDict(kvs: seq<string>): Result<map<string, string>>
    decreases |kvs|
  {
    if |kvs| == 0 then Success(map[])
    else
      var init := PairsDict(kvs[..|kvs| - 1]);
      var parts := Split(kvs[|kvs| - 1], "=");
      if init.Failure? then init
      else if |parts| < 2 then Failure(IndexErrorText)
      else Success(init.value[parts[0] := parts[1]])
  }

  function QueryDict(query: string): Result<map<string, string>>
  {
    PairsDict(Split(query, "&"))
  }

  /** A pair splits into at least two parts exactly when it holds `=`. */
  lemma PairParts(kv: string)
    ensures |Split(kv, "=")| >= 2 <==> '=' in kv
  {
    SplitHead(kv, '=');
  }

  /** Some pair of `kvs` holds no `=`. */
  predicate LacksEquals(kvs: seq<string>)
  {
    exists i :: 0 <= i < |kvs| && '=' !in kvs[i]
  }

  /** The dictionary fails exactly when some pair lacks `=`, and then with
      the `IndexError` text. */
  lemma {:induction false} PairsDictFails(kvs: seq<string>)
    ensures PairsDict(kvs).Failure? <==> LacksEquals(kvs)
    ensures PairsDict(kvs).Failure? ==> PairsDict(kvs).error == IndexErrorText
    decreases |kvs|
  {
    if |kvs| > 0 {
      var init := kvs[..|kvs| - 1];
      PairsDictFails(init);
      PairParts(kvs[|kvs| - 1]);
      if exists i :: 0 <= i < |init| && '=' !in init[i] {
        var i :| 0 <= i < |init| && '=' !in init[i];
        assert kvs[i] == init[i];
      }
      if exists i :: 0 <= i < |kvs| && '=' !in kvs[i] {
        var i :| 0 <= i < |kvs| && '=' !in kvs[i];
        if i < |init| {
          assert init[i] == kvs[i];
        }
      }
    }
  }

  lemma QueryDictFails(query: string)
    ensures QueryDict(query).Failure? <==> LacksEquals(Split(query, "&"))
    ensures QueryDict(query).Failure? ==> QueryDict(query).error == IndexErrorText
  {
    var kvs := Split(query, "&");
    assert QueryDict(query) == PairsDict(kvs);
    PairsDictFails(kvs);
  }

  // ---------------------------------------------------------------------
  // What each call site takes from a URL

  /** The resource id and the two query values a request carries. */
  datatype Target = Target(id: string, token: string, source: string)

  /** The `xsec_source` default of `get_user_all_notes`,
      `get_user_all_collect_note_info` and `get_note_info`. */
  const SearchSource: string := "pc_search"

  /** The `xsec_source` default of `get_user_all_like_note_info`. */
  const UserSource: string := "pc_user"

  /** The list walkers: an absent `xsec_token` is the empty string, an
      absent `xsec_source` is the caller's default. Only the query
      dictionary can fail, with its `IndexError`. */
  function UserTarget(url: string, defaultSource: string): (r: Result<Target>)
    ensures r.Failure? <==> LacksEquals(Split(UrlParse(url).query, "&"))
    ensures r.Failure? ==> r.error == IndexErrorText
    ensures r.Success? ==> r.value.id == LastSegment(UrlParse(url).path)
    ensures var kv := QueryDict(UrlParse(url).query);
      r.Success? ==>
        kv.Success? &&
        r.value.token == (if "xsec_token" in kv.value then kv.value["xsec_token"] else "") &&
        r.value.source == (if "xsec_source" in kv.value then kv.value["xsec_source"] else defaultSource)
  {
    QueryDictFails(UrlParse(url).query);
    var parts := UrlParse(url);
    var kv := QueryDict(parts.query);
    if kv.Failure? then Failure(kv.error)
    else
      Success(Target(LastSegment(parts.path),
                     if "xsec_token" in kv.value then kv.value["xsec_token"] else "",
                     if "xsec_source" in kv.value then kv.value["xsec_source"] else defaultSource))
  }

  /** `get_note_info`: the same, except that `xsec_token` must be present:
      it fails with the `IndexError` of the query dictionary, or else with
      the `KeyError` of a missing token, and otherwise agrees with the list
      walkers' target for its default source. */
  function NoteInfoTarget(url: string): (r: Result<Target>)
    ensures LacksEquals(Split(UrlParse(url).query, "&")) ==> r == Failure(IndexErrorText)
    ensures r.Failure? ==> r.error == IndexErrorText || r.error == KeyErrorText("xsec_token")
    ensures r.Success? ==> UserTarget(url, SearchSource) == r
    ensures var kv := QueryDict(UrlParse(url).query);
      kv.Success? ==>
        (r.Success? <==> "xsec_token" in kv.value) &&
        (r.Failure? ==> r.error == KeyErrorText("xsec_token"))
  {
    QueryDictFails(UrlParse(url).query);
    var parts := UrlParse(url);
    var kv := QueryDict(parts.query);
    if kv.Failure? then Failure(kv.error)
    else if "xsec_token" !in kv.value then Failure(KeyErrorText("xsec_token"))
    else
      Success(Target(LastSegment(parts.path), kv.value["xsec_token"],
                     if "xsec_source" in kv.value then kv.value["xsec_source"] else SearchSource))
  }

  /** `get_note_all_comment`: the note id and the mandatory `xsec_token`,
      failing exactly where `get_note_info` fails, with the same error. */
  function CommentTarget(url: string): (r: Result<(string, string)>)
    ensures r.Failure? <==> NoteInfoTarget(url).Failure?
    ensures r.Failure? ==> r.error == NoteInfoTarget(url).error
    ensures r.Success? ==> r.value == (NoteInfoTarget(url).value.id, NoteInfoTarget(url).value.token)
  {
    var parts := UrlParse(url);
    var kv := QueryDict(parts.query);
    if kv.Failure? then Failure(kv.error)
    else if "xsec_token" !in kv.value then Failure(KeyErrorText("xsec_token"))
    else Success((LastSegment(parts.path), kv.value["xsec_token"]))
  }

  /** A URL with no `?` has the empty query, whose single pair lacks `=`:
      every call site then fails with the `IndexError`, before any
      default applies. */
  lemma NoQueryFails(url: string, defaultSource: string)
    requires '?' !in url
    ensures UserTarget(url, defaultSource) == Failure(IndexErrorText)
    ensures NoteInfoTarget(url) == Failure(IndexErrorText)
    ensures CommentTarget(url) == Failure(IndexErrorText)
  {
    EmptyQuery(url);
    QueryDictFails("");
    assert Split("", "&")[0] == "";
  }

  lemma EmptyQuery(url: string)
    requires '?' !in url
    ensures UrlParse(url).query == ""
  {
    var h := Hierarchy(url);
    SliceAvoids(url, |url| - |h|, |url|, '?');
    var rest3 := Partition(h, '#').0;
    if '#' in h {
      assert h[..|rest3|] == rest3;
      SliceAvoids(h, 0, |rest3|, '?');
    }
  }

  lemma SliceAvoids(s: string, i: nat, j: nat, c: char)
    requires i <= j <= |s| && c !in s
    ensures c !in s[i..j]
  {
    forall k | i <= k < j ensures s[k] != c { }
  }

  /** Source defaults: the list walkers take the empty token and their
      own default source when the query names neither. */
  lemma UserTargetDefaults(url: string, defaultSource: string)
    requires QueryDict(UrlParse(url).query).Success?
    requires "xsec_token" !in QueryDict(UrlParse(url).query).value
    requires "xsec_source" !in QueryDict(UrlParse(url).query).value
    ensures UserTarget(url, defaultSource) == Success(Target(LastSegment(UrlParse(url).path), "", defaultSource))
    ensures NoteInfoTarget(url) == Failure(KeyErrorText("xsec_token"))
    ensures CommentTarget(url) == Failure(KeyErrorText("xsec_token"))
  {
  }

  // ---------------------------------------------------------------------
  // Round trip with splice_str

  /** The dictionary the pairs of a spliced query stand for. */
  function ParamEntries(params: seq<Param>): (r: seq<(string, string)>)
    ensures |r| == |params|
    ensures forall i :: 0 <= i < |params| ==>
      r[i] == (params[i].0, if params[i].1.Some? then params[i].1.value else "")
  {
    if |params| == 0 then []
    else [(params[0].0, if params[0].1.Some? then params[0].1.value else "")] + ParamEntries(params[1..])
  }

  /** Keys and values hold none of the characters the query syntax uses. */
  predicate PlainParams(params: seq<Param>)
  {
    forall i :: 0 <= i < |params| ==>
      '&' !in params[i].0 && '=' !in params[i].0 && '#' !in params[i].0 &&
      (params[i].1.Some? ==> '&' !in params[i].1.value && '=' !in params[i].1.value && '#' !in params[i].1.value)
  }

  lemma PairSplits(param: Param)
    requires '=' !in param.0
    requires param.1.Some? ==> '=' !in param.1.value
    ensures Split(PairText(param), "=") == [param.0, if param.1.Some? then param.1.value else ""]
  {
    var v := if param.1.Some? then param.1.value else "";
    SplitAfter(param.0, "=", v);
    SplitWithout(v, "=");
  }

  lemma {:induction false} PairsDictOfPairs(params: seq<Param>)
    requires PlainParams(params)
    ensures PairsDict(PairTexts(params)) == Success(MapOf(ParamEntries(params)))
    decreases |params|
  {
    if |params| > 0 {
      var init := params[..|params| - 1];
      assert PairTexts(params)[..|params| - 1] == PairTexts(init);
      assert ParamEntries(params)[..|params| - 1] == ParamEntries(init);
      PairsDictOfPairs(init);
      PairSplits(params[|params| - 1]);
    }
  }

  /** A relative URL `api?q` parses into the path `api` and the query `q`. */
  lemma ParseRelative(api: string, q: string)
    requires |api| > 0 && api[0] == '/' && (|api| == 1 || api[1] != '/')
    requires '?' !in api && '#' !in api && ';' !in api
    requires '#' !in q
    ensures UrlParse(api + "?" + q).path == api && UrlParse(api + "?" + q).query == q
  {
    var url := api + "?" + q;
    assert url[0] == '/';
    assert SplitScheme(url) == ("", url) by {
      assert !AsciiLetter(url[0]);
    }
    assert url[1] != '/' by {
      if |api| >= 2 { assert url[1] == api[1]; } else { assert url[1] == '?'; }
    }
    assert Hierarchy(url) == url;
    assert '#' !in url by {
      forall k | 0 <= k < |url| ensures url[k] != '#' {
        if k < |api| { assert url[k] == api[k]; }
        else if k > |api| { assert url[k] == q[k - |api| - 1]; }
      }
    }
    assert Partition(url, '?') == (api, q) by {
      assert url[|api|] == '?';
      forall j | 0 <= j < |api| ensures url[j] != '?' {
        assert url[j] == api[j];
      }
      assert IndexOf(url, '?') == |api|;
      assert url[..|api|] == api && url[|api| + 1..] == q;
    }
  }

  /** `rest.find` of the first `/`, `?` or `#` skips a network location
      free of them and stops at the path's leading `/`. */
  lemma {:induction false} DelimiterAfter(netloc: string, tail: string)
    requires '/' !in netloc && '?' !in netloc && '#' !in netloc
    requires |tail| > 0 && tail[0] == '/'
    ensures Delimiter(netloc + tail) == |netloc|
    decreases |netloc|
  {
    if |netloc| > 0 {
      assert (netloc + tail)[1..] == netloc[1..] + tail;
      DelimiterAfter(netloc[1..], tail);
    } else {
      assert netloc + tail == tail;
    }
  }

  /** A path free of `?` and `#` followed by `?` and a query free of `#`
      splits back into that path and query, with no fragment. */
  lemma SplitPathQuery(path: string, q: string)
    requires '?' !in path && '#' !in path && '#' !in q
    ensures SplitRest(path + "?" + q) == (path, q, "")
  {
    var h := path + "?" + q;
    assert '#' !in h by {
      forall k | 0 <= k < |h| ensures h[k] != '#' {
        if k < |path| { assert h[k] == path[k]; }
        else if k > |path| { assert h[k] == q[k - |path| - 1]; }
      }
    }
    assert Partition(h, '?') == (path, q) by {
      assert h[|path|] == '?';
      forall j | 0 <= j < |path| ensures h[j] != '?' {
        assert h[j] == path[j];
      }
      assert IndexOf(h, '?') == |path|;
      assert h[..|path|] == path && h[|path| + 1..] == q;
    }
  }

  /** An absolute URL `scheme://netloc/path?query`, as a profile or note
      link is, parses into exactly those parts, the scheme in lower case
      and no fragment. */
  lemma ParseAbsolute(scheme: string, netloc: string, path: string, query: string)
    requires |scheme| > 0 && forall i :: 0 <= i < |scheme| ==> AsciiLetter(scheme[i])
    requires '/' !in netloc && '?' !in netloc && '#' !in netloc
    requires |path| > 0 && path[0] == '/' && '?' !in path && '#' !in path && ';' !in path
    requires '#' !in query
    ensures UrlParse(scheme + "://" + netloc + path + "?" + query) ==
      UrlParts(LowerAscii(scheme), netloc, path, query, "")
  {
    var tail := path + "?" + query;
    var rest := "//" + netloc + tail;
    var url := scheme + "://" + netloc + path + "?" + query;
    AbsoluteShape(scheme, netloc, path, query);
    SchemeSplits(scheme, rest);
    assert SplitScheme(url) == (LowerAscii(scheme), rest);
    NetlocSplits(netloc, tail);
    assert Hierarchy(url) == tail;
    SplitPathQuery(path, query);
    UrlParseOf(url, LowerAscii(scheme), rest, netloc, path, query, "");
  }

  /** `urlparse` assembled from its steps, for a URL with a network
      location and a path without `;parameters`. */
  lemma UrlParseOf(url: string, scheme: string, rest: string, netloc: string, path: string, query: string, fragment: string)
    requires SplitScheme(url) == (scheme, rest)
    requires |rest| >= 2 && rest[..2] == "//" && SplitNetloc(rest[2..]).0 == netloc
    requires SplitRest(Hierarchy(url)) == (path, query, fragment)
    requires ';' !in path
    ensures UrlParse(url) == UrlParts(scheme, netloc, path, query, fragment)
  {
  }

  /** `scheme://netloc…` is the scheme, `:`, and the rest after it. */
  lemma AbsoluteShape(scheme: string, netloc: string, path: string, query: string)
    ensures scheme + "://" + netloc + path + "?" + query == scheme + ":" + ("//" + netloc + (path + "?" + query))
  {
    var tail := path + "?" + query;
    assert scheme + "://" + netloc + path + "?" + query == scheme + "://" + netloc + tail;
    assert scheme + "://" == scheme + ":" + "//";
    AppendAssoc(scheme + ":", "//", netloc);
    AppendAssoc(scheme + ":", "//" + netloc, tail);
  }

  /** A letters-only scheme followed by `:` is split off, lower-cased. */
  lemma SchemeSplits(scheme: string, rest: string)
    requires |scheme| > 0 && forall i :: 0 <= i < |scheme| ==> AsciiLetter(scheme[i])
    ensures SplitScheme(scheme + ":" + rest) == (LowerAscii(scheme), rest)
  {
    var url := scheme + ":" + rest;
    assert url[|scheme|] == ':';
    forall j | 0 <= j < |scheme| ensures url[j] == scheme[j] && SchemeChar(url[j]) && url[j] != ':' {
    }
    assert IndexOf(url, ':') == |scheme|;
    assert url[..|scheme|] == scheme && url[|scheme| + 1..] == rest;
  }

  /** After `//`, the network location runs up to the path's `/`. */
  lemma NetlocSplits(netloc: string, tail: string)
    requires '/' !in netloc && '?' !in netloc && '#' !in netloc
    requires |tail| > 0 && tail[0] == '/'
    ensures var rest := "//" + netloc + tail;
      |rest| >= 2 && rest[..2] == "//" && SplitNetloc(rest[2..]) == (netloc, tail)
  {
    var rest := "//" + netloc + tail;
    assert rest[..2] == "//" && rest[2..] == netloc + tail;
    DelimiterAfter(netloc, tail);
    assert (netloc + tail)[..|netloc|] == netloc && (netloc + tail)[|netloc|..] == tail;
  }

  /** Parsing a URL that `splice_str` built gives back the api path and a
      query whose dictionary holds every parameter, `None` as `""`. */
  lemma SpliceParses(api: string, params: seq<Param>)
    requires |api| > 0 && api[0] == '/' && (|api| == 1 || api[1] != '/')
    requires '?' !in api && '#' !in api && ';' !in api
    requires params != [] && PlainParams(params)
    ensures UrlParse(api + "?" + Join(PairTexts(params), "&")).path == api
    ensures QueryDict(UrlParse(api + "?" + Join(PairTexts(params), "&")).query) == Success(MapOf(ParamEntries(params)))
  {
    var texts := PairTexts(params);
    assert forall i :: 0 <= i < |params| ==> '&' !in texts[i] && '#' !in texts[i];
    JoinAvoids(texts, "&", '#');
    ParseRelative(api, Join(texts, "&"));
    SplitJoin(texts, "&");
    PairsDictOfPairs(params);
  }

  /** A join of pieces free of `c` with a separator free of `c` is free of
      `c`. */
  lemma {:induction false} JoinAvoids(parts: seq<string>, sep: string, c: char)
    requires c !in sep
    requires forall i :: 0 <= i < |parts| ==> c !in parts[i]
    ensures c !in Join(parts, sep)
    decreases |parts|
  {
    if |parts| > 1 {
      JoinAvoids(parts[1..], sep, c);
    }
  }

  /** `dict(params).get(key)`: the value of the last parameter named
      `key`, `None` as `""`. */
  function ParamValue(params: seq<Param>, key: string): (v: Option<string>)
    ensures v.None? <==> forall i :: 0 <= i < |params| ==> params[i].0 != key
    decreases |params|
  {
    if |params| == 0 then None
    else
      var last := params[|params| - 1];
      if last.0 == key then Some(if last.1.Some? then last.1.value else "")
      else ParamValue(params[..|params| - 1], key)
  }

  /** The dictionary of the parameters holds a key exactly when some
      parameter carries it, with the last one's value. */
  lemma {:induction false} ParamValueMap(params: seq<Param>, key: string)
    ensures key in MapOf(ParamEntries(params)) <==> ParamValue(params, key).Some?
    ensures key in MapOf(ParamEntries(params)) ==> MapOf(ParamEntries(params))[key] == ParamValue(params, key).value
    decreases |params|
  {
    if |params| > 0 {
      var init := params[..|params| - 1];
      assert ParamEntries(params)[..|params| - 1] == ParamEntries(init);
      ParamValueMap(init, key);
    }
  }

  /** A profile or note URL `scheme://netloc/path?k=v&…` carries its
      parameters into every call site: the id is the last path segment,
      the list walkers take the `xsec_token` and `xsec_source` given (else
      `""` and their default), and `get_note_info`/`get_note_all_comment`
      succeed exactly when an `xsec_token` is given, failing with
      `'xsec_token'` otherwise. */
  lemma TargetRoundTrip(scheme: string, netloc: string, path: string, params: seq<Param>, defaultSource: string)
    requires |scheme| > 0 && forall i :: 0 <= i < |scheme| ==> AsciiLetter(scheme[i])
    requires '/' !in netloc && '?' !in netloc && '#' !in netloc
    requires |path| > 0 && path[0] == '/' && '?' !in path && '#' !in path && ';' !in path
    requires params != [] && PlainParams(params)
    ensures var url := scheme + "://" + netloc + path + "?" + Join(PairTexts(params), "&");
      var token := ParamValue(params, "xsec_token");
      var source := ParamValue(params, "xsec_source");
      UserTarget(url, defaultSource) ==
        Success(Target(LastSegment(path), if token.Some? then token.value else "",
                       if source.Some? then source.value else defaultSource)) &&
      (token.Some? ==> NoteInfoTarget(url) == Success(Target(LastSegment(path), token.value,
                                                             if source.Some? then source.value else SearchSource)) &&
                       CommentTarget(url) == Success((LastSegment(path), token.value))) &&
      (token.None? ==> NoteInfoTarget(url) == Failure(KeyErrorText("xsec_token")) &&
                       CommentTarget(url) == Failure(KeyErrorText("xsec_token")))
  {
    var texts := PairTexts(params);
    var query := Join(texts, "&");
    assert forall i :: 0 <= i < |params| ==> '&' !in texts[i] && '#' !in texts[i];
    JoinAvoids(texts, "&", '#');
    ParseAbsolute(scheme, netloc, path, query);
    SplitJoin(texts, "&");
    PairsDictOfPairs(params);
    assert QueryDict(query) == Success(MapOf(ParamEntries(params)));
    ParamValueMap(params, "xsec_token");
    ParamValueMap(params, "xsec_source");
  }

  // ---------------------------------------------------------------------
  // get_note_no_water_img

  const ImgHost: string := "https://sns-img-qc.xhscdn.com/"
  const WebpicHost: string := "http://sns-webpic.xhscdn.com/"
  const WebpicSuffix: string := "?imageView2/2/w/format/jpg"

  /** `s[-n:]` */
  function LastN<T>(s: seq<T>, n: nat): (r: seq<T>)
    ensures |r| == if n < |s| then n else |s|
  {
    if n < |s| then s[|s| - n..] else s
  }

  /** `s[-1]` */
  function Last<T>(s: seq<T>): T
    requires |s| > 0
  {
    s[|s| - 1]
  }

  /** `s.split("!")[0]` */
  function CutAtBang(s: string): string
  {
    Split(s, "!")[0]
  }

  /** The image id of a `.jpg` URL is its last three path segments, of a
      `spectrum` URL its last two, of any other URL its last one; the id
      ends before the first `!`. */
  function NoWaterImg(url: string): (r: string)
    ensures Contains(url, ".jpg") || !Contains(url, "spectrum") ==> ImgHost <= r
    ensures !Contains(url, ".jpg") && Contains(url, "spectrum") ==>
      WebpicHost <= r && |r| >= |WebpicSuffix| && r[|r| - |WebpicSuffix|..] == WebpicSuffix
  {
    var segs := Split(url, "/");
    if Contains(url, ".jpg") then ImgHost + CutAtBang(Join(LastN(segs, 3), "/"))
    else if Contains(url, "spectrum") then WebpicHost + CutAtBang(Join(LastN(segs, 2), "/")) + WebpicSuffix
    else ImgHost + CutAtBang(Last(segs))
  }

  /** Splitting a URL on `/` when its tail is known segment by segment. */
  lemma SplitTail(prefix: string, tail: seq<string>)
    requires |tail| > 0
    requires forall i :: 0 <= i < |tail| ==> '/' !in tail[i]
    ensures Split(prefix + "/" + Join(tail, "/"), "/") == Split(prefix, "/") + tail
  {
    SplitConcat(prefix, '/', Join(tail, "/"));
    SplitJoin(tail, "/");
  }

  /** Cutting `id!style` at `!` leaves `id`. */
  lemma CutStyle(id: string, style: string)
    requires '!' !in id
    ensures CutAtBang(id + "!" + style) == id
  {
    SplitAfter(id, "!", style);
  }

  /** The last three segments of `…/a/b/last`. */
  lemma LastThree(prefix: string, a: string, b: string, last: string)
    requires '/' !in a && '/' !in b && '/' !in last
    ensures LastN(Split(prefix + "/" + a + "/" + b + "/" + last, "/"), 3) == [a, b, last]
  {
    var tail := [a, b, last];
    var bl := b + "/" + last;
    assert Join(tail, "/") == a + "/" + bl by {
      assert tail[1..] == [b, last] && tail[1..][1..] == [last];
      assert Join([b, last], "/") == bl;
    }
    assert prefix + "/" + a + "/" + b + "/" + last == prefix + "/" + (a + "/" + bl);
    SplitTail(prefix, tail);
  }

  /** The three branches of `get_note_no_water_img`, one lemma each. */
  lemma JpgBranch(url: string)
    requires Contains(url, ".jpg")
    ensures NoWaterImg(url) == ImgHost + CutAtBang(Join(LastN(Split(url, "/"), 3), "/"))
  {
  }

  lemma SpectrumBranch(url: string)
    requires !Contains(url, ".jpg") && Contains(url, "spectrum")
    ensures NoWaterImg(url) == WebpicHost + CutAtBang(Join(LastN(Split(url, "/"), 2), "/")) + WebpicSuffix
  {
  }

  lemma PlainBranch(url: string)
    requires !Contains(url, ".jpg") && !Contains(url, "spectrum")
    ensures NoWaterImg(url) == ImgHost + CutAtBang(Last(Split(url, "/")))
  {
  }

  /** `'!' !in x + "/" + y` for `x`, `y` free of `!`. */
  lemma SlashAvoidsBang(x: string, y: string)
    requires '!' !in x && '!' !in y
    ensures '!' !in x + "/" + y
  {
    var z := x + "/" + y;
    forall k | 0 <= k < |z| ensures z[k] != '!' {
      if k < |x| { assert z[k] == x[k]; }
      else if k > |x| { assert z[k] == y[k - |x| - 1]; }
    }
  }

  /** Joining `a`, `b` and `c!style` and cutting at `!` leaves `a/b/c`. */
  lemma JoinThreeCut(a: string, b: string, c: string, style: string)
    requires '!' !in a && '!' !in b && '!' !in c
    ensures CutAtBang(Join([a, b, c + "!" + style], "/")) == a + "/" + b + "/" + c
  {
    var last := c + "!" + style;
    var id := a + "/" + b + "/" + c;
    assert Join([a, b, last], "/") == id + "!" + style by {
      assert [a, b, last][1..] == [b, last] && [b, last][1..] == [last];
      assert Join([b, last], "/") == b + "/" + last;
    }
    SlashAvoidsBang(a, b);
    SlashAvoidsBang(a + "/" + b, c);
    CutStyle(id, style);
  }

  /** The `.jpg` case: for `…/a/b/c!style`, the id is `a/b/c`. */
  lemma JpgImage(prefix: string, a: string, b: string, c: string, style: string)
    requires '/' !in a && '/' !in b && '/' !in c && '/' !in style
    requires '!' !in a && '!' !in b && '!' !in c
    requires Contains(prefix + "/" + a + "/" + b + "/" + c + "!" + style, ".jpg")
    ensures NoWaterImg(prefix + "/" + a + "/" + b + "/" + c + "!" + style) == ImgHost + a + "/" + b + "/" + c
  {
    var last := c + "!" + style;
    var url := prefix + "/" + a + "/" + b + "/" + c + "!" + style;
    var q := prefix + "/" + a + "/" + b + "/";
    AppendAssoc(q, c + "!", style);
    AppendAssoc(q, c, "!");
    assert '/' !in last;
    LastThree(prefix, a, b, last);
    JoinThreeCut(a, b, c, style);
    JpgBranch(url);
  }

  /** The last two segments of `…/d/c!style`, joined and cut at `!`. */
  lemma LastTwoCut(prefix: string, d: string, c: string, style: string)
    requires '/' !in d && '/' !in c && '/' !in style && '!' !in d && '!' !in c
    ensures CutAtBang(Join(LastN(Split(prefix + "/" + d + "/" + c + "!" + style, "/"), 2), "/")) == d + "/" + c
  {
    var last := c + "!" + style;
    var tail := [d, last];
    assert '/' !in last;
    assert Join(tail, "/") == d + "/" + last by {
      assert tail[1..] == [last];
    }
    var p, q := prefix + "/", prefix + "/" + d + "/";
    AppendAssoc(p, d + "/", last);
    AppendAssoc(p, d, "/");
    AppendAssoc(q, c + "!", style);
    AppendAssoc(q, c, "!");
    SplitTail(prefix, tail);
    SlashAvoidsBang(d, c);
    AppendAssoc(d + "/", c + "!", style);
    AppendAssoc(d + "/", c, "!");
    CutStyle(d + "/" + c, style);
  }

  lemma ContainsEnd(x: string, w: string)
    ensures Contains(x + w, w)
  {
    assert (x + w)[|x|..|x| + |w|] == w;
    assert OccursAt(x + w, w, |x|);
  }

  lemma ContainsExtend(s: string, w: string, y: string)
    requires Contains(s, w)
    ensures Contains(s + y, w)
  {
    var i: nat :| i <= |s| && OccursAt(s, w, i);
    assert (s + y)[i..i + |w|] == s[i..i + |w|];
    assert OccursAt(s + y, w, i);
  }

  /** The `spectrum` case: for `…/spectrum/c!style` (no `.jpg`), the id is
      `spectrum/c` on the webpic host with the format suffix. */
  lemma SpectrumImage(prefix: string, c: string, style: string)
    requires '/' !in c && '/' !in style && '!' !in c
    requires !Contains(prefix + "/spectrum/" + c + "!" + style, ".jpg")
    ensures NoWaterImg(prefix + "/spectrum/" + c + "!" + style) == WebpicHost + "spectrum/" + c + WebpicSuffix
  {
    var d := "spectrum";
    var url := prefix + "/spectrum/" + c + "!" + style;
    var pd := prefix + "/" + d;
    assert "/spectrum/" == "/" + d + "/";
    AppendAssoc(prefix, "/" + d, "/");
    AppendAssoc(prefix, "/", d);
    assert url == pd + "/" + c + "!" + style;
    assert '/' !in d && '!' !in d;
    LastTwoCut(prefix, d, c, style);
    ContainsEnd(prefix + "/", d);
    ContainsExtend(pd, d, "/");
    ContainsExtend(pd + "/", d, c);
    ContainsExtend(pd + "/" + c, d, "!");
    ContainsExtend(pd + "/" + c + "!", d, style);
    SpectrumBranch(url);
    assert "spectrum/" == d + "/";
    AppendAssoc(WebpicHost, d + "/", c);
  }

  /** Any other URL: for `…/c!style`, the id is `c`. */
  lemma PlainImage(prefix: string, c: string, style: string)
    requires '/' !in c && '/' !in style && '!' !in c
    requires !Contains(prefix + "/" + c + "!" + style, ".jpg")
    requires !Contains(prefix + "/" + c + "!" + style, "spectrum")
    ensures NoWaterImg(prefix + "/" + c + "!" + style) == ImgHost + c
  {
    var last := c + "!" + style;
    var url := prefix + "/" + c + "!" + style;
    assert url == prefix + "/" + Join([last], "/");
    SplitTail(prefix, [last]);
    CutStyle(c, style);
    PlainBranch(url);
    assert Last(Split(url, "/")) == last;
  }

  // ---------------------------------------------------------------------
  // The search filters of search_note

  /** `sort_type_choice`: 1 newest, 2 most liked, 3 most commented,
      4 most collected, anything else the general order. */
  function SortType(choice: int): (r: string)
    ensures r == "general" <==> !(1 <= choice <= 4)
  {
    if choice == 1 then "time_descending"
    else if choice == 2 then "popularity_descending"
    else if choice == 3 then "comment_descending"
    else if choice == 4 then "collect_descending"
    else "general"
  }

  /** `note_type`: 1 video notes, 2 regular notes, otherwise any. */
  function NoteTypeFilter(code: int): (r: string)
    ensures r == "不限" <==> !(1 <= code <= 2)
  {
    if code == 1 then "视频笔记" else if code == 2 then "普通笔记" else "不限"
  }

  /** `note_time`: 1 one day, 2 one week, 3 half a year, otherwise any. */
  function NoteTimeFilter(code: int): (r: string)
    ensures r == "不限" <==> !(1 <= code <= 3)
  {
    if code == 1 then "一天内" else if code == 2 then "一周内" else if code == 3 then "半年内" else "不限"
  }

  /** `note_range`: 1 seen, 2 unseen, 3 followed, otherwise any. */
  function NoteRangeFilter(code: int): (r: string)
    ensures r == "不限" <==> !(1 <= code <= 3)
  {
    if code == 1 then "已看过" else if code == 2 then "未看过" else if code == 3 then "已关注" else "不限"
  }

  /** `pos_distance`: 1 same city, 2 nearby, otherwise any. */
  function DistanceFilter(code: int): (r: string)
    ensures r == "不限" <==> !(1 <= code <= 2)
  {
    if code == 1 then "同城" else if code == 2 then "附近" else "不限"
  }

  /** The `filters` list of the search request: `(type, tag)` in the order
      the request lists them, each type once, the sort filter first. */
  function SearchFilters(sort: int, noteType: int, noteTime: int, noteRange: int, distance: int)
    : (fs: seq<(string, string)>)
    ensures |fs| == 5 && forall i, j :: 0 <= i < j < |fs| ==> fs[i].0 != fs[j].0
    ensures fs[0].0 == "sort_type" && SortChoice(fs[0].1) == if 1 <= sort <= 4 then sort else 0
    ensures fs[1].0 == "filter_note_type" && NoteTypeChoice(fs[1].1) == if 1 <= noteType <= 2 then noteType else 0
    ensures fs[2].0 == "filter_note_time" && NoteTimeChoice(fs[2].1) == if 1 <= noteTime <= 3 then noteTime else 0
    ensures fs[3].0 == "filter_note_range" && NoteRangeChoice(fs[3].1) == if 1 <= noteRange <= 3 then noteRange else 0
    ensures fs[4].0 == "filter_pos_distance" && DistanceChoice(fs[4].1) == if 1 <= distance <= 2 then distance else 0
  {
    [("sort_type", SortType(sort)),
     ("filter_note_type", NoteTypeFilter(noteType)),
     ("filter_note_time", NoteTimeFilter(noteTime)),
     ("filter_note_range", NoteRangeFilter(noteRange)),
     ("filter_pos_distance", DistanceFilter(distance))]
  }

  /** The label the server reads back as a sort choice; 0 for the general
      order. */
  function SortChoice(tag: string): int
  {
    if tag == "time_descending" then 1
    else if tag == "popularity_descending" then 2
    else if tag == "comment_descending" then 3
    else if tag == "collect_descending" then 4
    else 0
  }

  /** The code the server reads back from a note-type label; 0 for any. */
  function NoteTypeChoice(tag: string): int
  {
    if tag == "视频笔记" then 1 else if tag == "普通笔记" then 2 else 0
  }

  /** The code the server reads back from a note-time label; 0 for any. */
  function NoteTimeChoice(tag: string): int
  {
    if tag == "一天内" then 1 else if tag == "一周内" then 2 else if tag == "半年内" then 3 else 0
  }

  /** The code the server reads back from a note-range label; 0 for any. */
  function NoteRangeChoice(tag: string): int
  {
    if tag == "已看过" then 1 else if tag == "未看过" then 2 else if tag == "已关注" then 3 else 0
  }

  /** The code the server reads back from a distance label; 0 for any. */
  function DistanceChoice(tag: string): int
  {
    if tag == "同城" then 1 else if tag == "附近" then 2 else 0
  }

  /** Each documented sort choice has its own label, and every code outside
      1..4 means the general order. */
  lemma SortTypeRoundTrip(choice: int)
    ensures SortChoice(SortType(choice)) == if 1 <= choice <= 4 then choice else 0
    ensures SortType(SortChoice(SortType(choice))) == SortType(choice)
  {
  }

  /** Distinct documented codes give distinct labels; an undocumented
      code falls back to the label of code 0. */
  lemma FilterLabelsDistinct(i: int, j: int)
    ensures 0 <= i <= 2 && 0 <= j <= 2 && i != j ==> NoteTypeFilter(i) != NoteTypeFilter(j)
    ensures 0 <= i <= 3 && 0 <= j <= 3 && i != j ==> NoteTimeFilter(i) != NoteTimeFilter(j)
    ensures 0 <= i <= 3 && 0 <= j <= 3 && i != j ==> NoteRangeFilter(i) != NoteRangeFilter(j)
    ensures 0 <= i <= 2 && 0 <= j <= 2 && i != j ==> DistanceFilter(i) != DistanceFilter(j)
    ensures !(0 <= i <= 3) ==> NoteTimeFilter(i) == NoteTimeFilter(0) && NoteRangeFilter(i) == NoteRangeFilter(0)
  {
  }
}
