/** The page walkers of `XHS_Apis`. Every walker repeats one request
    until a stopping rule fires, extending its list with each page's
    items; only the stopping rule, the item key and the request state
    differ between them.

    The server is a finite script of responses: the k-th request receives
    `script[k]`. A walk that reaches the end of the script without
    stopping has no outcome (`None`): the source itself would keep
    requesting, as nothing bounds a cursor that never ends. */
module Pages {
  import opened Wrappers
  import opened Text

  /** The part of `res_json["data"]` a walker reads: the list under the
      walker's item key, the cursor (`cursor`, or `cursor_score` in the home
      feed) and `has_more`; an absent key is `None`. */
  datatype Page<T> = Page(items: Option<seq<T>>, cursor: Option<string>, hasMore: Option<bool>)

  /** One page request's `(success, msg, res_json)`; `data` is `None` when
      the response has no `data` key. */
  datatype Fetch<T> = Fetch(success: bool, msg: string, data: Option<Page<T>>)

  /** A walker's `(success, msg, list)`. */
  datatype Outcome<T> = Outcome(success: bool, msg: string, items: seq<T>)

  /** What one page decides: fetch again with the next request, or stop
      with these items appended last. */
  datatype Verdict<T> = Advance(items: seq<T>, token: string) | Halt(success: bool, msg: string, items: seq<T>)

  /** The stopping rules.
      - `UntilEmptyPage`: `get_user_all_notes` and its liked/collected
        twins stop after an empty page or `has_more` false.
      - `UntilNoneCollected`: `get_note_all_out_comment` stops while the
        collected list is still empty or on `has_more` false.
      - `UntilNoMore`: the mention, like and connection walkers and the
        reply walk stop only on `has_more` false.
      - `UntilCount`: `search_some_note`/`search_some_user` stop once
        `require` items are collected, on `has_more` false, or when the
        item key is absent.
      - `FeedUntilExceeds`: `get_homefeed_recommend_by_num` stops once MORE
        than `require` items are collected, or when `items` is absent.
      A cursor walker also stops, without appending, on a page with no
      cursor. `key` is the item key, named in the `KeyError` text. */
  datatype Policy =
    | UntilEmptyPage(key: string)
    | UntilNoneCollected(key: string)
    | UntilNoMore(key: string)
    | UntilCount(key: string, require: int)
    | FeedUntilExceeds(require: int)

  predicate CursorPolicy(p: Policy)
  {
    p.UntilEmptyPage? || p.UntilNoneCollected? || p.UntilNoMore?
  }

  /** What a walker sends: a cursor, a page number, or the home feed's
      `(cursor_score, refresh_type, note_index)`. */
  datatype Request =
    | CursorReq(cursor: string)
    | PageReq(page: int)
    | FeedReq(cursorScore: string, refreshType: int, noteIndex: int)

  /** The request after a page that advanced with `token`: the page's
      cursor, the next page number, or the feed's cursor with refresh
      type 3 and the note index 20 further on. */
  function Next(req: Request, token: string): Request
  {
    match req
    case CursorReq(_) => CursorReq(token)
    case PageReq(n) => PageReq(n + 1)
    case FeedReq(_, _, i) => FeedReq(token, 3, i + 20)
  }

  /** One iteration of a walker's `while True` body, given how many items
      it has collected so far. */
  function Step<T>(p: Policy, collected: nat, f: Fetch<T>): Verdict<T>
  {
    if !f.success then Halt(false, f.msg, [])
    else if f.data.None? then Halt(false, KeyErrorText("data"), [])
    else
      var page := f.data.value;
      match p
      case UntilCount(_, require) =>
        if page.items.None? then Halt(true, f.msg, [])
        else if collected + |page.items.value| >= require then Halt(true, f.msg, page.items.value)
        else if page.hasMore.None? then Halt(false, KeyErrorText("has_more"), page.items.value)
        else if !page.hasMore.value then Halt(true, f.msg, page.items.value)
        else Advance(page.items.value, "")
      case FeedUntilExceeds(require) =>
        if page.items.None? then Halt(true, f.msg, [])
        else if page.cursor.None? then Halt(false, KeyErrorText("cursor_score"), page.items.value)
        else if collected + |page.items.value| > require then Halt(true, f.msg, page.items.value)
        else Advance(page.items.value, page.cursor.value)
      case UntilEmptyPage(key) => CursorStep(key, true, 0, f.msg, page)
      case UntilNoneCollected(key) => CursorStep(key, true, collected, f.msg, page)
      case UntilNoMore(key) => CursorStep(key, false, 0, f.msg, page)
  }

  /** The body of a cursor walker after a successful fetch: the item list
      must be present; a page without a cursor ends the walk before its
      items are appended; with `emptyStops`, the walk ends once `before`
      plus this page's items is zero; then `has_more` decides. */
  function CursorStep<T>(key: string, emptyStops: bool, before: nat, msg: string, page: Page<T>): (v: Verdict<T>)
    ensures v.Advance? ==> page.items == Some(v.items) && page.cursor == Some(v.token) && page.hasMore == Some(true)
    ensures v.Advance? && emptyStops ==> before + |v.items| > 0
    ensures page.items.Some? && page.cursor.None? ==> v == Halt(true, msg, [])
    ensures page.items.None? ==> v == Halt(false, KeyErrorText(key), [])
  {
    if page.items.None? then Halt(false, KeyErrorText(key), [])
    else if page.cursor.None? then Halt(true, msg, [])
    else if emptyStops && before + |page.items.value| == 0 then Halt(true, msg, page.items.value)
    else if page.hasMore.None? then Halt(false, KeyErrorText("has_more"), page.items.value)
    else if !page.hasMore.value then Halt(true, msg, page.items.value)
    else Advance(page.items.value, page.cursor.value)
  }

  /** A failed fetch ends the walk with its message. A walker goes on only
      after a successful page that holds its item list, which it appends;
      a counting walker only below its target with `has_more` true, the
      home feed only up to its target with a cursor, a cursor walker only
      with a cursor and `has_more` true. */
  lemma StepAdvance<T>(p: Policy, collected: nat, f: Fetch<T>)
    ensures !f.success ==> Step(p, collected, f) == Halt(false, f.msg, [])
    ensures var v := Step(p, collected, f);
      v.Advance? ==> f.success && f.data.Some? && f.data.value.items == Some(v.items)
    ensures var v := Step(p, collected, f);
      v.Advance? && p.UntilCount? ==> collected + |v.items| < p.require && f.data.value.hasMore == Some(true)
    ensures var v := Step(p, collected, f);
      v.Advance? && p.FeedUntilExceeds? ==> collected + |v.items| <= p.require && f.data.value.cursor == Some(v.token)
    ensures var v := Step(p, collected, f);
      v.Advance? && CursorPolicy(p) ==> f.data.value.cursor == Some(v.token) && f.data.value.hasMore == Some(true)
  {
  }

  /** `s[:n]` */
  function PyTake<T>(s: seq<T>, n: int): (r: seq<T>)
    ensures r <= s
    ensures 0 <= n ==> |r| == if n < |s| then n else |s|
  {
    if n >= 0 then (if n <= |s| then s[..n] else s)
    else if |s| + n >= 0 then s[..|s| + n]
    else []
  }

  /** The final `if len(list) > require_num: list = list[:require_num]` of
      the counting walkers; it runs on failure too. */
  function Finish<T>(p: Policy, items: seq<T>): (r: seq<T>)
    ensures r <= items
    ensures (p.UntilCount? || p.FeedUntilExceeds?) && p.require >= 0 ==> |r| <= p.require
    ensures (p.UntilCount? || p.FeedUntilExceeds?) && 0 <= p.require <= |items| ==> |r| == p.require
    ensures CursorPolicy(p) ==> r == items
  {
    match p
    case UntilCount(_, n) => if |items| > n then PyTake(items, n) else items
    case FeedUntilExceeds(n) => if |items| > n then PyTake(items, n) else items
    case _ => items
  }

  // ---------------------------------------------------------------------
  // The walk as a function of the script

  function WalkFrom<T>(p: Policy, script: seq<Fetch<T>>, j: nat, acc: seq<T>): Option<Outcome<T>>
    requires j <= |script|
    decreases |script| - j
  {
    if j == |script| then None
    else
      match Step(p, |acc|, script[j])
      case Halt(s, m, items) => Some(Outcome(s, m, Finish(p, acc + items)))
      case Advance(items, _) => WalkFrom(p, script, j + 1, acc + items)
  }

  /** The outcome of walking `script` under `p`. */
  function Walk<T>(p: Policy, script: seq<Fetch<T>>): Option<Outcome<T>>
  {
    WalkFrom(p, script, 0, [])
  }

  function SentFrom<T>(p: Policy, script: seq<Fetch<T>>, j: nat, acc: seq<T>, req: Request): seq<Request>
    requires j <= |script|
    decreases |script| - j
  {
    if j == |script| then []
    else
      match Step(p, |acc|, script[j])
      case Halt(_, _, _) => [req]
      case Advance(items, token) => [req] + SentFrom(p, script, j + 1, acc + items, Next(req, token))
  }

  /** The requests the walk sends, one per page it reads. */
  function Sent<T>(p: Policy, init: Request, script: seq<Fetch<T>>): seq<Request>
  {
    SentFrom(p, script, 0, [], init)
  }

  /** One more page of the walk, from the loop's point of view: the
      verdict on page `k` either completes the walk or carries the loop
      invariant to page `k + 1`. */
  lemma {:induction false} LoopStep<T>(p: Policy, init: Request, script: seq<Fetch<T>>, k: nat,
                                       acc: seq<T>, req: Request, sent: seq<Request>, s: Verdict<T>)
    requires k < |script| && s == Step(p, |acc|, script[k])
    requires WalkFrom(p, script, k, acc) == Walk(p, script)
    requires sent + SentFrom(p, script, k, acc, req) == Sent(p, init, script)
    ensures s.Halt? ==> Some(Outcome(s.success, s.msg, Finish(p, acc + s.items))) == Walk(p, script) &&
                        sent + [req] == Sent(p, init, script)
    ensures s.Advance? ==> WalkFrom(p, script, k + 1, acc + s.items) == Walk(p, script) &&
                           (sent + [req]) + SentFrom(p, script, k + 1, acc + s.items, Next(req, s.token)) == Sent(p, init, script)
  {
    if s.Advance? {
      var rest := SentFrom(p, script, k + 1, acc + s.items, Next(req, s.token));
      assert SentFrom(p, script, k, acc, req) == [req] + rest;
      assert (sent + [req]) + rest == sent + ([req] + rest);
    }
  }

  /** `Collect` is the loop every walker runs: request, decide, extend,
      move the request state on; truncate at the end. */
  method Collect<T>(p: Policy, init: Request, script: seq<Fetch<T>>)
    returns (r: Option<Outcome<T>>, sent: seq<Request>)
    ensures r == Walk(p, script)
    ensures sent == Sent(p, init, script)
  {
    var acc: seq<T> := [];
    var req := init;
    var k := 0;
    sent := [];
    while k < |script|
      invariant k <= |script|
      invariant WalkFrom(p, script, k, acc) == Walk(p, script)
      invariant sent + SentFrom(p, script, k, acc, req) == Sent(p, init, script)
      decreases |script| - k
    {
      var step := Step(p, |acc|, script[k]);
      LoopStep(p, init, script, k, acc, req, sent, step);
      sent := sent + [req];
      if step.Halt? {
        r := Some(Outcome(step.success, step.msg, Finish(p, acc + step.items)));
        return;
      }
      acc := acc + step.items;
      req := Next(req, step.token);
      k := k + 1;
    }
    r := None;
  }

  // ---------------------------------------------------------------------
  // The items of the pages

  /** The items a page offers: its list, when the fetch succeeded and the
      list is present. */
  function PageItems<T>(f: Fetch<T>): seq<T>
  {
    if f.success && f.data.Some? && f.data.value.items.Some? then f.data.value.items.value else []
  }

  /** Every page's items, in arrival order. */
  function Flatten<T>(script: seq<Fetch<T>>): seq<T>
  {
    if |script| == 0 then [] else Flatten(script[..|script| - 1]) + PageItems(script[|script| - 1])
  }

  lemma {:induction false} FlattenPrefix<T>(script: seq<Fetch<T>>, j: nat)
    requires j <= |script|
    ensures Flatten(script[..j]) <= Flatten(script)
    decreases |script| - j
  {
    if j < |script| {
      FlattenPrefix(script, j + 1);
      assert script[..j + 1][..j] == script[..j];
    } else {
      assert script[..j] == script;
    }
  }

  /** The step of page `j` when every earlier page advanced. */
  function StepAt<T>(p: Policy, script: seq<Fetch<T>>, j: nat): Verdict<T>
    requires j < |script|
  {
    Step(p, |Flatten(script[..j])|, script[j])
  }

  /** Every page before `n` advanced. */
  predicate AdvancesBefore<T>(p: Policy, script: seq<Fetch<T>>, n: nat)
  {
    n <= |script| && forall j :: 0 <= j < n ==> StepAt(p, script, j).Advance?
  }

  /** The walk stops at page `n`. */
  predicate HaltsAt<T>(p: Policy, script: seq<Fetch<T>>, n: nat)
  {
    AdvancesBefore(p, script, n) && n < |script| && StepAt(p, script, n).Halt?
  }

  /** The request sent for page `j` when every earlier page advanced. */
  function ReqAt<T>(p: Policy, init: Request, script: seq<Fetch<T>>, j: nat): Request
    requires j <= |script|
  {
    if j == 0 then init
    else
      var s := StepAt(p, script, j - 1);
      Next(ReqAt(p, init, script, j - 1), if s.Advance? then s.token else "")
  }

  /** A page that advances appends exactly the items it offers. */
  lemma AdvanceItems<T>(p: Policy, collected: nat, f: Fetch<T>)
    ensures Step(p, collected, f).Advance? ==> Step(p, collected, f).items == PageItems(f)
    ensures Step(p, collected, f).Halt? ==>
      Step(p, collected, f).items == [] || Step(p, collected, f).items == PageItems(f)
  {
  }

  /** After `n` advancing pages the walk has collected the first `n` pages'
      items and sent the requests `ReqAt(0..n-1)`. */
  lemma {:induction false} WalkAfter<T>(p: Policy, init: Request, script: seq<Fetch<T>>, n: nat)
    requires AdvancesBefore(p, script, n)
    ensures Walk(p, script) == WalkFrom(p, script, n, Flatten(script[..n]))
    ensures |Sent(p, init, script)| >= n
    ensures Sent(p, init, script)[n..] == SentFrom(p, script, n, Flatten(script[..n]), ReqAt(p, init, script, n))
    ensures forall j :: 0 <= j < n ==> Sent(p, init, script)[j] == ReqAt(p, init, script, j)
    decreases n
  {
    if n > 0 {
      WalkAfter(p, init, script, n - 1);
      var acc := Flatten(script[..n - 1]);
      assert script[..n][..n - 1] == script[..n - 1];
      assert StepAt(p, script, n - 1).Advance?;
      AdvanceItems(p, |acc|, script[n - 1]);
      var sent := Sent(p, init, script);
      assert sent[n - 1..] == [ReqAt(p, init, script, n - 1)] + SentFrom(p, script, n, Flatten(script[..n]), ReqAt(p, init, script, n));
      assert sent[n..] == sent[n - 1..][1..];
    }
  }

  /** A walk that stops at page `n` reports that page's verdict on the
      items of the pages before it plus the items the page contributes,
      truncated, after exactly `n + 1` requests. */
  lemma WalkHalts<T>(p: Policy, init: Request, script: seq<Fetch<T>>, n: nat)
    requires HaltsAt(p, script, n)
    ensures var h := StepAt(p, script, n);
      Walk(p, script) == Some(Outcome(h.success, h.msg, Finish(p, Flatten(script[..n]) + h.items)))
    ensures |Sent(p, init, script)| == n + 1
  {
    WalkAfter(p, init, script, n);
  }

  /** Either the walk stops at some page, or every page advances and the
      walk has no outcome having sent a request per page. */
  lemma {:induction false} FirstHalt<T>(p: Policy, init: Request, script: seq<Fetch<T>>, n: nat)
    requires AdvancesBefore(p, script, n)
    ensures (exists m :: n <= m && HaltsAt(p, script, m)) ||
            (AdvancesBefore(p, script, |script|) && Walk(p, script) == None && |Sent(p, init, script)| == |script|)
    decreases |script| - n
  {
    if n == |script| {
      WalkAfter(p, init, script, n);
    } else if StepAt(p, script, n).Halt? {
      assert HaltsAt(p, script, n);
    } else {
      FirstHalt(p, init, script, n + 1);
    }
  }

  /** The outcome and the requests of a walk, stated through the page it
      stops at: pages before it advance, it halts, and one request goes out
      per page read. */
  lemma WalkShape<T>(p: Policy, init: Request, script: seq<Fetch<T>>)
    ensures |Sent(p, init, script)| <= |script|
    ensures forall j :: 0 <= j < |Sent(p, init, script)| ==> Sent(p, init, script)[j] == ReqAt(p, init, script, j)
    ensures Walk(p, script).Some? <==> |Sent(p, init, script)| >= 1 && HaltsAt(p, script, |Sent(p, init, script)| - 1)
    ensures Walk(p, script).None? ==> AdvancesBefore(p, script, |script|)
  {
    FirstHalt(p, init, script, 0);
    if exists m :: HaltsAt(p, script, m) {
      var m :| HaltsAt(p, script, m);
      ShapeWhenHalts(p, init, script, m);
    } else {
      ShapeWhenNone(p, init, script);
    }
  }

  /** The four facts of `WalkShape`. */
  predicate Shaped<T>(p: Policy, init: Request, script: seq<Fetch<T>>)
  {
    |Sent(p, init, script)| <= |script| &&
    (forall j :: 0 <= j < |Sent(p, init, script)| ==> Sent(p, init, script)[j] == ReqAt(p, init, script, j)) &&
    (Walk(p, script).Some? <==> |Sent(p, init, script)| >= 1 && HaltsAt(p, script, |Sent(p, init, script)| - 1)) &&
    (Walk(p, script).None? ==> AdvancesBefore(p, script, |script|))
  }

  lemma ShapeWhenHalts<T>(p: Policy, init: Request, script: seq<Fetch<T>>, m: nat)
    requires HaltsAt(p, script, m)
    ensures Shaped(p, init, script)
  {
    WalkHalts(p, init, script, m);
    WalkAfter(p, init, script, m);
  }

  lemma ShapeWhenNone<T>(p: Policy, init: Request, script: seq<Fetch<T>>)
    requires AdvancesBefore(p, script, |script|) && Walk(p, script) == None
    requires |Sent(p, init, script)| == |script|
    ensures Shaped(p, init, script)
  {
    WalkAfter(p, init, script, |script|);
    if |script| > 0 {
      assert !HaltsAt(p, script, |script| - 1);
    }
  }

  // ---------------------------------------------------------------------
  // What every walker guarantees

  lemma {:induction false} WalkFromPrefix<T>(p: Policy, script: seq<Fetch<T>>, j: nat, acc: seq<T>)
    requires j <= |script| && acc == Flatten(script[..j])
    ensures WalkFrom(p, script, j, acc).Some? ==> WalkFrom(p, script, j, acc).value.items <= Flatten(script)
    decreases |script| - j
  {
    if j < |script| {
      var s := Step(p, |acc|, script[j]);
      AdvanceItems(p, |acc|, script[j]);
      assert script[..j + 1][..j] == script[..j];
      FlattenPrefix(script, j + 1);
      if s.Advance? {
        WalkFromPrefix(p, script, j + 1, acc + s.items);
      } else {
        assert acc + s.items <= Flatten(script[..j + 1]);
      }
    }
  }

  /** The returned list is a prefix of all the pages' items concatenated
      in arrival order, for every walker, on success and on failure. */
  lemma WalkPrefix<T>(p: Policy, script: seq<Fetch<T>>)
    ensures Walk(p, script).Some? ==> Walk(p, script).value.items <= Flatten(script)
  {
    WalkFromPrefix(p, script, 0, []);
  }

  lemma {:induction false} WalkFromBounded<T>(p: Policy, script: seq<Fetch<T>>, j: nat, acc: seq<T>)
    requires p.UntilCount? || p.FeedUntilExceeds?
    requires p.require >= 0 && j <= |script|
    ensures WalkFrom(p, script, j, acc).Some? ==> |WalkFrom(p, script, j, acc).value.items| <= p.require
    decreases |script| - j
  {
    if j < |script| && Step(p, |acc|, script[j]).Advance? {
      WalkFromBounded(p, script, j + 1, acc + Step(p, |acc|, script[j]).items);
    }
  }

  /** A counting walker returns at most `require_num` items. */
  lemma WalkBounded<T>(p: Policy, script: seq<Fetch<T>>)
    requires p.UntilCount? || p.FeedUntilExceeds?
    requires p.require >= 0
    ensures Walk(p, script).Some? ==> |Walk(p, script).value.items| <= p.require
  {
    WalkFromBounded(p, script, 0, []);
  }

  /** A failed page ends the walk with `success` false, the page's
      message, and the items collected before it (truncated). */
  lemma FailureKeepsPartial<T>(p: Policy, init: Request, script: seq<Fetch<T>>, n: nat)
    requires AdvancesBefore(p, script, n) && n < |script| && !script[n].success
    ensures Walk(p, script) == Some(Outcome(false, script[n].msg, Finish(p, Flatten(script[..n]))))
    ensures |Sent(p, init, script)| == n + 1
  {
    assert HaltsAt(p, script, n);
    WalkHalts(p, init, script, n);
    assert Flatten(script[..n]) + [] == Flatten(script[..n]);
  }

  /** A cursor walker ends successfully at a page without a cursor, and
      that page's items are not appended. */
  lemma CursorlessPageDropped<T>(p: Policy, script: seq<Fetch<T>>, n: nat)
    requires CursorPolicy(p)
    requires AdvancesBefore(p, script, n) && n < |script|
    requires script[n].success && script[n].data.Some?
    requires script[n].data.value.items.Some? && script[n].data.value.cursor.None?
    ensures Walk(p, script) == Some(Outcome(true, script[n].msg, Flatten(script[..n])))
  {
    assert HaltsAt(p, script, n);
    WalkHalts(p, CursorReq(""), script, n);
    assert Flatten(script[..n]) + [] == Flatten(script[..n]);
  }

  /** A cursor walker ends successfully at a page with a cursor and
      `has_more` false, keeping that page's items. */
  lemma NoMoreStops<T>(p: Policy, script: seq<Fetch<T>>, n: nat)
    requires CursorPolicy(p)
    requires AdvancesBefore(p, script, n) && n < |script|
    requires script[n].success && script[n].data.Some?
    requires script[n].data.value.items.Some? && script[n].data.value.cursor.Some?
    requires script[n].data.value.hasMore == Some(false)
    ensures Walk(p, script) == Some(Outcome(true, script[n].msg, Flatten(script[..n + 1])))
  {
    assert HaltsAt(p, script, n);
    WalkHalts(p, CursorReq(""), script, n);
    assert script[..n + 1][..n] == script[..n];
  }

  /** A search walk that succeeds with fewer than `require` items stopped
      because the last page it read had no item list or said `has_more`
      false. */
  lemma CountStopReason<T>(key: string, require: int, init: Request, script: seq<Fetch<T>>)
    requires Walk(UntilCount(key, require), script).Some?
    requires Walk(UntilCount(key, require), script).value.success
    requires |Walk(UntilCount(key, require), script).value.items| < require
    ensures 1 <= |Sent(UntilCount(key, require), init, script)| <= |script|
    ensures var last := script[|Sent(UntilCount(key, require), init, script)| - 1];
      last.data.Some? && (last.data.value.items.None? || last.data.value.hasMore == Some(false))
  {
    var p := UntilCount(key, require);
    WalkShape(p, init, script);
    var n := |Sent(p, init, script)| - 1;
    WalkHalts(p, init, script, n);
    AdvanceItems(p, |Flatten(script[..n])|, script[n]);
  }

  /** A home-feed walk that succeeds with fewer than `require` items stopped
      because the last page had no `items`; otherwise it returns exactly
      `require` items. */
  lemma FeedStopReason<T>(require: int, init: Request, script: seq<Fetch<T>>)
    requires Walk(FeedUntilExceeds(require), script).Some?
    requires Walk(FeedUntilExceeds(require), script).value.success
    requires |Walk(FeedUntilExceeds(require), script).value.items| < require
    ensures 1 <= |Sent(FeedUntilExceeds(require), init, script)| <= |script|
    ensures var last := script[|Sent(FeedUntilExceeds(require), init, script)| - 1];
      last.data.Some? && last.data.value.items.None?
  {
    var p := FeedUntilExceeds(require);
    WalkShape(p, init, script);
    var n := |Sent(p, init, script)| - 1;
    WalkHalts(p, init, script, n);
  }

  // ---------------------------------------------------------------------
  // The requests

  /** The search walkers ask for pages 1, 2, 3, … */
  lemma {:induction false} SearchPages<T>(key: string, require: int, script: seq<Fetch<T>>, j: nat)
    requires j <= |script|
    ensures ReqAt(UntilCount(key, require), PageReq(1), script, j) == PageReq(j + 1)
  {
    if j > 0 {
      SearchPages(key, require, script, j - 1);
    }
  }

  /** The home feed starts from `("", 1, 0)`; afterwards it sends the
      previous page's `cursor_score`, refresh type 3 and a note index 20
      further on. */
  lemma {:induction false} FeedRequests<T>(require: int, script: seq<Fetch<T>>, j: nat)
    requires AdvancesBefore(FeedUntilExceeds(require), script, j)
    ensures var r := ReqAt(FeedUntilExceeds(require), FeedReq("", 1, 0), script, j);
      r.FeedReq? && r.noteIndex == 20 * j && r.refreshType == (if j == 0 then 1 else 3) &&
      r.cursorScore == (if j == 0 then "" else script[j - 1].data.value.cursor.value)
  {
    if j > 0 {
      FeedRequests(require, script, j - 1);
    }
  }

  /** A cursor walker sends its starting cursor first, then each page's
      cursor in turn. */
  lemma CursorRequests<T>(p: Policy, start: string, script: seq<Fetch<T>>, j: nat)
    requires CursorPolicy(p) && AdvancesBefore(p, script, j + 1)
    ensures ReqAt(p, CursorReq(start), script, 0) == CursorReq(start)
    ensures script[j].data.Some? && script[j].data.value.cursor.Some?
    ensures ReqAt(p, CursorReq(start), script, j + 1) == CursorReq(script[j].data.value.cursor.value)
  {
    assert StepAt(p, script, j).Advance?;
  }

  /** Every request a search walk sends, in order: pages 1, 2, 3, … */
  lemma SearchChain<T>(key: string, require: int, script: seq<Fetch<T>>)
    ensures var sent := Sent(UntilCount(key, require), PageReq(1), script);
      forall j :: 0 <= j < |sent| ==> sent[j] == PageReq(j + 1)
  {
    var p := UntilCount(key, require);
    WalkShape(p, PageReq(1), script);
    forall j | 0 <= j < |Sent(p, PageReq(1), script)|
      ensures Sent(p, PageReq(1), script)[j] == PageReq(j + 1)
    {
      SearchPages(key, require, script, j);
    }
  }

  /** Every page that the walk reads and advances past: every page but the
      last one read. */
  lemma SentAdvance<T>(p: Policy, init: Request, script: seq<Fetch<T>>)
    ensures |Sent(p, init, script)| <= |script|
    ensures |Sent(p, init, script)| > 0 ==> AdvancesBefore(p, script, |Sent(p, init, script)| - 1)
  {
    WalkShape(p, init, script);
  }

  /** Every request the home feed sends: note index 20 per page read so
      far, refresh type 1 on the first request and 3 after it, and the
      previous page's `cursor_score`. */
  lemma FeedChain<T>(require: int, script: seq<Fetch<T>>)
    ensures |Sent(FeedUntilExceeds(require), FeedReq("", 1, 0), script)| <= |script|
    ensures var sent := Sent(FeedUntilExceeds(require), FeedReq("", 1, 0), script);
      forall j :: 0 <= j < |sent| ==>
        sent[j].FeedReq? && sent[j].noteIndex == 20 * j &&
        (j == 0 ==> sent[j].refreshType == 1 && sent[j].cursorScore == "") &&
        (j > 0 ==> sent[j].refreshType == 3 &&
                   script[j - 1].data.Some? && script[j - 1].data.value.cursor.Some? &&
                   sent[j].cursorScore == script[j - 1].data.value.cursor.value)
  {
    var p := FeedUntilExceeds(require);
    var sent := Sent(p, FeedReq("", 1, 0), script);
    WalkShape(p, FeedReq("", 1, 0), script);
    SentAdvance(p, FeedReq("", 1, 0), script);
    forall j | 0 <= j < |sent|
      ensures sent[j].FeedReq? && sent[j].noteIndex == 20 * j &&
              (j == 0 ==> sent[j].refreshType == 1 && sent[j].cursorScore == "") &&
              (j > 0 ==> sent[j].refreshType == 3 &&
                         script[j - 1].data.Some? && script[j - 1].data.value.cursor.Some? &&
                         sent[j].cursorScore == script[j - 1].data.value.cursor.value)
    {
      assert AdvancesBefore(p, script, j);
      assert sent[j] == ReqAt(p, FeedReq("", 1, 0), script, j);
      FeedRequests(require, script, j);
      if j > 0 {
        assert StepAt(p, script, j - 1).Advance?;
      }
    }
  }

  /** Every request a cursor walker sends: the starting cursor, then the
      cursor of each page read before. */
  lemma CursorChain<T>(p: Policy, start: string, script: seq<Fetch<T>>)
    requires CursorPolicy(p)
    ensures |Sent(p, CursorReq(start), script)| <= |script|
    ensures var sent := Sent(p, CursorReq(start), script);
      (|sent| > 0 ==> sent[0] == CursorReq(start)) &&
      forall j :: 0 <= j < |sent| - 1 ==>
        script[j].data.Some? && script[j].data.value.cursor.Some? &&
        sent[j + 1] == CursorReq(script[j].data.value.cursor.value)
  {
    var sent := Sent(p, CursorReq(start), script);
    WalkShape(p, CursorReq(start), script);
    SentAdvance(p, CursorReq(start), script);
    forall j | 0 <= j < |sent| - 1
      ensures script[j].data.Some? && script[j].data.value.cursor.Some? &&
              sent[j + 1] == CursorReq(script[j].data.value.cursor.value)
    {
      CursorRequests(p, start, script, j);
    }
  }

  /** `>=` against `>`: with two items wanted and a first page of two, the
      search walk stops after one request while the home feed asks again
      and then cuts the three items it holds down to two. */
  lemma SearchStopsFeedContinues()
    ensures var script := [Fetch(true, "ok", Some(Page(Some([1, 2]), Some("c1"), Some(true)))),
                           Fetch(true, "ok", Some(Page(Some([3]), Some("c2"), Some(true))))];
      Walk(UntilCount("items", 2), script) == Some(Outcome(true, "ok", [1, 2])) &&
      |Sent(UntilCount("items", 2), PageReq(1), script)| == 1 &&
      Walk(FeedUntilExceeds(2), script) == Some(Outcome(true, "ok", [1, 2])) &&
      Sent(FeedUntilExceeds(2), FeedReq("", 1, 0), script) == [FeedReq("", 1, 0), FeedReq("c1", 3, 20)]
  {
    var script := [Fetch(true, "ok", Some(Page(Some([1, 2]), Some("c1"), Some(true)))),
                   Fetch(true, "ok", Some(Page(Some([3]), Some("c2"), Some(true))))];
    assert Step(UntilCount("items", 2), 0, script[0]) == Halt(true, "ok", [1, 2]);
    assert Walk(UntilCount("items", 2), script) == Some(Outcome(true, "ok", [1, 2])) by {
      assert [] + [1, 2] == [1, 2];
    }
    var feed := FeedUntilExceeds(2);
    assert Step(feed, 0, script[0]) == Advance([1, 2], "c1");
    assert Step(feed, 2, script[1]) == Halt(true, "ok", [3]);
    assert [] + [1, 2] == [1, 2];
    assert [1, 2] + [3] == [1, 2, 3];
    assert PyTake([1, 2, 3], 2) == [1, 2];
    assert WalkFrom(feed, script, 1, [1, 2]) == Some(Outcome(true, "ok", [1, 2]));
    assert SentFrom(feed, script, 1, [1, 2], FeedReq("c1", 3, 20)) == [FeedReq("c1", 3, 20)];
  }
}
