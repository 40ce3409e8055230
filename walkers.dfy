/** The walkers of `XHS_Apis`, one per endpoint: each runs the page loop of
    `Pages.Collect` with its own item key, stopping rule and first request.
    The items are opaque JSON objects to the walker (`T`). */
module Walkers {
  import opened Wrappers
  import opened Urls
  import opened Pages

  /** `search_some_note` / `search_some_user`: pages 1, 2, … of a search
      until `requireNum` items are held, the item key is missing, or
      `has_more` is false; the list is cut to `requireNum`. The search's
      query and filters only ride along on each request. */
  method SearchSome<T>(key: string, requireNum: int, script: seq<Fetch<T>>)
    returns (r: Option<Outcome<T>>, sent: seq<Request>)
    ensures r == Walk(UntilCount(key, requireNum), script)
    ensures |sent| <= |script|
    ensures forall j :: 0 <= j < |sent| ==> sent[j] == PageReq(j + 1)
    ensures r.Some? ==> r.value.items <= Flatten(script)
    ensures r.Some? && requireNum >= 0 ==> |r.value.items| <= requireNum
  {
    var p := UntilCount(key, requireNum);
    r, sent := Collect(p, PageReq(1), script);
    SearchChain(key, requireNum, script);
    WalkShape(p, PageReq(1), script);
    WalkPrefix(p, script);
    if requireNum >= 0 {
      WalkBounded(p, script);
    }
  }

  /** `search_some_note`: the item key is `items`. */
  method SearchSomeNote<T>(requireNum: int, script: seq<Fetch<T>>)
    returns (r: Option<Outcome<T>>, sent: seq<Request>)
    ensures r == Walk(UntilCount("items", requireNum), script)
    ensures forall j :: 0 <= j < |sent| ==> sent[j] == PageReq(j + 1)
    ensures r.Some? ==> r.value.items <= Flatten(script)
    ensures r.Some? && requireNum >= 0 ==> |r.value.items| <= requireNum
  {
    r, sent := SearchSome("items", requireNum, script);
  }

  /** `search_some_user`: the item key is `users`. */
  method SearchSomeUser<T>(requireNum: int, script: seq<Fetch<T>>)
    returns (r: Option<Outcome<T>>, sent: seq<Request>)
    ensures r == Walk(UntilCount("users", requireNum), script)
    ensures forall j :: 0 <= j < |sent| ==> sent[j] == PageReq(j + 1)
    ensures r.Some? ==> r.value.items <= Flatten(script)
    ensures r.Some? && requireNum >= 0 ==> |r.value.items| <= requireNum
  {
    r, sent := SearchSome("users", requireNum, script);
  }

  /** `get_homefeed_recommend_by_num`: the feed from `("", 1, 0)` until
      more than `requireNum` notes are held or a page has no `items`; the
      list is cut to `requireNum`. */
  method HomefeedByNum<T>(requireNum: int, script: seq<Fetch<T>>)
    returns (r: Option<Outcome<T>>, sent: seq<Request>)
    ensures r == Walk(FeedUntilExceeds(requireNum), script)
    ensures |sent| <= |script|
    ensures forall j :: 0 <= j < |sent| ==>
      sent[j].FeedReq? && sent[j].noteIndex == 20 * j &&
      (j == 0 ==> sent[j].refreshType == 1 && sent[j].cursorScore == "") &&
      (j > 0 ==> sent[j].refreshType == 3 &&
                 script[j - 1].data.Some? && script[j - 1].data.value.cursor.Some? &&
                 sent[j].cursorScore == script[j - 1].data.value.cursor.value)
    ensures r.Some? ==> r.value.items <= Flatten(script)
    ensures r.Some? && requireNum >= 0 ==> |r.value.items| <= requireNum
  {
    var p := FeedUntilExceeds(requireNum);
    r, sent := Collect(p, FeedReq("", 1, 0), script);
    FeedChain(requireNum, script);
    WalkPrefix(p, script);
    if requireNum >= 0 {
      WalkBounded(p, script);
    }
  }

  /** A cursor walk from the empty cursor: the first request carries `""`,
      each later one the cursor of the page before it. */
  method CursorWalk<T>(p: Policy, script: seq<Fetch<T>>)
    returns (r: Option<Outcome<T>>, sent: seq<Request>)
    requires CursorPolicy(p)
    ensures r == Walk(p, script)
    ensures |sent| <= |script|
    ensures |sent| > 0 ==> sent[0] == CursorReq("")
    ensures forall j :: 0 <= j < |sent| - 1 ==>
      script[j].data.Some? && script[j].data.value.cursor.Some? &&
      sent[j + 1] == CursorReq(script[j].data.value.cursor.value)
    ensures r.Some? ==> r.value.items <= Flatten(script)
  {
    r, sent := Collect(p, CursorReq(""), script);
    CursorChain(p, "", script);
    WalkPrefix(p, script);
  }

  /** Which of a user's note lists a walker reads. */
  datatype UserList = Posted | Liked | Collected

  /** The `xsec_source` each list uses when the URL names none. */
  function DefaultSource(list: UserList): (s: string)
    ensures s == UserSource <==> list == Liked
  {
    match list
    case Posted => SearchSource
    case Liked => UserSource
    case Collected => SearchSource
  }

  /** `get_user_all_notes`, `get_user_all_like_note_info` and
      `get_user_all_collect_note_info`: the user id, `xsec_token` and
      `xsec_source` come from the profile URL; a URL whose query does not
      parse ends the call before any request, with no notes. Every request
      carries the same target and the walk's cursor. */
  method UserAll<T>(list: UserList, userUrl: string, script: seq<Fetch<T>>)
    returns (r: Option<Outcome<T>>, calls: seq<(Target, Request)>)
    ensures UserTarget(userUrl, DefaultSource(list)).Failure? ==>
      r == Some(Outcome(false, UserTarget(userUrl, DefaultSource(list)).error, [])) && calls == []
    ensures UserTarget(userUrl, DefaultSource(list)).Success? ==>
      r == Walk(UntilEmptyPage("notes"), script) &&
      |calls| <= |script| &&
      (forall j :: 0 <= j < |calls| ==> calls[j].0 == UserTarget(userUrl, DefaultSource(list)).value) &&
      (|calls| > 0 ==> calls[0].1 == CursorReq("")) &&
      (forall j :: 0 <= j < |calls| - 1 ==>
        script[j].data.Some? && script[j].data.value.cursor.Some? &&
        calls[j + 1].1 == CursorReq(script[j].data.value.cursor.value))
    ensures r.Some? ==> r.value.items <= Flatten(script)
  {
    var target := UserTarget(userUrl, DefaultSource(list));
    if target.Failure? {
      return Some(Outcome(false, target.error, [])), [];
    }
    r, calls := NotesOf(target.value, script);
  }

  /** The note walk of one user, every request carrying target `t`. */
  method NotesOf<T>(t: Target, script: seq<Fetch<T>>)
    returns (r: Option<Outcome<T>>, calls: seq<(Target, Request)>)
    ensures r == Walk(UntilEmptyPage("notes"), script)
    ensures |calls| <= |script|
    ensures forall j :: 0 <= j < |calls| ==> calls[j].0 == t
    ensures |calls| > 0 ==> calls[0].1 == CursorReq("")
    ensures forall j :: 0 <= j < |calls| - 1 ==>
      script[j].data.Some? && script[j].data.value.cursor.Some? &&
      calls[j + 1].1 == CursorReq(script[j].data.value.cursor.value)
    ensures r.Some? ==> r.value.items <= Flatten(script)
  {
    var sent;
    r, sent := CursorWalk(UntilEmptyPage("notes"), script);
    calls := Tagged(t, sent);
  }

  /** Each request of a walk, paired with the target it is sent for. */
  function Tagged<A, B>(a: A, s: seq<B>): (r: seq<(A, B)>)
    ensures |r| == |s|
    ensures forall j :: 0 <= j < |s| ==> r[j].0 == a && r[j].1 == s[j]
  {
    seq(|s|, j requires 0 <= j < |s| => (a, s[j]))
  }

  /** `get_note_all_out_comment`: the top-level comments of a note, from
      the empty cursor; the walk also stops while nothing has been
      collected yet. */
  method NoteAllOutComment<T>(script: seq<Fetch<T>>)
    returns (r: Option<Outcome<T>>, sent: seq<Request>)
    ensures r == Walk(UntilNoneCollected("comments"), script)
    ensures |sent| <= |script|
    ensures |sent| > 0 ==> sent[0] == CursorReq("")
    ensures forall j :: 0 <= j < |sent| - 1 ==>
      script[j].data.Some? && script[j].data.value.cursor.Some? &&
      sent[j + 1] == CursorReq(script[j].data.value.cursor.value)
    ensures r.Some? ==> r.value.items <= Flatten(script)
  {
    r, sent := CursorWalk(UntilNoneCollected("comments"), script);
  }

  /** Which notification list a walker reads. */
  datatype Inbox = Mentions | LikesAndCollects | NewConnections

  /** `get_all_metions`, `get_all_likesAndcollects` and
      `get_all_new_connections`: every page of `message_list` until
      `has_more` is false. The three differ only in the endpoint. */
  method AllMessages<T>(inbox: Inbox, script: seq<Fetch<T>>)
    returns (r: Option<Outcome<T>>, sent: seq<Request>)
    ensures r == Walk(UntilNoMore("message_list"), script)
    ensures |sent| <= |script|
    ensures |sent| > 0 ==> sent[0] == CursorReq("")
    ensures forall j :: 0 <= j < |sent| - 1 ==>
      script[j].data.Some? && script[j].data.value.cursor.Some? &&
      sent[j + 1] == CursorReq(script[j].data.value.cursor.value)
    ensures r.Some? ==> r.value.items <= Flatten(script)
  {
    r, sent := CursorWalk(UntilNoMore("message_list"), script);
  }
}
