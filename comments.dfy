/** The comment tree of a note: `get_note_all_inner_comment` expands one
    top-level comment in place with all its replies, and
    `get_note_all_comment` walks the top-level comments and expands each.
    A top-level comment is a mutable JSON object in the source, shared
    between the list the walk returns and the expansion that extends it,
    so it is a class here. */
module Comments {
  import opened Wrappers
  import opened Json
  import opened Urls
  import opened Pages

  /** The reply-related fields of a top-level comment: `sub_comment_has_more`,
      `sub_comment_cursor` and `sub_comments`; `None` is an absent key. */
  datatype Thread = Thread(hasMore: Option<bool>, cursor: Option<string>, subs: Option<seq<Json>>)

  /** What expanding one comment reports, and the replies it then holds. */
  datatype Expansion = Expansion(success: bool, msg: string, subs: Option<seq<Json>>)

  /** The reply walk: every page of `comments` until `has_more` is false. */
  const Replies: Policy := UntilNoMore("comments")

  /** `get_note_all_inner_comment` on a comment in state `t`, the reply
      pages coming from `script`: a comment without more replies is left
      as it is and reported as `(True, "success")`; otherwise the replies
      from its `sub_comment_cursor` on are appended to `sub_comments`,
      but only once the whole reply walk succeeded. */
  function Expanded(t: Thread, script: seq<Fetch<Json>>): (r: Option<Expansion>)
    ensures r.Some? && !r.value.success ==> r.value.subs == t.subs
    ensures t.hasMore == Some(false) ==> r == Some(Expansion(true, "success", t.subs))
    ensures r.Some? && r.value.success && t.hasMore != Some(false) ==>
      t.hasMore == Some(true) && t.cursor.Some? && t.subs.Some? && r.value.subs.Some? &&
      t.subs.value <= r.value.subs.value
    ensures r.None? ==> t.hasMore == Some(true) && t.cursor.Some? && Walk(Replies, script).None?
  {
    if t.hasMore.None? then Some(Expansion(false, KeyErrorText("sub_comment_has_more"), t.subs))
    else if !t.hasMore.value then Some(Expansion(true, "success", t.subs))
    else if t.cursor.None? then Some(Expansion(false, KeyErrorText("sub_comment_cursor"), t.subs))
    else
      match Walk(Replies, script)
      case None => None
      case Some(o) =>
        if !o.success then Some(Expansion(false, o.msg, t.subs))
        else if t.subs.None? then Some(Expansion(false, KeyErrorText("sub_comments"), t.subs))
        else Some(Expansion(true, o.msg, Some(t.subs.value + o.items)))
  }

  /** A successful expansion of a comment with more replies keeps the
      replies it had and appends replies in the order the pages delivered
      them. */
  lemma ExpandedAppendsReplies(t: Thread, script: seq<Fetch<Json>>)
    requires t.hasMore == Some(true)
    requires Expanded(t, script).Some? && Expanded(t, script).value.success
    ensures t.subs.Some? && Expanded(t, script).value.subs.Some?
    ensures var s := Expanded(t, script).value.subs.value;
      |t.subs.value| <= |s| && s[..|t.subs.value|] == t.subs.value && s[|t.subs.value|..] <= Flatten(script)
  {
    WalkPrefix(Replies, script);
    var o := Walk(Replies, script).value;
    var s := t.subs.value + o.items;
    assert s[|t.subs.value|..] == o.items;
  }

  /** A top-level comment. `note_id` and `id` only address its reply
      requests. */
  class Comment {
    const noteId: string
    const id: string
    var hasMore: Option<bool>
    var cursor: Option<string>
    var subComments: Option<seq<Json>>

    constructor (noteId: string, id: string, t: Thread)
      ensures this.noteId == noteId && this.id == id && State() == t
    {
      this.noteId := noteId;
      this.id := id;
      hasMore := t.hasMore;
      cursor := t.cursor;
      subComments := t.subs;
    }

    function State(): Thread
      reads this
    {
      Thread(hasMore, cursor, subComments)
    }

    /** `get_note_all_inner_comment(comment, …)`: returns its
        `(success, msg)` (`None` when the script ends before the reply walk
        does) and the reply requests sent, which start from the comment's
        own cursor. Only `sub_comments` changes. */
    method Expand(script: seq<Fetch<Json>>) returns (r: Option<(bool, string)>, sent: seq<Request>)
      modifies this
      ensures hasMore == old(hasMore) && cursor == old(cursor)
      ensures var e := Expanded(old(State()), script);
        (e.None? ==> r.None? && subComments == old(subComments)) &&
        (e.Some? ==> r == Some((e.value.success, e.value.msg)) && subComments == e.value.subs)
      ensures old(hasMore) == Some(true) && old(cursor).Some? ==>
        sent == Sent(Replies, CursorReq(old(cursor).value), script)
      ensures !(old(hasMore) == Some(true) && old(cursor).Some?) ==> sent == []
    {
      if hasMore.None? {
        return Some((false, KeyErrorText("sub_comment_has_more"))), [];
      }
      if !hasMore.value {
        return Some((true, "success")), [];
      }
      if cursor.None? {
        return Some((false, KeyErrorText("sub_comment_cursor"))), [];
      }
      var w;
      w, sent := Collect(Replies, CursorReq(cursor.value), script);
      if w.None? {
        r := None;
      } else if !w.value.success {
        r := Some((false, w.value.msg));
      } else if subComments.None? {
        r := Some((false, KeyErrorText("sub_comments")));
      } else {
        subComments := Some(subComments.value + w.value.items);
        r := Some((true, w.value.msg));
      }
    }
  }

  /** The reply pages served to the `k`-th top-level comment. */
  function ScriptFor(scripts: seq<seq<Fetch<Json>>>, k: nat): seq<Fetch<Json>>
  {
    if k < |scripts| then scripts[k] else []
  }

  predicate Expands(t: Thread, script: seq<Fetch<Json>>)
  {
    Expanded(t, script).Some? && Expanded(t, script).value.success
  }

  /** The state of a comment after a successful expansion. */
  function AfterExpand(t: Thread, script: seq<Fetch<Json>>): Thread
    requires Expands(t, script)
  {
    Thread(t.hasMore, t.cursor, Expanded(t, script).value.subs)
  }

  /** The index of the first comment, from `k` on, whose expansion does not
      succeed; `|ts|` when all do. */
  function FirstFailure(ts: seq<Thread>, scripts: seq<seq<Fetch<Json>>>, k: nat): (n: nat)
    requires k <= |ts|
    ensures k <= n <= |ts|
    ensures forall j :: k <= j < n ==> Expands(ts[j], ScriptFor(scripts, j))
    ensures n < |ts| ==> !Expands(ts[n], ScriptFor(scripts, n))
    decreases |ts| - k
  {
    if k == |ts| then k
    else if Expands(ts[k], ScriptFor(scripts, k)) then FirstFailure(ts, scripts, k + 1)
    else k
  }

  function States(cs: seq<Comment>): (ts: seq<Thread>)
    reads set c | c in cs
    ensures |ts| == |cs|
    ensures forall k :: 0 <= k < |cs| ==> ts[k] == cs[k].State()
  {
    if |cs| == 0 then [] else States(cs[..|cs| - 1]) + [cs[|cs| - 1].State()]
  }

  predicate Distinct<T(==)>(s: seq<T>)
  {
    forall a, b :: 0 <= a < b < |s| ==> s[a] != s[b]
  }

  /** The comment states after expanding each comment in turn until the
      first expansion that does not succeed: that one and the ones after
      it keep their state. */
  function NewStates(ts: seq<Thread>, scripts: seq<seq<Fetch<Json>>>): (r: seq<Thread>)
    ensures |r| == |ts|
  {
    var n := FirstFailure(ts, scripts, 0);
    seq(|ts|, k requires 0 <= k < |ts| => if k < n then AfterExpand(ts[k], ScriptFor(scripts, k)) else ts[k])
  }

  /** The `(success, msg)` of expanding every comment: the first failing
      expansion's, or the last expansion's (the top-level walk's `msg`
      when there are no comments); `None` when a reply script ends before
      its walk does. */
  function Report(ts: seq<Thread>, scripts: seq<seq<Fetch<Json>>>, msg: string): Option<(bool, string)>
  {
    var n := FirstFailure(ts, scripts, 0);
    if n < |ts| then
      match Expanded(ts[n], ScriptFor(scripts, n))
      case None => None
      case Some(e) => Some((false, e.msg))
    else Some((true, SuccessMsg(ts, scripts, msg, n)))
  }

  /** The `msg` once the first `i` comments are expanded: the last
      expansion's, or the top-level walk's when none was expanded yet. */
  function SuccessMsg(ts: seq<Thread>, scripts: seq<seq<Fetch<Json>>>, msg: string, i: nat): string
    requires i <= FirstFailure(ts, scripts, 0)
  {
    if i == 0 then msg else Expanded(ts[i - 1], ScriptFor(scripts, i - 1)).value.msg
  }

  /** The `for comment in out_comment_list` loop: expand each comment in
      place, stopping at the first failure. */
  method ExpandEach(list: seq<Comment>, scripts: seq<seq<Fetch<Json>>>, msg0: string)
    returns (r: Option<(bool, string)>)
    requires Distinct(list)
    modifies set c | c in list
    ensures r == Report(old(States(list)), scripts, msg0)
    ensures States(list) == NewStates(old(States(list)), scripts)
  {
    ghost var ts := States(list);
    var msg := msg0;
    var i := 0;
    while i < |list|
      invariant 0 <= i <= FirstFailure(ts, scripts, 0)
      invariant forall k :: 0 <= k < |list| ==> list[k].State() == StateAt(ts, scripts, i, k)
      invariant msg == SuccessMsg(ts, scripts, msg0, i)
    {
      var e := ExpandStep(list, scripts, ts, i, msg0);
      if e.None? || !e.value.0 {
        return e;
      }
      msg := e.value.1;
      i := i + 1;
    }
    r := Some((true, msg));
    ReportComplete(States(list), ts, scripts, msg0, i);
  }

  /** When every expansion succeeds, the states are those of `NewStates`
      and the report is the last one's `msg`. */
  lemma ReportComplete(cur: seq<Thread>, ts: seq<Thread>, scripts: seq<seq<Fetch<Json>>>, msg: string, i: nat)
    requires i == |ts| == |cur| && i <= FirstFailure(ts, scripts, 0)
    requires forall k :: 0 <= k < |ts| ==> cur[k] == StateAt(ts, scripts, i, k)
    ensures cur == NewStates(ts, scripts)
    ensures Report(ts, scripts, msg) == Some((true, SuccessMsg(ts, scripts, msg, i)))
  {
    NewStatesFrom(cur, ts, scripts);
  }

  /** One turn of that loop: expand comment `i`. On success the loop moves
      on; otherwise `i` is the first failure and its report is returned. */
  method ExpandStep(list: seq<Comment>, scripts: seq<seq<Fetch<Json>>>, ghost ts: seq<Thread>, i: nat, ghost msg0: string)
    returns (e: Option<(bool, string)>)
    requires Distinct(list) && |ts| == |list| && i < |list|
    requires i <= FirstFailure(ts, scripts, 0)
    requires forall k :: 0 <= k < |list| ==> list[k].State() == StateAt(ts, scripts, i, k)
    modifies list[i]
    ensures e.Some? && e.value.0 ==>
      i < FirstFailure(ts, scripts, 0) && e.value.1 == SuccessMsg(ts, scripts, msg0, i + 1) &&
      forall k :: 0 <= k < |list| ==> list[k].State() == StateAt(ts, scripts, i + 1, k)
    ensures !(e.Some? && e.value.0) ==>
      e == Report(ts, scripts, msg0) && States(list) == NewStates(ts, scripts)
  {
    assert list[i].State() == ts[i];
    var calls;
    e, calls := list[i].Expand(ScriptFor(scripts, i));
    if e.Some? && e.value.0 {
      StateAtNext(ts, scripts, i);
    } else {
      ReportAtFailure(ts, scripts, msg0, i);
      NewStatesFrom(States(list), ts, scripts);
    }
  }

  /** Expanding comment `i` changes its state alone. */
  lemma StateAtNext(ts: seq<Thread>, scripts: seq<seq<Fetch<Json>>>, i: nat)
    requires i < FirstFailure(ts, scripts, 0)
    ensures StateAt(ts, scripts, i + 1, i) == AfterExpand(ts[i], ScriptFor(scripts, i))
    ensures forall k :: 0 <= k < |ts| && k != i ==> StateAt(ts, scripts, i + 1, k) == StateAt(ts, scripts, i, k)
  {
  }

  /** The first expansion that does not succeed gives the report. */
  lemma ReportAtFailure(ts: seq<Thread>, scripts: seq<seq<Fetch<Json>>>, msg: string, i: nat)
    requires i <= FirstFailure(ts, scripts, 0) && i < |ts| && !Expands(ts[i], ScriptFor(scripts, i))
    ensures i == FirstFailure(ts, scripts, 0)
    ensures var x := Expanded(ts[i], ScriptFor(scripts, i));
      Report(ts, scripts, msg) == if x.None? then None else Some((false, x.value.msg))
  {
  }

  /** The state of comment `k` once the comments before `i` are expanded. */
  function StateAt(ts: seq<Thread>, scripts: seq<seq<Fetch<Json>>>, i: nat, k: nat): Thread
    requires i <= FirstFailure(ts, scripts, 0) && k < |ts|
  {
    if k < i then AfterExpand(ts[k], ScriptFor(scripts, k)) else ts[k]
  }

  /** The states reached when the loop stops at the first failure are
      those of `NewStates`. */
  lemma NewStatesFrom(cur: seq<Thread>, ts: seq<Thread>, scripts: seq<seq<Fetch<Json>>>)
    requires |cur| == |ts|
    requires forall k :: 0 <= k < |ts| ==> cur[k] == StateAt(ts, scripts, FirstFailure(ts, scripts, 0), k)
    ensures cur == NewStates(ts, scripts)
  {
  }

  /** A successful run expanded every comment: each one with more replies
      now holds its old replies followed by replies from its pages. */
  lemma ReportSuccess(ts: seq<Thread>, scripts: seq<seq<Fetch<Json>>>, msg: string, k: nat)
    requires Report(ts, scripts, msg).Some? && Report(ts, scripts, msg).value.0
    requires k < |ts| && ts[k].hasMore == Some(true)
    ensures ts[k].subs.Some? && NewStates(ts, scripts)[k].subs.Some?
    ensures var s := NewStates(ts, scripts)[k].subs.value;
      |ts[k].subs.value| <= |s| && s[..|ts[k].subs.value|] == ts[k].subs.value &&
      s[|ts[k].subs.value|..] <= Flatten(ScriptFor(scripts, k))
  {
    ExpandedAppendsReplies(ts[k], ScriptFor(scripts, k));
  }

  /** A failed run names the comment it failed on: every comment before it
      was expanded, it and every later one are untouched. */
  lemma ReportFailure(ts: seq<Thread>, scripts: seq<seq<Fetch<Json>>>, msg: string)
    requires Report(ts, scripts, msg).Some? && !Report(ts, scripts, msg).value.0
    ensures var n := FirstFailure(ts, scripts, 0);
      n < |ts| && Expanded(ts[n], ScriptFor(scripts, n)).Some? &&
      Report(ts, scripts, msg).value.1 == Expanded(ts[n], ScriptFor(scripts, n)).value.msg &&
      (forall k :: 0 <= k < n ==> Expands(ts[k], ScriptFor(scripts, k))) &&
      forall k :: n <= k < |ts| ==> NewStates(ts, scripts)[k] == ts[k]
  {
  }

  /** A top-level comment as the comment page delivers it. */
  datatype TopComment = TopComment(noteId: string, id: string, thread: Thread)

  function Threads(items: seq<TopComment>): (ts: seq<Thread>)
    ensures |ts| == |items|
    ensures forall k :: 0 <= k < |items| ==> ts[k] == items[k].thread
  {
    seq(|items|, k requires 0 <= k < |items| => items[k].thread)
  }

  /** Decoding a page's JSON: every top-level comment becomes a fresh
      object of its own. */
  method Decode(items: seq<TopComment>) returns (list: seq<Comment>)
    ensures |list| == |items| && Distinct(list)
    ensures forall k :: 0 <= k < |list| ==> fresh(list[k])
    ensures forall k :: 0 <= k < |list| ==> list[k].noteId == items[k].noteId && list[k].id == items[k].id
    ensures States(list) == Threads(items)
  {
    list := [];
    var i := 0;
    while i < |items|
      invariant 0 <= i <= |items| && |list| == i && Distinct(list)
      invariant forall k :: 0 <= k < i ==> fresh(list[k])
      invariant forall k :: 0 <= k < i ==>
        list[k].noteId == items[k].noteId && list[k].id == items[k].id && list[k].State() == items[k].thread
    {
      var c := new Comment(items[i].noteId, items[i].id, items[i].thread);
      list := list + [c];
      i := i + 1;
    }
  }

  /** The top-level comment walk. */
  const OutComments: Policy := UntilNoneCollected("comments")

  /** `get_note_all_comment(url, …)`: the note id and the mandatory
      `xsec_token` come from the URL; the top-level comments are walked,
      and each is expanded in turn, in place, until one expansion fails.
      Returns `(success, msg)` and the top-level comments, which are
      returned whenever they were obtained: unexpanded when the comment
      walk failed, partly expanded when an expansion failed. */
  method AllComments(url: string, outScript: seq<Fetch<TopComment>>, scripts: seq<seq<Fetch<Json>>>)
    returns (r: Option<(bool, string)>, list: seq<Comment>)
    ensures forall k :: 0 <= k < |list| ==> fresh(list[k])
    ensures CommentTarget(url).Failure? ==> r == Some((false, CommentTarget(url).error)) && list == []
    ensures CommentTarget(url).Success? && Walk(OutComments, outScript).None? ==> r.None?
    ensures CommentTarget(url).Success? && Walk(OutComments, outScript).Some? ==>
      var w := Walk(OutComments, outScript).value;
      var ts := Threads(w.items);
      var rep := Report(ts, scripts, w.msg);
      |list| == |w.items| &&
      (forall k :: 0 <= k < |list| ==> list[k].noteId == w.items[k].noteId && list[k].id == w.items[k].id) &&
      (!w.success ==> r == Some((false, w.msg)) && States(list) == ts) &&
      (w.success ==> r == rep && States(list) == NewStates(ts, scripts))
  {
    var target := CommentTarget(url);
    if target.Failure? {
      return Some((false, target.error)), [];
    }
    var w, _ := Collect(OutComments, CursorReq(""), outScript);
    r, list := FromOutcome(w, scripts);
  }

  /** What becomes of the top-level walk's outcome: nothing when the script
      ended, the decoded comments when the walk failed, and the comments
      decoded and then expanded in turn when it succeeded. */
  method FromOutcome(w: Option<Outcome<TopComment>>, scripts: seq<seq<Fetch<Json>>>)
    returns (r: Option<(bool, string)>, list: seq<Comment>)
    ensures forall k :: 0 <= k < |list| ==> fresh(list[k])
    ensures w.None? ==> r.None?
    ensures w.Some? ==>
      var ts := Threads(w.value.items);
      |list| == |w.value.items| &&
      (forall k :: 0 <= k < |list| ==> list[k].noteId == w.value.items[k].noteId && list[k].id == w.value.items[k].id) &&
      (!w.value.success ==> r == Some((false, w.value.msg)) && States(list) == ts) &&
      (w.value.success ==> r == Report(ts, scripts, w.value.msg) && States(list) == NewStates(ts, scripts))
  {
    if w.None? {
      return None, [];
    }
    list := Decode(w.value.items);
    if !w.value.success {
      return Some((false, w.value.msg)), list;
    }
    r := ExpandEach(list, scripts, w.value.msg);
  }
}
