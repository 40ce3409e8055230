# Crawler client, memory vault and report selection, in Dafny

This project models three tools of the `frontend/tools` package and proves
properties of the models.

- **`XHS_Apis`** (`web_search.py`) is a client for a content platform. It
  parses the cookie string (`trans_cookies`). It builds query strings
  (`splice_str`) and the B3 trace id. It fills the four signed fields of the
  header template (`generate_headers`, `generate_request_params`). It pulls
  the note or user id and the `xsec_token`/`xsec_source` pair out of URLs,
  and maps the search filter codes to labels. It rewrites image URLs
  (`get_note_no_water_img`). It also walks paginated endpoints: the
  count-bounded search and home-feed walkers, and the cursor walkers over a
  user's notes, the top-level comments and the three notification lists.
  Finally it assembles the two-level comment tree, extending each top-level
  comment's `sub_comments` in place.
- **`Tools`** (`memory.py`) manages a user's memory vault. Memories are
  sorted by `created_at` and addressed by their 1-based position in that
  order. The four operations are recall, add, delete and update.
- **`ReportParser`** (`exim_tools.py`) files report files under annual and
  quarterly keys and selects the reports to analyse. It also names each
  report's column and picks the annual report that holds its opening
  balance.

How the model is built:

- The remote server is a finite script of page responses: the k-th request
  receives the k-th response. One generic loop, `Pages.Collect`, runs every
  walker. Each endpoint only chooses the stopping rule (`Pages.Policy`), the
  item key and the first request.
- A walk whose script runs out before the source would stop has no outcome
  (`None`). This is where the source, which has no guard, would keep
  requesting.
- The signer, the X-Ray trace id and the random draws are parameters.
- The memory database is the `MemoryVault.Store` class. Whether each
  database call succeeds is an oracle parameter.
- Python exceptions are values. `str(KeyError('k'))` is the text `'k'`, and
  an index past the end of a list gives `list index out of range`.
- A top-level comment is the `Comments.Comment` class, because the source
  mutates the comment object that the returned list also holds.

In these places the model follows the code:

- A walker that fails returns the items it had collected so far, not an
  empty result.
- A URL without a query string does not fall back to an empty token. Its
  single empty query pair has no `=`, so the call fails with an
  `IndexError`.
- A cookie segment without `=` is a name whose value is the empty string.
  It is not an error.

## Model

| member | source | states |
|---|---|---|
| `Cookies.TransCookies` | frontend/tools/web_search.py:451-462 | a name is in the dictionary iff some segment of the cookie string carries it, and a name maps to the value of the last segment that carries it |
| `Cookies.SegmentParts` | frontend/tools/web_search.py:451-462 | a segment's name is the text before its first `=` and its value is the rest, further `=` included; a segment without `=` is a name with value `""` |
| `Cookies.SegmentOf` | frontend/tools/web_search.py:451-462 | the segment `name=value` gives back exactly that name and value |
| `Cookies.BuildMapLastWins` | frontend/tools/web_search.py:451-462 | a name is in the dictionary iff some segment carries it, and it maps to the value of the last such segment |
| `Cookies.DelimitersAgree` | frontend/tools/web_search.py:451-462 | for well-formed segments, the `"; "`-joined and the `";"`-joined cookie strings parse to the same dictionary, the one built from those segments |
| `Cookies.PairCookies` | frontend/tools/web_search.py:451-462 | `"x; y"` and `"x;y"` both give the dictionary of `x` updated with `y` |
| `Requests.SpliceStr` | frontend/tools/web_search.py:443-449 | the result is `api + "?"` followed by the `k=v` pairs joined by `&` in order, `None` as `""`, with no trailing `&`; with no parameters it is `api` itself |
| `Urls.SpliceParses` | frontend/tools/web_search.py:443-449 | parsing a spliced URL gives back the api path and a query whose dictionary is exactly the parameters, `None` as `""` |
| `Requests.GenerateTraceId` | frontend/tools/web_search.py:362-366 | the trace id has the requested length (none when negative); character `i` is the alphabet letter picked by draw `i`, so every character is in `abcdef0123456789` |
| `Requests.GenerateHeaders` | frontend/tools/web_search.py:425-435 | the headers are the template with exactly `x-s`, `x-t` (the decimal text of the signed time), `x-s-common` and `x-b3-traceid` replaced; the trace id has 16 characters from the draws; the body is compact-serialised iff the data is truthy |
| `Requests.GenerateRequestParams` | frontend/tools/web_search.py:437-441 | without an `a1` cookie the call fails with `'a1'`; otherwise it carries the parsed cookies and headers signed with the `a1` value |
| `Requests.TemplateFields` | frontend/tools/web_search.py:400-423 | the template already holds the four signed fields, `x-mns: unload` and the fresh X-Ray trace id |
| `Requests.OnlySignedFieldsDiffer` | frontend/tools/web_search.py:400-435 | two signed header maps from the same template have the same keys and agree on every field other than the four signed ones |
| `Requests.SignedFromUnique` | frontend/tools/web_search.py:425-435 | the template, the signature and the trace id determine the headers |
| `Urls.UrlParse` | frontend/tools/web_search.py:693 | the query stops before the fragment, so it holds no `#`; a URL without `#` has an empty fragment |
| `Urls.UserTarget` | frontend/tools/web_search.py:693-700 | the list walkers' target fails iff some query pair lacks `=`, and then with the `IndexError` text; on success the id is the last path segment, the token is the query's `xsec_token` (else `""`) and the source its `xsec_source` (else the walker's default) |
| `Urls.NoteInfoTarget` | frontend/tools/web_search.py:896-909 | `get_note_info` fails with the `IndexError` when a query pair lacks `=`; otherwise it succeeds iff the query holds `xsec_token`, fails with `'xsec_token'` when it does not, and on success agrees with the list walkers' target for the default `pc_search` |
| `Urls.CommentTarget` | frontend/tools/web_search.py:1342-1347 | `get_note_all_comment` fails exactly when `get_note_info` fails, with the same error, and otherwise takes the same note id and token |
| `Urls.ParseAbsolute` | frontend/tools/web_search.py:693 | an absolute URL `scheme://netloc/path?query` with a letters-only scheme parses into exactly that netloc, path and query, the scheme lower-cased and no fragment |
| `Urls.ParamValueMap` | frontend/tools/web_search.py:695-697 | the query dictionary of `k=v` pairs holds a key iff some pair names it, with the last such pair's value |
| `Urls.TargetRoundTrip` | frontend/tools/web_search.py:693-700 | for a URL `scheme://netloc/path?k=v&…`: the list walkers get the last path segment, the given `xsec_token` (else `""`) and `xsec_source` (else their default); `get_note_info` (lines 896-909) and `get_note_all_comment` (lines 1342-1347) succeed with that id and token iff `xsec_token` is given, and fail with `'xsec_token'` otherwise |
| `Urls.PairsDictFails` | frontend/tools/web_search.py:696-697 | building the query dictionary fails iff some pair has no `=`, and then with the `IndexError` text |
| `Urls.QueryDictFails` | frontend/tools/web_search.py:695-697 | the same for a whole query string split on `&` |
| `Urls.NoQueryFails` | frontend/tools/web_search.py:693-700 | a URL without `?` makes every call site fail with the `IndexError`, before any default applies |
| `Urls.UserTargetDefaults` | frontend/tools/web_search.py:693-700 | with neither key in the query, the list walkers take the token `""` and their own default source, while `get_note_info` and `get_note_all_comment` fail with `'xsec_token'` |
| `Walkers.DefaultSource` | frontend/tools/web_search.py:776-783 | the default `xsec_source` is `pc_user` exactly for the liked-notes walker and `pc_search` for the posted and collected walkers |
| `Urls.NoWaterImg` | frontend/tools/web_search.py:1569-1606 | a `.jpg` URL and a URL without `spectrum` are rewritten onto the `sns-img-qc` host; a `spectrum` URL without `.jpg` goes onto the `sns-webpic` host and ends with the `imageView2` suffix |
| `Urls.JpgImage` | frontend/tools/web_search.py:1580-1587 | a `.jpg` URL `…/a/b/c!style` becomes the `sns-img-qc` host followed by `a/b/c` |
| `Urls.SpectrumImage` | frontend/tools/web_search.py:1590-1595 | a `…/spectrum/c!style` URL without `.jpg` becomes the `sns-webpic` host, `spectrum/c` and the `imageView2` suffix |
| `Urls.PlainImage` | frontend/tools/web_search.py:1596-1602 | any other URL `…/c!style` becomes the `sns-img-qc` host followed by `c` |
| `Urls.SortType` | frontend/tools/web_search.py:981-989 | the sort label is `general` exactly when the choice is outside 1..4 |
| `Urls.NoteTypeFilter` | frontend/tools/web_search.py:990-994 | the note-type label is `不限` exactly when the code is outside 1..2 |
| `Urls.NoteTimeFilter` | frontend/tools/web_search.py:995-1001 | the time label is `不限` exactly when the code is outside 1..3 |
| `Urls.NoteRangeFilter` | frontend/tools/web_search.py:1002-1008 | the range label is `不限` exactly when the code is outside 1..3 |
| `Urls.DistanceFilter` | frontend/tools/web_search.py:1009-1013 | the distance label is `不限` exactly when the code is outside 1..2 |
| `Urls.SearchFilters` | frontend/tools/web_search.py:1026-1032 | the request's `filters` list has five entries with distinct types in the request's order (sort, note type, time, range, distance); each entry's label reads back as its own requested code, or 0 for a code outside the documented ones |
| `Urls.SortTypeRoundTrip` | frontend/tools/web_search.py:981-989 | sort choices 1 to 4 have their own labels, read back as the same choice; every other code means the general order |
| `Urls.FilterLabelsDistinct` | frontend/tools/web_search.py:990-1013 | distinct documented filter codes give distinct labels; a time or range code outside 0..3 gives the label of code 0, `不限` |
| `Pages.StepAdvance` | frontend/tools/web_search.py:1094-1103 | one turn of a walker's loop: a failed page halts with its message; the walk goes on only after a successful page holding the item list it appends, for a counting walker only below `require_num` with `has_more` true, for the home feed (lines 553-563) only up to `require_num` with a cursor, for a cursor walker (lines 707-714) only with a cursor and `has_more` true |
| `Pages.CursorStep` | frontend/tools/web_search.py:707-714 | a cursor walker goes on only with the item list, a cursor and `has_more` true (and, for the comment walk, something collected); a page without a cursor ends the walk successfully without its items; a page without its item list fails with that key's `KeyError` |
| `Pages.Finish` | frontend/tools/web_search.py:567-568 | the final cut is a prefix of the collected items; for the counting walkers its length is `require_num` when at least that many were collected and never more; cursor walkers are not cut |
| `Pages.Collect` | frontend/tools/web_search.py:701-718 | the loop every walker runs returns the outcome of the walk and exactly the requests the walk sends |
| `Pages.WalkShape` | frontend/tools/web_search.py:701-718 | one request goes out per page read, never more than there are pages; the walk has an outcome iff the last page read halts it, and every page before it advanced the walk |
| `Pages.WalkPrefix` | frontend/tools/web_search.py:554-560 | the returned list is a prefix of all the pages' items concatenated in arrival order, on success and on failure |
| `Pages.WalkBounded` | frontend/tools/web_search.py:1107-1108 | a counting walker returns at most `require_num` items |
| `Pages.FailureKeepsPartial` | frontend/tools/web_search.py:1094-1108 | a failed page ends the walk with `success` false, that page's message and the items collected before it, after exactly one request per page read |
| `Pages.CursorlessPageDropped` | frontend/tools/web_search.py:707-712 | a cursor walker ends successfully at a page without a cursor, and that page's items are not appended |
| `Pages.NoMoreStops` | frontend/tools/web_search.py:712-714 | a cursor walker ends successfully at a page with a cursor and `has_more` false, keeping that page's items |
| `Pages.CountStopReason` | frontend/tools/web_search.py:1097-1103 | a search walk that succeeds with fewer than `require_num` items stopped at a page with no item list or with `has_more` false |
| `Pages.FeedStopReason` | frontend/tools/web_search.py:555-563 | a home-feed walk that succeeds with fewer than `require_num` items stopped at a page without `items` |
| `Pages.SearchChain` | frontend/tools/web_search.py:1079-1102 | the search walkers ask for pages 1, 2, 3, … in order |
| `Pages.FeedChain` | frontend/tools/web_search.py:541-561 | the home feed first sends `("", 1, 0)`; each later request carries the previous page's `cursor_score`, refresh type 3 and a note index 20 higher |
| `Pages.CursorChain` | frontend/tools/web_search.py:701-712 | a cursor walker sends its starting cursor first, then each page's cursor in turn |
| `Pages.SearchStopsFeedContinues` | frontend/tools/web_search.py:562-563 | `>=` against `>`: with 2 wanted and a first page of 2, the search stops after one request while the feed fetches again and cuts 3 items to 2 |
| `Walkers.SearchSome` | frontend/tools/web_search.py:1079-1109 | the shared search walk: pages 1, 2, …, a prefix of the pages' items, at most `require_num` of them |
| `Walkers.SearchSomeNote` | frontend/tools/web_search.py:1053-1109 | `search_some_note` is that walk over the `items` key |
| `Walkers.SearchSomeUser` | frontend/tools/web_search.py:1149-1180 | `search_some_user` is that walk over the `users` key |
| `Walkers.HomefeedByNum` | frontend/tools/web_search.py:531-569 | the home-feed walk: the request chain of `FeedChain`, a prefix of the pages' items, at most `require_num` of them |
| `Walkers.CursorWalk` | frontend/tools/web_search.py:1419-1434 | a cursor walk starts from `""` and then sends each page's cursor; its list is a prefix of the pages' items |
| `Walkers.UserAll` | frontend/tools/web_search.py:683-718 | a profile URL whose query does not parse ends the call with no request and no notes; otherwise every request carries the URL's target and the walk's cursors, and the walk stops on an empty page, `has_more` false or an absent cursor |
| `Walkers.NoteAllOutComment` | frontend/tools/web_search.py:1224-1253 | the top-level comment walk from `""`, which also stops while nothing has been collected |
| `Walkers.AllMessages` | frontend/tools/web_search.py:1410-1434 | the mention, like and connection walks from `""`, which stop only on `has_more` false or an absent cursor |
| `Comments.Expanded` | frontend/tools/web_search.py:1299-1331 | a comment with `sub_comment_has_more` false is returned unchanged with `success`; a failed expansion leaves `sub_comments` as it was; a successful one keeps the old replies as a prefix |
| `Comments.ExpandedAppendsReplies` | frontend/tools/web_search.py:1311-1327 | a successful expansion appends, after the existing replies, a prefix of the reply pages' items in arrival order |
| `Comments.Comment.Expand` | frontend/tools/web_search.py:1299-1331 | only `sub_comments` changes; the reply requests start from the comment's own `sub_comment_cursor`, and no request is sent when there are no more replies |
| `Comments.ExpandEach` | frontend/tools/web_search.py:1351-1356 | the top-level comments are expanded in order, in place, up to and including the first expansion that fails; that one and all later ones keep their state |
| `Comments.ReportSuccess` | frontend/tools/web_search.py:1351-1356 | after a fully successful run, every comment with more replies holds its old replies followed by replies from its own pages |
| `Comments.ReportFailure` | frontend/tools/web_search.py:1351-1359 | a failed run reports the message of the first failing expansion; every comment before it was expanded, and it and all later ones are untouched |
| `Comments.AllComments` | frontend/tools/web_search.py:1333-1360 | a URL without `xsec_token` fails with no comments; a failed top-level walk returns its partial list unexpanded; otherwise the result is that of `ExpandEach` |
| `MemoryVault.UserIdOf` | frontend/tools/memory.py:110-119 | a user id exists iff `__user__` is present and carries a non-empty `id` |
| `MemoryVault.SortByCreated` | frontend/tools/memory.py:133-136 | the sort orders by `created_at`, is a permutation, and keeps the store order of memories created at the same time |
| `MemoryVault.Recall` | frontend/tools/memory.py:110-145 | without a user id the reply is `User ID not provided.`; with no memories it is `No memory stored.`; otherwise line `i` is `"i. content"` of the `i`-th memory by creation time |
| `MemoryVault.Store.Insert` | frontend/tools/memory.py:208 | an accepted insert appends one new row with a fresh id; a refused one changes nothing |
| `MemoryVault.Partition` | frontend/tools/memory.py:206-212 | every input item lands in exactly one of the added and failed lists |
| `MemoryVault.AddMessage` | frontend/tools/memory.py:214-228 | the message is `Failed to add any memories.` exactly when nothing was added, `Successfully added N memories.` when all `N` were added, and `Added N memories, failed to add M memories.` when `N` were added and `M` refused |
| `MemoryVault.AddMessages` | frontend/tools/memory.py:214-228 | with every insert refused the message is `Failed to add any memories.`; with every insert accepted it is `Successfully added N memories.` |
| `MemoryVault.Add` | frontend/tools/memory.py:180-234 | without a user id nothing is stored; otherwise each item is inserted in order, the accepted ones become new rows, and the message depends on the two counts |
| `MemoryVault.Delete` | frontend/tools/memory.py:260-323 | without a user id, or with an empty store, the store is untouched and the fixed message is returned; otherwise the reply has one line per requested index, and the rows removed are those at valid positions of the snapshot sorted before the loop |
| `MemoryVault.DeleteEach` | frontend/tools/memory.py:289-316 | the loop's lines are one per index in request order, and it removes exactly the ids it names through the snapshot |
| `MemoryVault.DeleteOne` | frontend/tools/memory.py:292-316 | an index outside 1..n gives `Memory index i does not exist.` and leaves the store alone; a valid one acts on the snapshot row at `i-1` only |
| `MemoryVault.Store.DeleteById` | frontend/tools/memory.py:304 | a successful delete removes the rows with that id; a failed one changes nothing |
| `MemoryVault.DeleteFirstTwo` | frontend/tools/memory.py:288-301 | deleting positions 1 and 2 removes the first two memories of the snapshot, not the first and the third |
| `MemoryVault.DeleteOnlyOwn` | frontend/tools/memory.py:280-304 | deletions through a user's snapshot remove no row of another user |
| `MemoryVault.DeleteReplyLines` | frontend/tools/memory.py:323 | splitting the reply at line breaks gives back the response lines, one per request |
| `MemoryVault.Update` | frontend/tools/memory.py:353-427 | the same shape as `Delete`: a fixed message without a user or without memories; otherwise the requests are the list's items or, for a single dict, its keys; if none is of another type, one line per request, with replacements to the snapshot rows in request order; otherwise the call raises the first such request's `AttributeError` after applying the requests before it |
| `MemoryVault.UpdateEach` | frontend/tools/memory.py:380-420 | the loop applies the requests up to the first one of another type, as `Updated` does; without one its lines are one per request in order, with one it fails with that request's `AttributeError` text |
| `MemoryVault.FirstForeignAt` | frontend/tools/memory.py:380-394 | when every request before `i` is a dict or a `MemoryUpdate` and request `i` is not, `i` is the first request that raises |
| `MemoryVault.SingleDictRaises` | frontend/tools/memory.py:380-394 | a non-empty single dict as `updates` raises on its first key, a `str`: `'str' object has no attribute 'content'`, and no memory is updated |
| `MemoryVault.SingleUpdatesOne` | frontend/tools/memory.py:338-394 | read as a one-element list, a single valid request that succeeds updates that memory alone and reports one success line |
| `MemoryVault.UpdateOne` | frontend/tools/memory.py:380-420 | a malformed item gives `Invalid update item format: …`; an invalid index gives `Memory index i does not exist.`; in both cases the store is untouched; a valid index replaces the content of the snapshot row at `i-1` only |
| `MemoryVault.Store.UpdateById` | frontend/tools/memory.py:408 | a successful update replaces that row's content; a failed one changes nothing |
| `MemoryVault.UpdatedUntouched` | frontend/tools/memory.py:396-408 | a row that no successful request names keeps its content |
| `MemoryVault.UpdatedLastWins` | frontend/tools/memory.py:396-408 | of several successful requests for the same row, the last one's content stays |
| `MemoryVault.UpdateOnlyOwn` | frontend/tools/memory.py:371-408 | updates through a user's snapshot change no row of another user |
| `Reports.ClassifyMatches` | frontend/tools/exim_tools.py:31-42 | a name is filed as annual iff the annual pattern occurs in it, and as quarterly iff only the quarterly pattern occurs; the year is the four digits of the match and lies in 1000..2999 |
| `Reports.Classify` | frontend/tools/exim_tools.py:31-42 | a filed key comes from a match of its own pattern, with that match's year; a name is filed as a quarter only when the annual pattern does not occur in it |
| `Reports.PathJoinParts` | frontend/tools/exim_tools.py:38 | the stored path is the directory, then at most one `/`, then the file name |
| `Reports.FiledKeys` | frontend/tools/exim_tools.py:33-43 | a key is filed iff some listed file name classifies to it |
| `Reports.FiledLaterWins` | frontend/tools/exim_tools.py:38-42 | of several files filed under the same key, the one listed last wins |
| `Reports.ReportParser.constructor` | frontend/tools/exim_tools.py:27-43 | `report_dict` is the filing of the listing, in listing order |
| `Reports.TopThree` | frontend/tools/exim_tools.py:46-47 | `sorted(years)[-3:]` of distinct years is the three largest (all of them when fewer), in increasing order |
| `Reports.ReportParser.SelectReports` | frontend/tools/exim_tools.py:45-62 | the result is `Selection(report_dict, AsWritten)`: the annual reports of the last three years, then the newest quarter by `(year, label)` compared by code point and, when filed, the same quarter a year earlier |
| `Reports.CopyYears` | frontend/tools/exim_tools.py:48-51 | the dictionary comprehension over the selected years copies their annual entries, oldest first |
| `Reports.AddQuarters` | frontend/tools/exim_tools.py:52-61 | with no quarterly key the selection is unchanged; otherwise the newest quarter as written is added, then the same quarter one year earlier when it is filed |
| `Reports.Newest` | frontend/tools/exim_tools.py:53-57 | the calendar-newest quarter is one of the candidates and no candidate is later than it |
| `Reports.NewestIn` | frontend/tools/exim_tools.py:53-57 | the newest quarter in either order is one of the candidates |
| `Reports.NewestInLatest` | frontend/tools/exim_tools.py:53-57 | in either order, the newest quarter is later than every other candidate |
| `Reports.SelectionKinds` | frontend/tools/exim_tools.py:46-61 | the selection's annual years are `sorted(year_list)[-3:]` and its quarterly keys are the newest quarter and its year-earlier twin |
| `Reports.SelectionSubset` | frontend/tools/exim_tools.py:49-61 | in either quarter order, every selected key is filed and maps to the same path, and no key is selected twice |
| `Reports.SelectionKeys` | frontend/tools/exim_tools.py:48-61 | the selection lists the chosen annual keys, oldest first, then the chosen quarterly keys |
| `Reports.SelectionAnnual` | frontend/tools/exim_tools.py:46-51 | at most three annual reports are selected, those of the largest years |
| `Reports.SelectionQuarters` | frontend/tools/exim_tools.py:52-61 | with no quarterly files no quarter is selected; otherwise the newest filed quarter in the given order, followed by the same quarter a year earlier exactly when that one is filed |
| `Reports.NewestAsWritten` | frontend/tools/exim_tools.py:53-56 | the source's newest quarter is the maximum of `(year, label)` with the label compared by code point |
| `Reports.SecondQuarterOutranksThird` | frontend/tools/exim_tools.py:53-56 | with the second and third quarters of one year filed, the code-point order picks the second as newest, and the calendar order picks the third |
| `Reports.PeriodLess` | frontend/tools/exim_tools.py:54-55 | quarter labels compare as strings exactly as their numerals' code points do |
| `Reports.LaterAsWrittenTotal` | frontend/tools/exim_tools.py:54-55 | of two distinct quarter keys, one sorts after the other as written |
| `Reports.NewestOrdersDiffer` | frontend/tools/exim_tools.py:53-57 | the calendar and the code-point order pick different newest quarters iff the latest quarterly year has its second and third quarters but not its fourth; then the calendar picks the third and the code the second |
| `Reports.SelectionsDiffer` | frontend/tools/exim_tools.py:45-62 | the selection the code returns differs from the calendar one exactly in that case |
| `Reports.OpeningReport` | frontend/tools/exim_tools.py:102-116 | the opening balance comes from `("annual", year-1)` when it is loaded; otherwise the three subjects are `None` |
| `Reports.QuarterOpensLikeYear` | frontend/tools/exim_tools.py:103-106 | a quarter and the annual report of the same year open with the same balance |
| `Reports.OldestHasNoOpening` | frontend/tools/exim_tools.py:102-116 | only selected reports are loaded, so the oldest selected annual report has no opening balance |
| `Reports.ReportName` | frontend/tools/exim_tools.py:259-262 | the column name is the year's decimal digits, then `年`, then nothing for an annual report or the quarter's label |
| `Reports.ReportNameInjective` | frontend/tools/exim_tools.py:259-262 | the column names `Y年` and `Y年` + label are distinct for distinct keys |
| `Reports.SelectionNamesDistinct` | frontend/tools/exim_tools.py:259-263 | every selected report gets a column of its own |

## Left out

- The signing routine (`xhs_xs_xsc_56.js`) and the X-Ray trace-id routine (`xhs_xray.js`) run in an embedded JavaScript engine. Here the signer is a function parameter and the X-Ray id is a string parameter.
- `random.random()` is a parameter: a stream of draws in 0..15, one per trace-id character.
- HTTP, `response.json()` and `json.dumps` are not modelled. A page request is a record: `success`, `msg` and the fields of `data` the walker reads. The compact JSON text is the constructor `Requests.Compact` on the JSON value.
- The single-page request functions (`get_user_note_info`, `search_note`, `get_note_out_comment`, …) appear only through the request each walker sends (cursor, page number, feed state, target). Only the URL handling of `get_note_info` (`Urls.NoteInfoTarget`) is modelled. Their parameter dictionaries and endpoint paths are not.
- Unbounded looping on a cursor that never ends: the server is a finite script, and a walk that outlasts it has no outcome (`None`).
- `urllib.parse.urlparse` is modelled for the parts these calls read. Its `ValueError`s are not modelled: the one for a malformed IPv6 host, and the one `urlsplit` raises when the NFKC form of a non-ASCII network location contains `/`, `?`, `#`, `@` or `:`.
- Urls.UrlParse: recent Python versions strip leading C0 control characters and spaces from the URL and delete every tab, `\r` and `\n` before splitting it; this version-dependent cleaning is not modelled, so a URL holding such characters keeps them in its parts.
- Urls.SearchFilters: the walkers' page requests carry only the page number; the filter labels of `search_note` are modelled on their own, as the request's `filters` list.
- JSON values that are not objects where the source indexes them (for example a `data` that is `null`) are not modelled. The fields are present or absent.
- Walkers.UserAll, Walkers.NoteAllOutComment, Walkers.AllMessages, Comments.Comment.Expand: the `str()` that every cursor walker and the reply walk apply to a page's cursor (web_search.py lines 709, 792, 875, 1244, 1321, 1425, 1481, 1537) is not modelled; cursors are strings already.
- Requests.GenerateRequestParams: a failure of the JavaScript signer (web_search.py lines 368-371) is not modelled; the signer is a total function parameter.
- `general_search`, `deep_search`, `read_content`, the markdown and `datetime` formatting of `get_xhs_note`/`search_xhs_note`, `get_note_no_water_video`, and the remaining single-request endpoints are thin wrappers over unseen libraries or HTML scraping.
- The async event emitter and its status events in `memory.py` are not modelled.
- The Open WebUI `Memories` table is `MemoryVault.Store`. Whether each insert, delete or update succeeds is an oracle parameter. Pydantic parsing of an update item is reduced to parsed or malformed; any other Python value is a request of another type, known by its type name and by whether it has an `index` attribute (`MemoryVault.UpdateItem`).
- MemoryVault.Delete: a single integer in place of a list is passed as a one-element list, which is what the `isinstance` branch makes of it.
- MemoryVault.Add: every row one call inserts is stamped with the same `now`. `Memories.insert_new_memory`, which takes the time of each insert, is not part of this model, so rows of one call inserted across a clock tick are not distinguished.
- MemoryVault.Recall, MemoryVault.Add, MemoryVault.Delete, MemoryVault.Update: the JSON encoding of the reply (`json.dumps` with `ensure_ascii=False`) is the `Message` constructor, and the Python `repr` of the recalled list (memory.py line 145: quotes chosen per item, escapes) is the `Listing` constructor over the lines; neither text is spelled out.
- MemoryVault.Store, MemoryVault.SortByCreated: the order in which `Memories.get_memories_by_user_id` returns a user's rows is taken to be insertion order, with an updated row kept in its place; the database does not promise this. Since `sorted` is stable, memories with the same `created_at` (all rows of one `Add` call, here) are numbered in that assumed order, and `Recall`, `Delete` and `Update` rely on it.
- `os.listdir`, `pd.read_excel`, `load_reports` and `DataFrame` construction are not modelled: the file listing is a parameter, and "loaded" means "selected".
- The float indicator arithmetic of `get_account`/`calc_indicators` (`/1e8`, ratios, `round`, `%` formatting) is not modelled.
- Reports.OpeningReport: a key kind other than annual or quarter cannot be formed here, so the source's `return None` branch for it is not modelled.
- Reports.ClassifyMatches, Reports.Classify: Python's `\d` matches every Unicode decimal digit and `int()` converts it, so a name such as `2０２４年报` is filed under 2024; the model accepts the ASCII digits only and does not file such a name.

## Findings

| source | as written | input that shows it | evidently intended | confidence | as-written member | corrected member |
|---|---|---|---|---|---|---|
| frontend/tools/exim_tools.py:53-56 | the newest quarter is the maximum of `(year, label)` with the label compared as a string, and by code point 二 (U+4E8C) follows 三 (U+4E09) | files `2024二季报` and `2024三季报`: the second quarter is selected as newest | the latest quarter by calendar, here the third | medium; not executed | `Reports.ReportParser.SelectReports`, `Reports.NewestAsWritten`, `Reports.SecondQuarterOutranksThird`, `Reports.SelectionsDiffer` | `Reports.Newest`, `Reports.SelectionQuarters` |
| frontend/tools/memory.py:380-394 | the docstring (line 338) allows a single dict, but the loop then iterates over its keys, and `update_item.content` on a `str` key raises | `updates == {"index": 1, "content": "x"}` raises `'str' object has no attribute 'content'` and updates nothing | a single dict updates as a one-element list would | medium; not executed | `MemoryVault.Update`, `MemoryVault.SingleDictRaises` | `MemoryVault.IntendedRequests`, `MemoryVault.SingleUpdatesOne` |
