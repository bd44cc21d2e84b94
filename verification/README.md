# Bili Monitor core, modelled in Dafny

Bili Monitor is a browser app that tracks a list of Bilibili accounts
("UPs"). A polling service refreshes each tracked account's cached posts on a
timer, pops a desktop notification when an account has a post newer than its
cached head, and refreshes the comment threads of recent posts on a second
timer. The service also back-fills the replies of comments that arrived
without any. The API client signs requests with WBI: it mixes two keys from
the nav endpoint, sorts and sanitises the parameters, and appends an md5
digest. Then it maps the JSON responses to posts, comments and accounts.
Settings and the tracked-account list live in local storage. Three views
compute something themselves: the comment thread's "more replies" hint, the
image viewer's wrap-around index, and the post card's image list and
headline.

The model is purely functional:

- Each HTTP response is an input datatype.
- Each fetch made by a polling cycle is a function parameter: mid → posts,
  (oid, type) → comments, and (oid, type, root) → replies.
- The clock is a millisecond count.
- `md5` and the `URLSearchParams` encoder are function parameters.
- Everything a cycle does to the outside world is returned as an ordered
  list of effects: fetches, desktop notices, the save, and the listener call.

Modules:

| file | module | models |
|---|---|---|
| options.dfy | `Options` | optional values (`undefined`) and JavaScript truthiness of an optional flag |
| strings.dfy | `Strings` | prefix test, code-point string order, decimal rendering and parsing of integers |
| types.dfy | `Types` | accounts, settings, posts, comments, the post map, the headline fallback |
| storage.dfy | `Storage` | default settings, settings save/load, tracked-account add/remove |
| wbi.dfy | `Wbi` | mixin-key table and key, parameter sanitising, sorting, `wts`, `w_rid` |
| api.dfy | `Api` | `ensureHttps`, the WBI key cache, and the search, feed, comment and sub-reply mappers |
| polling.dfy | `Polling` | listeners, timers, the dynamics cycle and the comment cycle |
| comment_section.dfy | `CommentSection` | rendering a comment thread and its "more replies" hint |
| image_preview.dfy | `ImagePreview` | next/previous index and what the viewer renders |
| dynamic_card.dfy | `DynamicCard` | a card's image list, thumbnail, count badge and headline |

## Model

| member | source | states |
|---|---|---|
| Storage.GetSettings | src/lib/storage.ts:8-17 | nothing saved gives the defaults, whose cookie is empty; a saved value is returned as saved |
| Storage.SaveThenGetSettings | src/lib/storage.ts:14-21 | loading after saving `s` gives back `s` |
| Storage.FindByMid | src/lib/storage.ts:34 | finds an entry exactly when one with that mid exists, and what it finds has that mid |
| Storage.AddUP | src/lib/storage.ts:32-37 | an account whose mid is already tracked leaves the list unchanged; otherwise the account is appended after the existing entries; afterwards the mid is tracked, and unique mids stay unique |
| Storage.AddUPIdempotent | src/lib/storage.ts:32-37 | adding the same account twice is adding it once |
| Storage.RemoveUP | src/lib/storage.ts:39-42 | every entry of the result was in the list and has a different mid, and the result is no longer than the list |
| Storage.RemoveUPKeepsOthers | src/lib/storage.ts:41 | every entry under a different mid survives the removal |
| Storage.RemoveUPKeepsUnique | src/lib/storage.ts:39-42 | removing keeps mids unique |
| Storage.RemoveUPKeepsOrder | src/lib/storage.ts:41 | removal distributes over concatenation, so survivors keep their relative order |
| Storage.RemoveUPAbsent | src/lib/storage.ts:41 | removing an untracked mid changes nothing |
| Storage.RemoveUPIdempotent | src/lib/storage.ts:39-42 | removing twice is removing once |
| Storage.AddThenRemoveUP | src/lib/storage.ts:32-42 | adding an untracked account and then removing its mid restores the list |
| Strings.StrLtTransitive | src/lib/api.ts:17-18 | the string order used by `sort()` is transitive |
| Strings.StrLtTotal | src/lib/api.ts:17-18 | any two distinct strings are ordered one way or the other |
| Strings.IntToDecimalRoundTrip | src/lib/api.ts:20 | `toString()` of an integer is decimal text that parses back to the integer |
| Wbi.EncThenDec | src/lib/api.ts:5-10 | every table entry is below 64, and the inverse table maps it back to its position |
| Wbi.DecThenEnc | src/lib/api.ts:5-10 | every index 0..63 occurs in the table, at the position the inverse table gives |
| Wbi.MixinKeyEncTabIsPermutation | src/lib/api.ts:5-10 | the 64-entry table has no repeated entry and holds every index 0..63 |
| Wbi.GetMixinKey | src/lib/api.ts:12 | the key has at most 32 characters, all taken from the input; for an input of 64 or more characters it has exactly 32, and character i is the input at table position i |
| Wbi.Strip | src/lib/api.ts:22 | the result has none of `!'()*` and keeps every other character of the input |
| Wbi.StripIdempotent | src/lib/api.ts:22 | stripping twice is stripping once |
| Wbi.StripConcat | src/lib/api.ts:22 | stripping distributes over concatenation |
| Wbi.Put | src/lib/api.ts:16 | overwrites the value of an existing key in place, or appends a new key at the end; every other entry is kept |
| Wbi.SortByKeyAscending | src/lib/api.ts:17-18 | sorting entries with distinct keys puts the keys in strictly ascending order |
| Wbi.SortedParams | src/lib/api.ts:16-25 | the sorted parameters have ascending keys and sanitised values |
| Wbi.SortedParamsKeys | src/lib/api.ts:16-19 | the output keys are the input keys plus `wts` |
| Wbi.SortedParamsTimestamp | src/lib/api.ts:16 | `wts` is present once, holding the rounded clock in seconds, and it overrides a caller-supplied `wts` |
| Wbi.SortedParamsValues | src/lib/api.ts:20-23 | every input entry other than `wts` appears with its value stringified and stripped |
| Wbi.EncWbi | src/lib/api.ts:14-30 | the output is the sorted parameters followed by `w_rid`, the md5 of their encoded query plus the mixin key |
| Api.EnsureHttps | src/lib/api.ts:52-55 | empty stays empty; a `//` URL gets `https:` in front; any other URL is unchanged; the result never starts with `//` |
| Api.EnsureHttpsIdempotent | src/lib/api.ts:52-55 | applying it twice is applying it once |
| Api.LastSegment | src/lib/api.ts:43-44 | the result is the longest suffix of the URL that has no `/` |
| Api.BeforeFirstDot | src/lib/api.ts:43-44 | the result is the longest prefix of the segment that has no `.` |
| Api.LastSegmentAfterSlash | src/lib/api.ts:43-44 | the segment after the last `/` is what `split('/').pop()` returns |
| Api.BeforeFirstDotOf | src/lib/api.ts:43-44 | the text before the first `.` is what `split('.')[0]` returns |
| Api.KeyFromUrlParts | src/lib/api.ts:43-44 | the key of `<dir>/<name>.<ext>` is `name`, when `name` has no `/` or `.` and `ext` has no `/` |
| Api.RefreshWbiKeys | src/lib/api.ts:36-50 | a failed nav request leaves the cache unchanged; a successful one stores the cookie and the two keys cut from `img_url` and `sub_url`, neither containing a `.` |
| Api.EnsureKeys | src/lib/api.ts:36-64 | with keys cached for the same cookie nothing is refetched; otherwise the cache is exactly what `refreshWbiKeys` leaves: on success the keys cut from the two URLs and the new cookie, on failure the old cache; `lastCookie` changes only on a successful refresh |
| Api.EnsureKeysStable | src/lib/api.ts:36-50 | after a successful refresh, further requests with the same cookie reuse the keys |
| Api.FailedRefreshKeepsStaleKeys | src/lib/api.ts:46-49 | a failed refresh for a new cookie keeps the old keys, so the next request tries again |
| Api.SignParams | src/lib/api.ts:72 | parameters go unsigned exactly when no keys are cached; signed parameters end in `w_rid` |
| Api.MapSearchItem | src/lib/api.ts:86-90 | the mid is the decimal text of the numeric id, and the avatar goes through `ensureHttps` |
| Api.SearchUPs | src/lib/api.ts:83-94 | a failure, a non-zero code or a missing result gives no accounts; otherwise one account per result, in order |
| Api.BodyByKind | src/lib/api.ts:162-183 | an article takes its title (or empty), summary text and pictures; a video its title, description and cover; a picture post its text and pictures; a missing type object leaves every field empty; only a video has a cover, videos have no pictures, picture posts have no title |
| Api.MapDynamicItem | src/lib/api.ts:157-196 | the id, time and mid come from the item; title, description, cover and images are the item's body; the link is the post URL; the comment oid is a non-empty `comment_id_str`, else the id; the comment type is a non-zero `comment_type`, else 17 |
| Api.FetchDynamics | src/lib/api.ts:155-200 | an error, a non-zero code or missing items give `[]`; otherwise one post per item, in order, none carrying comments |
| Api.MapReply | src/lib/api.ts:237-247 | every field is copied from the response node, the pin flag is as given, the root is the one passed in or else the node's own id, and each nested reply is the mapped node under that root |
| Api.MapReplyRooted | src/lib/api.ts:237-247 | under a given root every node of the mapped thread carries that root, and the thread keeps the response's shape |
| Api.TopLevelRooted | src/lib/api.ts:245-246 | a top-level comment is its own root, and its nested replies inherit its id |
| Api.FetchComments | src/lib/api.ts:235-257 | a non-zero code gives `[]`; otherwise element 0 is the mapped top comment of the upper when present, followed by each mapped reply in order; only that first one is pinned |
| Api.FetchCommentsRooted | src/lib/api.ts:249-254 | every returned comment is the root of its own thread |
| Api.MapSubReply | src/lib/api.ts:280-289 | the fields are copied from the response node, nested replies are mapped node by node, and every node carries the requested root, no pinned flag and no read mark |
| Api.FetchSubReplies | src/lib/api.ts:278-295 | a non-zero code gives `[]`; otherwise comment i is reply i mapped under the requested root |
| Types.Headline | src/components/DynamicCard.tsx:60 | the headline is the title, or the description when the title is empty |
| Polling.Subscribe | src/lib/polling.ts:19-20 | adds the listener and changes nothing else |
| Polling.Unsubscribe | src/lib/polling.ts:21 | removes exactly that listener |
| Polling.SubscribeThenUnsubscribe | src/lib/polling.ts:19-22 | unsubscribing a fresh listener restores the service |
| Polling.Start | src/lib/polling.ts:44-65 | each timer is armed exactly when its polling is enabled with a positive interval, with period minutes × 60000 |
| Polling.Stop | src/lib/polling.ts:33-42 | both slots are emptied and the intervals they held are cleared |
| Polling.RestartTidy | src/lib/polling.ts:28-31 | after `restart` each kind runs at most one interval, armed exactly when enabled |
| Polling.StopTidy | src/lib/polling.ts:33-42 | from a tidy service `stop` leaves no interval running |
| Polling.Construct | src/lib/polling.ts:14-17 | the constructed service is tidy |
| Polling.AppMountLeaksTimer | src/lib/polling.ts:44-57 | the second `start` at mount leaves two dynamics intervals, and one keeps firing after polling is disabled |
| Polling.SafeStart | src/lib/polling.ts:44-65 | a `start` that clears a slot before re-arming it keeps the service tidy |
| Polling.AppMountSafeTidy | src/lib/polling.ts:28-65 | with that `start`, mounting leaves one interval per kind and disabling stops it |
| Polling.MergeAccount | src/lib/polling.ts:86-122 | one fetch; a notice exactly when notifications are on and the fetched head is strictly newer than the cached one or nothing is cached; the list is replaced exactly when the fetch is non-empty; nothing else is emitted, so no save and no listener call |
| Polling.MergeAccounts | src/lib/polling.ts:82-127 | one fetch per tracked account, in order; changed exactly when some fetch is non-empty; only fetches and notices are emitted |
| Polling.MergeAccountsKeys | src/lib/polling.ts:121 | after the loop the map holds the cached accounts and the refreshed ones |
| Polling.MergeAccountsRefreshed | src/lib/polling.ts:121 | a refreshed account holds exactly its fetched list |
| Polling.MergeAccountsUntouched | src/lib/polling.ts:87 | an account whose fetch came back empty keeps its cached list |
| Polling.MergeAccountsNotices | src/lib/polling.ts:108-118 | no more notices than tracked accounts, and none when notifications are off |
| Polling.MergeAccountsExactNotices | src/lib/polling.ts:108-118 | with unique mids the notices are exactly those of the reference list built from the map as it was before the cycle |
| Polling.Conclude | src/lib/polling.ts:129-132 | after a loop that emits neither saves nor listener calls: one save and one listener call, the call last, if it changed something, and otherwise none; every other kind of effect is the loop's |
| Polling.DynamicsPass | src/lib/polling.ts:77-132 | the map is saved once and the listeners are called once, last, if some fetch was non-empty, and otherwise neither; one dynamics fetch per account in order; no comment fetches |
| Polling.PollDynamics | src/lib/polling.ts:71-136 | with the busy flag set or no cookie nothing happens; otherwise the loop runs, and the busy flag ends as it started |
| Polling.PollDynamicsIdempotent | src/lib/polling.ts:108-122 | a second cycle with the same fetch results leaves the map as it was and sends no notice |
| Polling.NewPostMerge | src/lib/polling.ts:86-122 | in the scenario below, the account loop stores the fetched list and sends one notice naming the account with the newest title |
| Polling.NewPostScenario | src/lib/polling.ts:108-132 | a cache of one read post plus a fetch of three posts gives the fetched list, the read mark dropped, one notice for the newest post, a save and a listener call |
| Polling.DynamicsCycleDropsComments | src/lib/polling.ts:121 | a refreshed account's posts come back with no comments |
| Polling.RecentWindow | src/lib/polling.ts:147-157 | a post is inside the window exactly when it is no older than the range; a post exactly at the edge is kept |
| Polling.RootFor | src/lib/polling.ts:167 | the root asked for is the non-empty `rootId`, or else the comment's id |
| Polling.Backfilled | src/lib/polling.ts:165-170 | only `replies` changes; a comment needing no back-fill is untouched; a non-empty fetch becomes its replies; a comment still needs back-fill exactly when it needed it and the fetch came back empty |
| Polling.SubFetches | src/lib/polling.ts:164-168 | a sub-reply fetch is issued for every comment that reports replies but has none, against the post's thread and that comment's root, and every fetch is one of these |
| Polling.SubFetchesConcat | src/lib/polling.ts:164-168 | the fetches follow comment order: those for a prefix of the list come first |
| Polling.RefreshPost | src/lib/polling.ts:161-189 | a fetched post gets the back-filled fetched comments, even when there are none, and nothing else changes |
| Polling.Visit | src/lib/polling.ts:155-189 | a post inside the window gets the fetched comment list, back-filled, and nothing else changes; any other post is left as it was |
| Polling.RefreshList | src/lib/polling.ts:155-195 | the list keeps its length, and each post is visited in place |
| Polling.RefreshListEffects | src/lib/polling.ts:158-168 | one comment fetch per recent post, in list order; the sub-reply fetches are those of each recent post's fetched thread, in order; no save or notice inside the loop |
| Polling.PostEffects | src/lib/polling.ts:160-171 | exactly one comment fetch, for the post, and exactly the sub-reply fetches its fetched thread needs, in order; nothing else |
| Polling.RefreshAccountsFetches | src/lib/polling.ts:150-196 | the sweep's comment fetches and sub-reply fetches are those of each account in enumeration order |
| Polling.RefreshListChanged | src/lib/polling.ts:155-190 | the pass reports a change exactly when some post is inside the window |
| Polling.RefreshListIdempotent | src/lib/polling.ts:155-190 | refreshing a refreshed list with the same results changes nothing |
| Polling.RefreshAccountsVisited | src/lib/polling.ts:150-155 | every visited account holds its refreshed list |
| Polling.RefreshAccountsSkipped | src/lib/polling.ts:150 | an account the loop does not visit keeps its list |
| Polling.RefreshAccountsChanged | src/lib/polling.ts:190 | the loop reports a change exactly when some visited account has a recent post |
| Polling.CommentsPass | src/lib/polling.ts:144-201 | every cached account is kept; one save and one listener call, the call last, if some cached post is recent, and otherwise neither; no notices and no dynamics fetches; the comment and sub-reply fetches of every account in enumeration order |
| Polling.PollComments | src/lib/polling.ts:138-205 | with the busy flag set or no cookie nothing happens; otherwise the loop runs, and the busy flag ends as it started |
| Polling.PollCommentsPost | src/lib/polling.ts:150-190 | after a comment cycle each recent cached post holds its fetched, back-filled comments with every other field unchanged, and each older post is unchanged |
| Polling.PollCommentsIdempotent | src/lib/polling.ts:138-205 | a second comment cycle at the same instant with the same results, in any key order, leaves the map unchanged |
| CommentSection.RenderItem | src/components/CommentSection.tsx:22-54 | author and text are the comment's; nested view i is reply i rendered as a sub-reply, none showing a hint; the hint shows exactly for a top-level comment with a non-zero count above its replies, and it counts `replyCount - replies` > 0 |
| CommentSection.RenderSection | src/components/CommentSection.tsx:60-69 | an absent or empty list renders the placeholder; otherwise one top-level item per comment |
| CommentSection.UnfilledShowsAll | src/components/CommentSection.tsx:23 | a comment the back-fill could not fill shows all its replies as still to come |
| CommentSection.PartialThreadKeepsHint | src/lib/polling.ts:165 | a comment with some but not all of its replies is not back-filled, and the hint counts the rest |
| CommentSection.FilledThreadHidesHint | src/components/CommentSection.tsx:23 | a back-fill that fetched at least the announced count hides the hint |
| CommentSection.PinnedBadgeOnlyFirst | src/components/CommentSection.tsx:32 | on a fetched list the pinned badge appears only first, and only with a top comment |
| CommentSection.EmptyFetchShowsPlaceholder | src/components/CommentSection.tsx:61 | after a comment cycle a post shows the placeholder exactly when its comment fetch came back empty |
| ImagePreview.Next | src/components/ImagePreview.tsx:20-23 | from any index ≥ 0 the result lies in [0, n); it moves one on and wraps from the last image to the first; no images gives NaN |
| ImagePreview.Prev | src/components/ImagePreview.tsx:25-28 | from any index ≥ 0 the result lies in [0, n); it moves one back and wraps from the first image to the last |
| ImagePreview.NextPrevInverse | src/components/ImagePreview.tsx:22-27 | previous undoes next and next undoes previous |
| ImagePreview.SingleImageStays | src/components/ImagePreview.tsx:22-27 | with one image both map to 0 |
| ImagePreview.ForwardVisitsAll | src/components/ImagePreview.tsx:22 | j clicks from the first image show image j, and n clicks return to the start |
| ImagePreview.Step | src/components/ImagePreview.tsx:18-57 | opening and closing only toggle the modal and keep the index; the arrows move the index only while the modal is open with several images; an index on an image stays on one |
| ImagePreview.RunKeepsIndexInRange | src/components/ImagePreview.tsx:18-28 | whatever the user does, the index stays on an image |
| ImagePreview.ReopenKeepsSavedIndex | src/components/ImagePreview.tsx:18 | open, next, close and open again with initial index 0 leave the viewer on image 1 |
| ImagePreview.SafeStep | src/components/ImagePreview.tsx:18 | with a reset on opening, opening shows the initial index given; every other action is as before |
| ImagePreview.SafeReopenShowsInitial | src/components/ImagePreview.tsx:18 | with the reset, every opening shows its initial index whatever came before |
| ImagePreview.Render | src/components/ImagePreview.tsx:30-70 | no images renders nothing; arrows and counter appear exactly when n > 1; the image shown is the one at the index |
| DynamicCard.Images | src/components/DynamicCard.tsx:17 | a non-empty cover is put first and makes the list one longer; otherwise the list is the post's images |
| DynamicCard.RenderCard | src/components/DynamicCard.tsx:36-61 | the thumbnail shows exactly when the list is non-empty, using element 0; the badge shows exactly when there are more than one, with the count |
| DynamicCard.ThumbnailOpensPreview | src/components/DynamicCard.tsx:36-71 | on the first click on the thumbnail the viewer opens on it, and has arrows exactly when the card shows a badge |
| DynamicCard.ReopenedPreviewSkipsThumbnail | src/components/DynamicCard.tsx:20-24 | a later click on the thumbnail, after a step forward and a close, reopens the viewer on the second image |
| DynamicCard.SafeThumbnailAlwaysOpensPreview | src/components/DynamicCard.tsx:20-24 | with the viewer reset on opening, every click on the thumbnail opens it on the thumbnail, whatever came before |
| DynamicCard.FeedCardImages | src/components/DynamicCard.tsx:17 | a feed post's card shows the video cover alone, or else the post's pictures |

## Left out

- HTTP and the browser: axios requests, the vite dev proxy, and the
  Notification API. Responses are inputs. A notification is an effect. The
  browser's permission is a boolean parameter.
- `md5`, the `URLSearchParams` encoding and `Date.now` are parameters. The
  clock is an integer count of milliseconds.
- Timers and async interleaving. An interval is a handle in a set of live
  handles. A cycle runs atomically between its guard and its `finally`.
  The lost update between the dynamics snapshot (src/lib/polling.ts:79) and
  a concurrent comment save (src/lib/polling.ts:199) is not modelled.
- The post-map store. `getStoredDynamics`/`saveStoredDynamics` are imported
  by src/lib/polling.ts:1, but their definition is not part of this model.
  The map is a value passed in, and the save is an effect. `localStorage`
  and JSON are taken to round-trip.
- `for (const mid in dynamicsMap)` visits keys in JavaScript property order.
  The model takes that order as an input listing each key once. The final
  map does not depend on it.
- A throw inside the per-account `try` of `pollDynamics`. `fetchDynamics`,
  `fetchComments` and `fetchSubReplies` catch their own errors and return
  `[]`, so a fetch never reaches the cycles' `catch` blocks. But the `try` at
  src/lib/polling.ts:85-126 also wraps `Notification.permission` and
  `new Notification(...)` (src/lib/polling.ts:111-117). Where that API is
  missing or its constructor throws, the `catch` runs before
  `currentDynamicsMap[up.mid] = newDynamics` (src/lib/polling.ts:121). That
  account's list then stays stale, and its change is not saved, on every
  cycle in which it has a newer post and notifications are on. The model
  takes the Notification API as never throwing. The comment cycle's `try`
  (src/lib/polling.ts:160-194) wraps only the two fetchers and plain
  property reads, so its `catch` never runs.
- React rendering beyond the listed computations. This covers `App.tsx`
  (except the `start()` call in the Findings), `Modal.tsx`, `Sidebar.tsx`,
  `SettingsPage.tsx`, dayjs date formatting, CSS classes and click handlers.
- `fetchUPInfo`, `src/lib/mock.ts` and `scripts/upload-oss.mjs`: outside
  the polling core.
- The constant request parameters (`features`, `web_location`, page sizes)
  and headers. They do not affect any modelled result.
- Fractional numbers. Intervals, the comment range and timestamps are
  integers. `Math.round(ms / 1000)` is modelled for non-negative clocks.
- UTF-16. A model string is a sequence of Unicode scalar values (code
  points); a JavaScript string is a sequence of UTF-16 code units. The two
  agree on text inside the Basic Multilingual Plane. For a character outside
  it, written as a surrogate pair in JavaScript, the model differs in two
  places: `orig[n]` in `getMixinKey` indexes code units, and `sort()`
  compares code units, which can order such a character below one in
  U+E000..U+FFFF where the model orders it above. Surrogate pairs are not
  modelled.
- Read markers and `isRead` merging, webhook push, detection of the user's
  own comments, and carrying comments over when a dynamics cycle replaces a
  list. None of these exists in the code. A dynamics cycle replaces the list
  wholesale (Polling.DynamicsCycleDropsComments), and a read mark does not
  survive a refresh (Polling.NewPostScenario).
- The back-fill condition. The code back-fills only a comment whose replies
  are absent or empty. It does not back-fill one that has fewer replies
  than its count (CommentSection.PartialThreadKeepsHint).
- `forceRefreshDynamics` only awaits `pollDynamics`, so
  Polling.PollDynamics models both.
- Wbi.Put: keys are kept in insertion order. JavaScript enumerates integer-like keys ("0", "10") first, in numeric order, so for such keys the object built by `reduce` and the query string would differ. No caller passes such a key, and they are not modelled.
- Api.SignParams: states only that signed parameters end in `w_rid`.
  Their full content is stated by Wbi.EncWbi.
- Wbi.EncWbi: when the caller passes its own `w_rid`, the model states only
  the output keys, not the value.

## Findings

| source | as written | input that shows it | evidently intended | confidence | as-written member | corrected member |
|---|---|---|---|---|---|---|
| src/lib/polling.ts:44-57 | The constructor calls `restart()`, which arms the dynamics interval. App.tsx:31 then calls `start()`, which arms a second interval and overwrites the slot without clearing the first. `stop`/`restart` clear only the interval in the slot. | Settings with dynamics polling enabled and a positive interval: mount the app, then disable polling and `restart`. One interval keeps firing `pollDynamics`. | At most one interval of each kind runs, and disabling polling stops it. | medium, not executed | Polling.AppMountLeaksTimer | Polling.AppMountSafeTidy |
| src/components/ImagePreview.tsx:18 | `useState(initialIndex)` reads the initial index once, when the viewer mounts with its card (src/components/DynamicCard.tsx:66-71). Closing only hides the modal, and `openPreview(e, 0)` only sets the card's own index, so a reopened viewer shows the index it was left on. | A post with two images: click the thumbnail, click next, close, click the thumbnail again. The viewer shows image 2 of 2. | Each click on the thumbnail opens the viewer on the thumbnail, the index `openPreview` passes. | medium, not executed | DynamicCard.ReopenedPreviewSkipsThumbnail | DynamicCard.SafeThumbnailAlwaysOpensPreview |
