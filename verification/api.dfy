/** The pure parts of the remote-API client: URL normalising, WBI key
    extraction and caching, and the mapping of each response into the
    records the monitor stores. HTTP itself is left out: every response
    arrives as a value, `None` standing for a request that threw. */
module Api {
  import opened Options
  import opened Strings
  import opened Types
  import Wbi

  /** Protocol-relative URLs (`//host/...`) become `https:` URLs. */
  function EnsureHttps(url: string): (r: string)
    ensures url == "" ==> r == ""
    ensures r == url || r == "https:" + url
    ensures !StartsWith(r, "//")
    ensures StartsWith(url, "//") ==> StartsWith(r, "https://")
  {
    if url == "" then url
    else if StartsWith(url, "//") then
      assert ("https:" + url)[..2] == "ht";
      "https:" + url
    else url
  }

  lemma EnsureHttpsIdempotent(url: string)
    ensures EnsureHttps(EnsureHttps(url)) == EnsureHttps(url)
  {
  }

  /** The text after the last `/` (`s.split('/').pop()`). */
  function LastSegment(s: string): (seg: string)
    ensures |seg| <= |s| && s[|s| - |seg|..] == seg
    ensures '/' !in seg
    ensures |seg| < |s| ==> s[|s| - |seg| - 1] == '/'
  {
    if |s| == 0 || s[|s| - 1] == '/' then ""
    else
      var seg := LastSegment(s[..|s| - 1]) + [s[|s| - 1]];
      assert s[|s| - |seg|..] == s[..|s| - 1][|s| - |seg|..] + [s[|s| - 1]];
      seg
  }

  /** The text before the first `.` (`s.split('.')[0]`). */
  function BeforeFirstDot(s: string): (head: string)
    ensures |head| <= |s| && s[..|head|] == head
    ensures '.' !in head
    ensures |head| < |s| ==> s[|head|] == '.'
  {
    if |s| == 0 || s[0] == '.' then ""
    else [s[0]] + BeforeFirstDot(s[1..])
  }

  /** A WBI key from its nav image URL: the file name without extension. */
  function KeyFromUrl(url: string): (key: string)
    ensures '/' !in key && '.' !in key
  {
    BeforeFirstDot(LastSegment(url))
  }

  lemma {:induction false} LastSegmentAfterSlash(dir: string, tail: string)
    requires '/' !in tail
    ensures LastSegment(dir + "/" + tail) == tail
    decreases |tail|
  {
    var s := dir + "/" + tail;
    if |tail| == 0 {
      assert s[|s| - 1] == '/';
    } else {
      var init := tail[..|tail| - 1];
      assert s[..|s| - 1] == dir + "/" + init;
      assert '/' !in init by {
        forall i | 0 <= i < |init| ensures init[i] != '/' { assert init[i] == tail[i]; }
      }
      LastSegmentAfterSlash(dir, init);
      assert tail == init + [tail[|tail| - 1]];
    }
  }

  lemma {:induction false} BeforeFirstDotOf(name: string, rest: string)
    requires '.' !in name
    ensures BeforeFirstDot(name + "." + rest) == name
    decreases |name|
  {
    var s := name + "." + rest;
    if |name| == 0 {
      assert s[0] == '.';
    } else {
      assert s[1..] == name[1..] + "." + rest;
      assert '.' !in name[1..];
      BeforeFirstDotOf(name[1..], rest);
      assert name == [name[0]] + name[1..];
    }
  }

  /** The key of `<dir>/<name>.<ext>` is `name`, whatever the directory and
      extension. */
  lemma KeyFromUrlParts(dir: string, name: string, ext: string)
    requires '/' !in name && '.' !in name && '/' !in ext
    ensures KeyFromUrl(dir + "/" + name + "." + ext) == name
  {
    assert dir + "/" + name + "." + ext == dir + "/" + (name + "." + ext);
    LastSegmentAfterSlash(dir, name + "." + ext);
    BeforeFirstDotOf(name, ext);
  }

  datatype WbiKeys = WbiKeys(imgKey: string, subKey: string)

  /** The module-level key cache: the keys, if ever fetched, and the cookie
      they were last fetched with. */
  datatype WbiCache = WbiCache(keys: Option<WbiKeys>, lastCookie: string)

  const InitialCache: WbiCache := WbiCache(None, "")

  /** The `wbi_img` URLs of a nav response; `None` when the request threw or
      the fields were missing. */
  datatype NavImages = NavImages(imgUrl: string, subUrl: string)

  predicate NeedsRefresh(c: WbiCache, cookie: string) {
    c.keys.None? || cookie != c.lastCookie
  }

  /** `refreshWbiKeys`: on success both keys and the cookie are replaced; on
      failure the cache, including any older keys, is kept. */
  function RefreshWbiKeys(c: WbiCache, cookie: string, nav: Option<NavImages>): (c': WbiCache)
    ensures nav.None? ==> c' == c
    ensures nav.Some? ==> c'.lastCookie == cookie && c'.keys.Some?
    ensures nav.Some? ==> '.' !in c'.keys.value.imgKey && '.' !in c'.keys.value.subKey
    ensures nav.Some? ==> c'.keys == Some(WbiKeys(KeyFromUrl(nav.value.imgUrl), KeyFromUrl(nav.value.subUrl)))
  {
    match nav
    case None => c
    case Some(n) => WbiCache(Some(WbiKeys(KeyFromUrl(n.imgUrl), KeyFromUrl(n.subUrl))), cookie)
  }

  /** The guard every signed request runs first:
      `if (!wbiKeys || cookie !== lastCookie) await refreshWbiKeys(cookie)`. */
  function EnsureKeys(c: WbiCache, cookie: string, nav: Option<NavImages>): (c': WbiCache)
    ensures !NeedsRefresh(c, cookie) ==> c' == c
    ensures c'.lastCookie != c.lastCookie ==> c'.lastCookie == cookie && nav.Some?
    ensures c'.keys.Some? ==> c.keys.Some? || nav.Some?
    ensures nav.Some? ==> !NeedsRefresh(c', cookie)
    ensures NeedsRefresh(c, cookie) ==> c' == RefreshWbiKeys(c, cookie, nav)
    ensures NeedsRefresh(c, cookie) && nav.Some? ==>
              c' == WbiCache(Some(WbiKeys(KeyFromUrl(nav.value.imgUrl), KeyFromUrl(nav.value.subUrl))), cookie)
    ensures nav.None? ==> c' == c
  {
    if NeedsRefresh(c, cookie) then RefreshWbiKeys(c, cookie, nav) else c
  }

  /** Once keys were fetched for a cookie, further requests with that cookie
      reuse them whatever the nav endpoint would answer. */
  lemma EnsureKeysStable(c: WbiCache, cookie: string, nav1: Option<NavImages>, nav2: Option<NavImages>)
    requires nav1.Some?
    ensures EnsureKeys(EnsureKeys(c, cookie, nav1), cookie, nav2) == EnsureKeys(c, cookie, nav1)
  {
  }

  /** A failed refresh for a new cookie leaves the old cookie's keys in use. */
  lemma FailedRefreshKeepsStaleKeys(c: WbiCache, cookie: string)
    requires c.keys.Some? && cookie != c.lastCookie
    ensures EnsureKeys(c, cookie, None).keys == c.keys
    ensures NeedsRefresh(EnsureKeys(c, cookie, None), cookie)
  {
  }

  /** Query parameters as sent: signed when keys are cached, as given otherwise. */
  datatype Query = Signed(pairs: seq<(string, string)>) | Unsigned(params: Wbi.Params)

  /** `wbiKeys ? encWbi(params, img_key, sub_key) : params`. */
  function SignParams(c: WbiCache, params: Wbi.Params, nowMs: nat,
                      encode: seq<(string, string)> -> string, md5: string -> string): (q: Query)
    requires Wbi.DistinctKeys(params)
    ensures q.Unsigned? <==> c.keys.None?
    ensures q.Unsigned? ==> q.params == params
    ensures q.Signed? && "w_rid" !in Wbi.Keys(params) ==>
              |q.pairs| > 0 && q.pairs[|q.pairs| - 1].0 == "w_rid"
  {
    match c.keys
    case None => Unsigned(params)
    case Some(k) => Signed(Wbi.EncWbi(params, k.imgKey, k.subKey, nowMs, encode, md5))
  }

  // ---- search results ----

  datatype SearchItem = SearchItem(mid: int, uname: string, upic: string)
  datatype SearchResponse = SearchResponse(code: int, result: Option<seq<SearchItem>>)

  function MapSearchItem(item: SearchItem): (up: UP)
    ensures IsDecimal(up.mid) && ParseInt(up.mid) == item.mid
    ensures up.name == item.uname
    ensures up.face == EnsureHttps(item.upic)
  {
    IntToDecimalRoundTrip(item.mid);
    UP(IntToDecimal(item.mid), item.uname, EnsureHttps(item.upic))
  }

  /** The accounts of a user search: none on a failed request, a non-zero
      code or a missing result list; otherwise one per result, in order. */
  function SearchUPs(resp: Option<SearchResponse>): (ups: seq<UP>)
    ensures resp.None? || resp.value.code != 0 || resp.value.result.None? ==> ups == []
    ensures resp.Some? && resp.value.code == 0 && resp.value.result.Some? ==>
              |ups| == |resp.value.result.value| &&
              forall i :: 0 <= i < |ups| ==> ups[i] == MapSearchItem(resp.value.result.value[i])
  {
    match resp
    case None => []
    case Some(r) =>
      if r.code != 0 then []
      else
        var items := r.result.GetOr([]);
        seq(|items|, i requires 0 <= i < |items| => MapSearchItem(items[i]))
  }

  // ---- dynamics ----

  const MajorTypeOpus := "MAJOR_TYPE_OPUS"
  const MajorTypeArchive := "MAJOR_TYPE_ARCHIVE"
  const MajorTypeDraw := "MAJOR_TYPE_DRAW"
  const DefaultCommentType := 17
  const DynamicUrlPrefix := "https://t.bilibili.com/"

  datatype Opus = Opus(title: Option<string>, summaryText: string, pics: seq<string>)
  datatype Archive = Archive(title: string, desc: string, cover: string)
  datatype Draw = Draw(items: seq<string>)
  datatype Major = Major(kind: string, opus: Option<Opus>, archive: Option<Archive>, draw: Option<Draw>)
  datatype Basic = Basic(commentIdStr: string, commentType: int)
  datatype DynamicItem = DynamicItem(
    idStr: string,
    basic: Option<Basic>,
    authorMid: int,
    pubTs: int,
    major: Option<Major>,
    desc: Option<string>
  )
  datatype DynamicsResponse = DynamicsResponse(code: int, items: Option<seq<DynamicItem>>)

  /** Title, description, cover and images of a post, by its major type. */
  datatype Body = Body(title: string, description: string, cover: string, images: seq<string>)

  function BodyOf(item: DynamicItem): (b: Body)
    ensures item.major.None? ==> b == Body("", item.desc.GetOr(""), "", [])
    ensures item.major.Some? && item.major.value.kind !in {MajorTypeOpus, MajorTypeArchive, MajorTypeDraw} ==>
              b == Body("", "", "", [])
  {
    match item.major
    case None => Body("", item.desc.GetOr(""), "", [])
    case Some(m) =>
      if m.kind == MajorTypeOpus then
        match m.opus
        case None => Body("", "", "", [])
        case Some(o) => Body(o.title.GetOr(""), o.summaryText, "", o.pics)
      else if m.kind == MajorTypeArchive then
        match m.archive
        case None => Body("", "", "", [])
        case Some(a) => Body(a.title, a.desc, a.cover, [])
      else if m.kind == MajorTypeDraw then
        Body("", item.desc.GetOr(""), "", match m.draw case None => [] case Some(d) => d.items)
      else Body("", "", "", [])
  }

  /** What each major type puts into a post, and which fields each can
      fill: only an archive has a cover, an archive has no images, a draw
      has no title. A missing type-specific object leaves every field empty,
      as the optional chains with `|| ''` and `|| []` do. */
  lemma BodyByKind(item: DynamicItem)
    ensures item.major.Some? && item.major.value.kind == MajorTypeOpus ==>
              BodyOf(item) == match item.major.value.opus
                              case Some(o) => Body(o.title.GetOr(""), o.summaryText, "", o.pics)
                              case None => Body("", "", "", [])
    ensures item.major.Some? && item.major.value.kind == MajorTypeArchive ==>
              BodyOf(item) == match item.major.value.archive
                              case Some(a) => Body(a.title, a.desc, a.cover, [])
                              case None => Body("", "", "", [])
    ensures item.major.Some? && item.major.value.kind == MajorTypeDraw ==>
              BodyOf(item) == Body("", item.desc.GetOr(""), "",
                                   match item.major.value.draw case Some(d) => d.items case None => [])
    ensures BodyOf(item).cover != "" ==> item.major.Some? && item.major.value.kind == MajorTypeArchive
    ensures |BodyOf(item).images| > 0 ==>
              item.major.Some? && item.major.value.kind in {MajorTypeOpus, MajorTypeDraw}
    ensures BodyOf(item).title != "" ==>
              item.major.Some? && item.major.value.kind in {MajorTypeOpus, MajorTypeArchive}
    ensures item.major.Some? && item.major.value.kind == MajorTypeDraw ==>
              BodyOf(item).description == item.desc.GetOr("")
  {
  }

  /** One feed item as a stored post. */
  function MapDynamicItem(item: DynamicItem): (d: DynamicContent)
    ensures d.id == item.idStr && d.timestamp == item.pubTs
    ensures IsDecimal(d.mid) && ParseInt(d.mid) == item.authorMid
    ensures d.jumpUrl == DynamicUrlPrefix + item.idStr
    ensures item.basic.Some? && item.basic.value.commentIdStr != "" ==> d.commentOid == item.basic.value.commentIdStr
    ensures item.basic.None? || item.basic.value.commentIdStr == "" ==> d.commentOid == item.idStr
    ensures d.commentType != 0
    ensures item.basic.Some? && item.basic.value.commentType != 0 ==> d.commentType == item.basic.value.commentType
    ensures item.basic.None? || item.basic.value.commentType == 0 ==> d.commentType == DefaultCommentType
    ensures d.title == BodyOf(item).title && d.description == BodyOf(item).description
    ensures d.cover == Some(BodyOf(item).cover) && d.images == BodyOf(item).images
    ensures d.comments.None? && d.isRead.None?
  {
    IntToDecimalRoundTrip(item.authorMid);
    var b := BodyOf(item);
    DynamicContent(
      item.idStr,
      IntToDecimal(item.authorMid),
      item.pubTs,
      b.title,
      b.description,
      Some(b.cover),
      b.images,
      DynamicUrlPrefix + item.idStr,
      match item.basic
      case Some(basic) => if basic.commentIdStr != "" then basic.commentIdStr else item.idStr
      case None => item.idStr,
      match item.basic
      case Some(basic) => if basic.commentType != 0 then basic.commentType else DefaultCommentType
      case None => DefaultCommentType,
      None,
      None
    )
  }

  /** `fetchDynamics` after the request: a failed request, a non-zero code or
      a missing item list all give no posts; otherwise one post per item. */
  function FetchDynamics(resp: Option<DynamicsResponse>): (posts: seq<DynamicContent>)
    ensures resp.None? || resp.value.code != 0 || resp.value.items.None? ==> posts == []
    ensures resp.Some? && resp.value.code == 0 && resp.value.items.Some? ==>
              |posts| == |resp.value.items.value| &&
              forall i :: 0 <= i < |posts| ==> posts[i] == MapDynamicItem(resp.value.items.value[i])
    ensures forall i :: 0 <= i < |posts| ==> posts[i].comments.None?
  {
    match resp
    case None => []
    case Some(r) =>
      if r.code != 0 then []
      else
        var items := r.items.GetOr([]);
        seq(|items|, i requires 0 <= i < |items| => MapDynamicItem(items[i]))
  }

  // ---- comments ----

  datatype ReplyItem = ReplyItem(
    rpidStr: string,
    message: string,
    ctime: int,
    uname: string,
    avatar: string,
    rcount: int,
    replies: ReplyItems
  )

  /** A response node's optional `replies` array. */
  datatype ReplyItems = NoItems | Items(list: seq<ReplyItem>)
  datatype CommentsResponse = CommentsResponse(code: int, replies: Option<seq<ReplyItem>>, topUpper: Option<ReplyItem>)
  datatype RepliesResponse = RepliesResponse(code: int, replies: Option<seq<ReplyItem>>)

  /** Every node of the thread below and including `c` names `root` as its
      top-level ancestor. */
  predicate RootedAt(c: Comment, root: string)
    decreases c
  {
    && c.rootId == Some(root)
    && (c.replies.Present? ==>
          forall i :: 0 <= i < |c.replies.items| ==> RootedAt(c.replies.items[i], root))
  }

  /** Thread shape of a mapped reply: same size as the response node. */
  predicate SameShape(c: Comment, r: ReplyItem)
    decreases r
  {
    && c.id == r.rpidStr
    && c.replies.Present? == r.replies.Items?
    && (c.replies.Present? ==>
          && |c.replies.items| == |r.replies.list|
          && forall i :: 0 <= i < |r.replies.list| ==> SameShape(c.replies.items[i], r.replies.list[i]))
  }

  /** `mapReply` inside `fetchComments`. An empty `rootParam` stands for
      `undefined`; the node's own id is used then (`rootId || rpid_str`). */
  function MapReply(r: ReplyItem, isPinned: bool, rootParam: string): (c: Comment)
    ensures c.id == r.rpidStr && c.content == r.message && c.timestamp == r.ctime
    ensures c.userName == r.uname && c.userFace == r.avatar
    ensures c.isPinned == Some(isPinned) && c.replyCount == Some(r.rcount) && c.isRead.None?
    ensures c.rootId == Some(if rootParam != "" then rootParam else r.rpidStr)
    ensures c.replies.Present? <==> r.replies.Items?
    ensures r.replies.Items? ==>
              && |c.replies.items| == |r.replies.list|
              && forall i :: 0 <= i < |r.replies.list| ==>
                   c.replies.items[i] == MapReply(r.replies.list[i], false, c.rootId.value)
    decreases r
  {
    var root := if rootParam != "" then rootParam else r.rpidStr;
    Comment(
      r.rpidStr, r.message, r.ctime, r.uname, r.avatar,
      Some(isPinned), Some(r.rcount), Some(root),
      match r.replies
      case NoItems => Absent
      case Items(rs) => Present(seq(|rs|, i requires 0 <= i < |rs| => MapReply(rs[i], false, root))),
      None
    )
  }

  /** A non-empty root is inherited by the whole subtree. */
  lemma {:induction false} MapReplyRooted(r: ReplyItem, isPinned: bool, root: string)
    requires root != ""
    ensures RootedAt(MapReply(r, isPinned, root), root)
    ensures SameShape(MapReply(r, isPinned, root), r)
    decreases r
  {
    if r.replies.Items? {
      var rs := r.replies.list;
      forall i | 0 <= i < |rs|
        ensures RootedAt(MapReply(rs[i], false, root), root)
        ensures SameShape(MapReply(rs[i], false, root), rs[i])
      {
        MapReplyRooted(rs[i], false, root);
      }
    }
  }

  /** A top-level comment is its own root, and its replies inherit its id. */
  lemma TopLevelRooted(r: ReplyItem, isPinned: bool)
    requires r.rpidStr != ""
    ensures MapReply(r, isPinned, "").rootId == Some(r.rpidStr)
    ensures RootedAt(MapReply(r, isPinned, ""), r.rpidStr)
  {
    MapReplyRooted(r, isPinned, r.rpidStr);
  }

  /** `fetchComments` after the request: nothing on a failure or non-zero
      code; otherwise the top-level replies, with the uploader's pinned
      comment, when present, prepended. */
  function FetchComments(resp: Option<CommentsResponse>): (cs: seq<Comment>)
    ensures resp.None? || resp.value.code != 0 ==> cs == []
    ensures resp.Some? && resp.value.code == 0 ==>
              |cs| == |resp.value.replies.GetOr([])| + (if resp.value.topUpper.Some? then 1 else 0)
    ensures forall i :: 0 <= i < |cs| ==>
              (cs[i].isPinned == Some(true) <==> i == 0 && resp.Some? && resp.value.topUpper.Some?)
    ensures forall i :: 0 <= i < |cs| ==> cs[i].isPinned.Some?
    ensures resp.Some? && resp.value.code == 0 && resp.value.topUpper.Some? ==>
              cs[0] == MapReply(resp.value.topUpper.value, true, "")
    ensures resp.Some? && resp.value.code == 0 ==>
              var off := if resp.value.topUpper.Some? then 1 else 0;
              forall k :: 0 <= k < |resp.value.replies.GetOr([])| ==>
                cs[k + off] == MapReply(resp.value.replies.GetOr([])[k], false, "")
  {
    match resp
    case None => []
    case Some(r) =>
      if r.code != 0 then []
      else
        var items := r.replies.GetOr([]);
        var top := seq(|items|, i requires 0 <= i < |items| => MapReply(items[i], false, ""));
        match r.topUpper
        case None => top
        case Some(u) => [MapReply(u, true, "")] + top
  }

  /** Each fetched top-level comment (pinned one included) is rooted at its own id. */
  lemma FetchCommentsRooted(resp: Option<CommentsResponse>)
    requires resp.Some? && resp.value.code == 0
    requires forall r :: r in resp.value.replies.GetOr([]) ==> r.rpidStr != ""
    requires resp.value.topUpper.Some? ==> resp.value.topUpper.value.rpidStr != ""
    ensures forall i :: 0 <= i < |FetchComments(resp)| ==> RootedAt(FetchComments(resp)[i], FetchComments(resp)[i].id)
  {
    var cs := FetchComments(resp);
    var items := resp.value.replies.GetOr([]);
    forall i | 0 <= i < |items| ensures RootedAt(MapReply(items[i], false, ""), items[i].rpidStr) {
      TopLevelRooted(items[i], false);
    }
    if resp.value.topUpper.Some? {
      TopLevelRooted(resp.value.topUpper.value, true);
    }
  }

  /** `mapReply` inside `fetchSubReplies`: every node carries the requested root
      and no pin flag. */
  function MapSubReply(r: ReplyItem, root: string): (c: Comment)
    ensures c.id == r.rpidStr && c.isPinned.None? && c.replyCount == Some(r.rcount) && c.isRead.None?
    ensures c.content == r.message && c.timestamp == r.ctime && c.userName == r.uname && c.userFace == r.avatar
    ensures c.replies.Present? <==> r.replies.Items?
    ensures r.replies.Items? ==>
              && |c.replies.items| == |r.replies.list|
              && forall i :: 0 <= i < |r.replies.list| ==> c.replies.items[i] == MapSubReply(r.replies.list[i], root)
    ensures RootedAt(c, root)
    decreases r
  {
    Comment(
      r.rpidStr, r.message, r.ctime, r.uname, r.avatar,
      None, Some(r.rcount), Some(root),
      match r.replies
      case NoItems => Absent
      case Items(rs) => Present(seq(|rs|, i requires 0 <= i < |rs| => MapSubReply(rs[i], root))),
      None
    )
  }

  /** `fetchSubReplies` after the request: nothing on a failure or non-zero
      code; otherwise one comment per reply, all rooted at `root`. */
  function FetchSubReplies(resp: Option<RepliesResponse>, root: string): (cs: seq<Comment>)
    ensures resp.None? || resp.value.code != 0 ==> cs == []
    ensures resp.Some? && resp.value.code == 0 ==> |cs| == |resp.value.replies.GetOr([])|
    ensures forall i :: 0 <= i < |cs| ==> RootedAt(cs[i], root) && cs[i].isPinned.None?
    ensures resp.Some? && resp.value.code == 0 ==>
              forall i :: 0 <= i < |cs| ==> cs[i] == MapSubReply(resp.value.replies.GetOr([])[i], root)
  {
    match resp
    case None => []
    case Some(r) =>
      if r.code != 0 then []
      else
        var items := r.replies.GetOr([]);
        seq(|items|, i requires 0 <= i < |items| => MapSubReply(items[i], root))
  }
}
