/** The comment thread under a post: a placeholder when there is nothing to
    show, otherwise each top-level comment with its pre-fetched replies and,
    for top-level comments only, a hint counting the replies not yet
    fetched. The view only reads what the comment cycle stored. */
module CommentSection {
  import opened Options
  import opened Types
  import Api
  import Polling

  /** `comment.replies || []`. */
  function SubReplies(c: Comment): seq<Comment> {
    c.replies.OrEmpty()
  }

  /** `replyCount ? subReplies.length < replyCount : false`; a count of zero
      or an absent count is falsy. */
  predicate HasMore(c: Comment) {
    c.replyCount.Some? && c.replyCount.value != 0 && |SubReplies(c)| < c.replyCount.value
  }

  /** One rendered comment: author, badge, text, nested replies and the
      "N more replies" hint. */
  datatype ItemView = ItemView(id: string, userName: string, content: string, pinned: bool, isSub: bool,
                               replies: seq<ItemView>, remaining: Option<int>)

  function RenderItem(c: Comment, isSub: bool): (v: ItemView)
    ensures v.id == c.id && v.isSub == isSub
    ensures v.userName == c.userName && v.content == c.content
    ensures v.pinned <==> Truthy(c.isPinned)
    ensures |v.replies| == |SubReplies(c)|
    ensures forall i :: 0 <= i < |v.replies| ==> v.replies[i] == RenderItem(SubReplies(c)[i], true)
    ensures forall i :: 0 <= i < |v.replies| ==>
              v.replies[i].id == SubReplies(c)[i].id && v.replies[i].isSub && v.replies[i].remaining.None?
    ensures v.remaining.Some? <==> !isSub && HasMore(c)
    ensures v.remaining.Some? ==> v.remaining.value > 0 && v.remaining.value + |SubReplies(c)| == c.replyCount.value
    decreases c
  {
    var subs := c.replies.OrEmpty();
    ItemView(c.id, c.userName, c.content, Truthy(c.isPinned), isSub,
             seq(|subs|, i requires 0 <= i < |subs| => RenderItem(subs[i], true)),
             if !isSub && HasMore(c) then Some(c.replyCount.value - |subs|) else None)
  }

  datatype SectionView = Placeholder | Thread(items: seq<ItemView>)

  /** `CommentSection`: the placeholder for a missing or empty list. */
  function RenderSection(comments: Option<seq<Comment>>): (v: SectionView)
    ensures v.Placeholder? <==> comments.None? || |comments.value| == 0
    ensures v.Thread? ==> |v.items| == |comments.value|
    ensures v.Thread? ==> forall i :: 0 <= i < |v.items| ==>
              v.items[i] == RenderItem(comments.value[i], false) && !v.items[i].isSub
  {
    match comments
    case None => Placeholder
    case Some(cs) =>
      if |cs| == 0 then Placeholder
      else Thread(seq(|cs|, i requires 0 <= i < |cs| => RenderItem(cs[i], false)))
  }

  /** A comment the back-fill could not fill shows every reply as still to
      come. */
  lemma UnfilledShowsAll(c: Comment)
    requires Polling.NeedsBackfill(c)
    ensures RenderItem(c, false).remaining == Some(c.replyCount.value)
  {
  }

  /** A comment that arrived with some but not all of its replies is left
      alone by the back-fill, so the hint keeps counting the rest. */
  lemma PartialThreadKeepsHint(oid: string, commentType: int, c: Comment, subs: (string, int, string) -> seq<Comment>)
    requires c.replyCount.Some? && 0 < |SubReplies(c)| < c.replyCount.value
    ensures Polling.Backfilled(oid, commentType, c, subs) == c
    ensures RenderItem(c, false).remaining == Some(c.replyCount.value - |SubReplies(c)|)
  {
  }

  /** A back-filled comment whose fetch returned at least as many replies as
      announced shows no hint. */
  lemma FilledThreadHidesHint(oid: string, commentType: int, c: Comment, subs: (string, int, string) -> seq<Comment>)
    requires Polling.NeedsBackfill(c)
    requires |subs(oid, commentType, Polling.RootFor(c))| >= c.replyCount.value
    ensures RenderItem(Polling.Backfilled(oid, commentType, c, subs), false).remaining.None?
  {
  }

  /** Rendering the list the comments API returns: the pinned badge appears
      on the first item exactly when the response carried an upper's top
      comment, and nowhere else. */
  lemma PinnedBadgeOnlyFirst(resp: Option<Api.CommentsResponse>)
    ensures var v := RenderSection(Some(Api.FetchComments(resp)));
            v.Thread? ==> forall i :: 0 <= i < |v.items| ==>
              (v.items[i].pinned <==> i == 0 && resp.Some? && resp.value.topUpper.Some?)
  {
  }

  /** A recent post whose comment fetch came back empty shows the
      placeholder after the comment cycle, whatever it showed before. */
  lemma EmptyFetchShowsPlaceholder(d: DynamicContent, comments: (string, int) -> seq<Comment>,
                                   subs: (string, int, string) -> seq<Comment>)
    ensures RenderSection(Polling.RefreshPost(d, comments, subs).comments).Placeholder?
            <==> |comments(d.commentOid, d.commentType)| == 0
  {
  }
}
