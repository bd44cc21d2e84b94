/** The records the monitor stores and renders (an UP is a tracked account,
    a DynamicContent one of its posts, a Comment one node of a post's thread). */
module Types {
  import opened Options

  datatype UP = UP(mid: string, name: string, face: string)

  /** User settings. The fields the built-in defaults leave out are `undefined`
      until the settings form saves them, so they are optional here. */
  datatype Settings = Settings(
    cookie: string,
    refreshInterval: int,             // minutes
    enableNotifications: bool,
    useMock: Option<bool>,
    enableDynamicPolling: Option<bool>,
    dynamicPollingInterval: Option<int>,  // minutes
    enableCommentPolling: Option<bool>,
    commentPollingInterval: Option<int>,  // minutes
    commentTimeRange: Option<int>         // hours
  )

  datatype Comment = Comment(
    id: string,
    content: string,
    timestamp: int,
    userName: string,
    userFace: string,
    isPinned: Option<bool>,
    replyCount: Option<int>,
    rootId: Option<string>,
    replies: Replies,
    isRead: Option<bool>
  )

  /** A comment's `replies?: Comment[]`: absent, or a possibly empty list. */
  datatype Replies = Absent | Present(items: seq<Comment>) {
    /** `replies || []`. */
    function OrEmpty(): seq<Comment> {
      match this
      case Absent => []
      case Present(cs) => cs
    }
  }

  datatype DynamicContent = DynamicContent(
    id: string,
    mid: string,
    timestamp: int,                   // seconds
    title: string,
    description: string,
    cover: Option<string>,
    images: seq<string>,
    jumpUrl: string,
    commentOid: string,
    commentType: int,
    comments: Option<seq<Comment>>,
    isRead: Option<bool>
  )

  /** The cached posts of every account, keyed by the account's mid. */
  type PostMap = map<string, seq<DynamicContent>>

  /** The text a post is announced and listed by: its title, or its description
      when the title is empty (`title || description`). */
  function Headline(d: DynamicContent): (h: string)
    ensures h == d.title || (d.title == "" && h == d.description)
    ensures h == "" ==> d.title == "" && d.description == ""
  {
    if d.title != "" then d.title else d.description
  }
}
