/** The polling service: two independently timed cycles that refresh the
    cached posts of every tracked account and the comment threads of recent
    posts, a busy flag per cycle, and a set of change listeners.

    Timers, fetches, the clock and the desktop notification API are outside
    the model: fetch results are function parameters, the clock is a
    millisecond count, and everything the service does to the outside world
    is recorded, in order, as a list of effects. */
module Polling {
  import opened Options
  import opened Types
  import Storage
  import Api

  type ListenerId = nat

  /** A running `setInterval`, by handle and period. */
  datatype Timer = Timer(id: nat, periodMs: int)

  /** The service object. `liveDynamicTimers` and `liveCommentTimers` are the
      handles of the intervals the runtime is still firing, whether or not a
      slot still refers to them. */
  datatype Service = Service(
    dynamicTimer: Option<Timer>,
    commentTimer: Option<Timer>,
    listeners: set<ListenerId>,
    isPollingDynamics: bool,
    isPollingComments: bool,
    liveDynamicTimers: set<nat>,
    liveCommentTimers: set<nat>,
    nextTimerId: nat
  )

  /** The service before its constructor runs. */
  const Fresh: Service := Service(None, None, {}, false, false, {}, {}, 0)

  // ---- listeners ----

  function Subscribe(s: Service, l: ListenerId): (s': Service)
    ensures l in s'.listeners
    ensures s'.listeners - {l} == s.listeners - {l}
    ensures s'.(listeners := s.listeners) == s
  {
    s.(listeners := s.listeners + {l})
  }

  /** The function `subscribe` returns: it deletes exactly that listener. */
  function Unsubscribe(s: Service, l: ListenerId): (s': Service)
    ensures l !in s'.listeners
    ensures forall m :: m != l ==> (m in s'.listeners <==> m in s.listeners)
    ensures s'.(listeners := s.listeners) == s
  {
    s.(listeners := s.listeners - {l})
  }

  lemma SubscribeThenUnsubscribe(s: Service, l: ListenerId)
    requires l !in s.listeners
    ensures Unsubscribe(Subscribe(s, l), l) == s
  {
    assert (s.listeners + {l}) - {l} == s.listeners;
  }

  // ---- timers ----

  const MillisPerMinute := 60 * 1000

  /** Whether `start` arms the dynamics timer, and with what period. */
  predicate DynamicPollingOn(settings: Settings) {
    && Truthy(settings.enableDynamicPolling)
    && settings.dynamicPollingInterval.Some? && settings.dynamicPollingInterval.value > 0
  }

  predicate CommentPollingOn(settings: Settings) {
    && Truthy(settings.enableCommentPolling)
    && settings.commentPollingInterval.Some? && settings.commentPollingInterval.value > 0
  }

  /** `start` as written: arms each enabled timer, overwriting its slot
      without clearing what the slot held. */
  function Start(s: Service, settings: Settings): (s': Service)
    ensures DynamicPollingOn(settings) ==>
              && s'.dynamicTimer == Some(Timer(s.nextTimerId, settings.dynamicPollingInterval.value * MillisPerMinute))
              && s'.liveDynamicTimers == s.liveDynamicTimers + {s.nextTimerId}
    ensures !DynamicPollingOn(settings) ==>
              s'.dynamicTimer == s.dynamicTimer && s'.liveDynamicTimers == s.liveDynamicTimers
    ensures CommentPollingOn(settings) ==>
              && s'.commentTimer == Some(Timer(s.nextTimerId + 1, settings.commentPollingInterval.value * MillisPerMinute))
              && s'.liveCommentTimers == s.liveCommentTimers + {s.nextTimerId + 1}
    ensures !CommentPollingOn(settings) ==>
              s'.commentTimer == s.commentTimer && s'.liveCommentTimers == s.liveCommentTimers
    ensures s'.nextTimerId == s.nextTimerId + 2
    ensures s'.listeners == s.listeners
    ensures s'.isPollingDynamics == s.isPollingDynamics && s'.isPollingComments == s.isPollingComments
  {
    var d := s.nextTimerId;
    var c := s.nextTimerId + 1;
    var s1 :=
      if DynamicPollingOn(settings) then
        s.(dynamicTimer := Some(Timer(d, settings.dynamicPollingInterval.value * MillisPerMinute)),
           liveDynamicTimers := s.liveDynamicTimers + {d})
      else s;
    var s2 :=
      if CommentPollingOn(settings) then
        s1.(commentTimer := Some(Timer(c, settings.commentPollingInterval.value * MillisPerMinute)),
            liveCommentTimers := s1.liveCommentTimers + {c})
      else s1;
    s2.(nextTimerId := s.nextTimerId + 2)
  }

  function Handles(slot: Option<Timer>): set<nat> {
    match slot
    case None => {}
    case Some(t) => {t.id}
  }

  /** `stop`: clears the interval each slot refers to and empties both slots. */
  function Stop(s: Service): (s': Service)
    ensures s'.dynamicTimer.None? && s'.commentTimer.None?
    ensures s'.liveDynamicTimers == s.liveDynamicTimers - Handles(s.dynamicTimer)
    ensures s'.liveCommentTimers == s.liveCommentTimers - Handles(s.commentTimer)
    ensures s'.listeners == s.listeners && s'.nextTimerId == s.nextTimerId
    ensures s'.isPollingDynamics == s.isPollingDynamics && s'.isPollingComments == s.isPollingComments
  {
    s.(dynamicTimer := None, commentTimer := None,
       liveDynamicTimers := s.liveDynamicTimers - Handles(s.dynamicTimer),
       liveCommentTimers := s.liveCommentTimers - Handles(s.commentTimer))
  }

  function Restart(s: Service, settings: Settings): Service {
    Start(Stop(s), settings)
  }

  /** Every running interval is the one its slot refers to, and fresh
      handles are unused. */
  predicate Tidy(s: Service) {
    && s.liveDynamicTimers == Handles(s.dynamicTimer)
    && s.liveCommentTimers == Handles(s.commentTimer)
    && (s.dynamicTimer.Some? ==> s.dynamicTimer.value.id < s.nextTimerId)
    && (s.commentTimer.Some? ==> s.commentTimer.value.id < s.nextTimerId)
  }

  /** `restart` keeps at most one interval of each kind running, armed
      exactly when that kind of polling is enabled with a positive interval. */
  lemma RestartTidy(s: Service, settings: Settings)
    requires Tidy(s)
    ensures Tidy(Restart(s, settings))
    ensures |Restart(s, settings).liveDynamicTimers| <= 1 && |Restart(s, settings).liveCommentTimers| <= 1
    ensures Restart(s, settings).dynamicTimer.Some? <==> DynamicPollingOn(settings)
    ensures Restart(s, settings).commentTimer.Some? <==> CommentPollingOn(settings)
  {
    var stopped := Stop(s);
    assert stopped.liveDynamicTimers == {} && stopped.liveCommentTimers == {};
    assert stopped.dynamicTimer.None? && stopped.commentTimer.None?;
  }

  lemma StopTidy(s: Service)
    requires Tidy(s)
    ensures Tidy(Stop(s))
    ensures Stop(s).liveDynamicTimers == {} && Stop(s).liveCommentTimers == {}
  {
  }

  /** The constructor: `restart()` on a fresh object. */
  function Construct(settings: Settings): (s: Service)
    ensures Tidy(s)
  {
    Restart(Fresh, settings)
  }

  /** The application's mount effect calls `start()` on the constructed
      service without stopping it first. */
  function AppMount(settings: Settings): Service {
    Start(Construct(settings), settings)
  }

  /** As written, mounting with dynamics polling enabled leaves two dynamics
      intervals running, and a later `restart` that disables polling still
      leaves one of them firing. */
  lemma AppMountLeaksTimer(settings: Settings, later: Settings)
    requires DynamicPollingOn(settings)
    requires !DynamicPollingOn(later)
    ensures |AppMount(settings).liveDynamicTimers| == 2
    ensures Restart(AppMount(settings), later).dynamicTimer.None?
    ensures |Restart(AppMount(settings), later).liveDynamicTimers| == 1
  {
    var s0 := Construct(settings);
    assert s0.liveDynamicTimers == {0};
    assert AppMount(settings).liveDynamicTimers == {0, 2};
    assert Restart(AppMount(settings), later).liveDynamicTimers == {0};
  }

  /** `start` clearing what a slot holds before arming it. */
  function SafeStart(s: Service, settings: Settings): (s': Service)
    ensures Tidy(s) ==> Tidy(s')
    ensures s'.dynamicTimer.Some? <==> DynamicPollingOn(settings) || s.dynamicTimer.Some?
    ensures s'.commentTimer.Some? <==> CommentPollingOn(settings) || s.commentTimer.Some?
  {
    var cleared := s.(
      dynamicTimer := if DynamicPollingOn(settings) then None else s.dynamicTimer,
      commentTimer := if CommentPollingOn(settings) then None else s.commentTimer,
      liveDynamicTimers := if DynamicPollingOn(settings) then s.liveDynamicTimers - Handles(s.dynamicTimer) else s.liveDynamicTimers,
      liveCommentTimers := if CommentPollingOn(settings) then s.liveCommentTimers - Handles(s.commentTimer) else s.liveCommentTimers);
    Start(cleared, settings)
  }

  function AppMountSafe(settings: Settings): Service {
    SafeStart(Construct(settings), settings)
  }

  /** With the corrected `start`, mounting leaves one interval per kind, and
      a `restart` that disables polling stops it. */
  lemma AppMountSafeTidy(settings: Settings, later: Settings)
    ensures Tidy(AppMountSafe(settings))
    ensures |AppMountSafe(settings).liveDynamicTimers| <= 1
    ensures !DynamicPollingOn(later) ==> Restart(AppMountSafe(settings), later).liveDynamicTimers == {}
  {
    RestartTidy(AppMountSafe(settings), later);
  }

  // ---- effects ----

  /** What a cycle does outside the service, in order. */
  datatype Effect =
    | FetchDynamicsOf(mid: string)
    | DesktopNotice(title: string, body: string, icon: string)
    | FetchCommentsOf(oid: string, commentType: int)
    | FetchSubRepliesOf(oid: string, commentType: int, root: string)
    | SavePosts(posts: PostMap)
    | CallListeners(listeners: set<ListenerId>)

  predicate IsDynamicsFetch(e: Effect) { e.FetchDynamicsOf? }
  predicate IsNotice(e: Effect) { e.DesktopNotice? }
  predicate IsCommentsFetch(e: Effect) { e.FetchCommentsOf? }
  predicate IsRepliesFetch(e: Effect) { e.FetchSubRepliesOf? }
  predicate IsSave(e: Effect) { e.SavePosts? }
  predicate IsListenerCall(e: Effect) { e.CallListeners? }

  /** The effects of one kind, in order. */
  function Filter(es: seq<Effect>, keep: Effect -> bool): (r: seq<Effect>)
    ensures |r| <= |es|
    ensures forall e :: e in r ==> e in es && keep(e)
  {
    if |es| == 0 then []
    else (if keep(es[0]) then [es[0]] else []) + Filter(es[1..], keep)
  }

  /** A filter that keeps every element keeps the whole list. */
  lemma {:induction false} FilterAll(es: seq<Effect>, keep: Effect -> bool)
    requires forall e :: e in es ==> keep(e)
    ensures Filter(es, keep) == es
    decreases |es|
  {
    if |es| > 0 {
      assert forall e :: e in es[1..] ==> e in es;
      FilterAll(es[1..], keep);
    }
  }

  lemma {:induction false} FilterConcat(a: seq<Effect>, b: seq<Effect>, keep: Effect -> bool)
    ensures Filter(a + b, keep) == Filter(a, keep) + Filter(b, keep)
    decreases |a|
  {
    if |a| == 0 {
      assert a + b == b;
    } else {
      assert (a + b)[1..] == a[1..] + b;
      FilterConcat(a[1..], b, keep);
    }
  }

  /** The service and post map after a cycle, with the cycle's effects. */
  datatype Cycle = Cycle(service: Service, posts: PostMap, effects: seq<Effect>)

  /** The listener call that follows a save. */
  function Publish(posts: PostMap, listeners: set<ListenerId>): (es: seq<Effect>)
    ensures Filter(es, IsSave) == [SavePosts(posts)]
    ensures Filter(es, IsDynamicsFetch) == [] && Filter(es, IsNotice) == []
    ensures Filter(es, IsCommentsFetch) == [] && Filter(es, IsRepliesFetch) == []
    ensures Filter(es, IsListenerCall) == [CallListeners(listeners)]
  {
    [SavePosts(posts), CallListeners(listeners)]
  }

  /** The end of a cycle: the loop's effects, then the save and the
      listener call when the loop changed something. Kind by kind the tail
      adds exactly one save and one listener call, and the call comes last. */
  function Conclude(s: Service, es: seq<Effect>, changed: bool, posts: PostMap): (c: Cycle)
    requires Filter(es, IsSave) == [] && Filter(es, IsListenerCall) == []
    ensures c.service == s && c.posts == posts
    ensures Filter(c.effects, IsSave) == (if changed then [SavePosts(posts)] else [])
    ensures Filter(c.effects, IsListenerCall) == (if changed then [CallListeners(s.listeners)] else [])
    ensures changed ==> c.effects[|c.effects| - 1] == CallListeners(s.listeners)
    ensures Filter(c.effects, IsDynamicsFetch) == Filter(es, IsDynamicsFetch)
    ensures Filter(c.effects, IsNotice) == Filter(es, IsNotice)
    ensures Filter(c.effects, IsCommentsFetch) == Filter(es, IsCommentsFetch)
    ensures Filter(c.effects, IsRepliesFetch) == Filter(es, IsRepliesFetch)
  {
    var tail := if changed then Publish(posts, s.listeners) else [];
    FilterConcat(es, tail, IsSave);
    FilterConcat(es, tail, IsListenerCall);
    FilterConcat(es, tail, IsDynamicsFetch);
    FilterConcat(es, tail, IsNotice);
    FilterConcat(es, tail, IsCommentsFetch);
    FilterConcat(es, tail, IsRepliesFetch);
    Cycle(s, posts, es + tail)
  }

  // ---- dynamics cycle ----

  /** The cached newest post of an account, if any (`map[mid]?.[0]`). */
  function CachedHead(posts: PostMap, mid: string): Option<DynamicContent> {
    if mid in posts && |posts[mid]| > 0 then Some(posts[mid][0]) else None
  }

  /** The fetched newest post is announced: none was cached, or it is
      strictly newer than the cached one. */
  predicate AnnouncesHead(posts: PostMap, mid: string, fetched: seq<DynamicContent>) {
    && |fetched| > 0
    && (CachedHead(posts, mid).None? || fetched[0].timestamp > CachedHead(posts, mid).value.timestamp)
  }

  /** The desktop notification for an account's new post. */
  function Notice(up: UP, d: DynamicContent): Effect {
    DesktopNotice("Bili Monitor: " + up.name, Headline(d), up.face)
  }

  datatype Merge = Merge(posts: PostMap, effects: seq<Effect>, changed: bool)

  /** One iteration of the account loop: fetch, announce, replace. */
  function MergeAccount(up: UP, fetched: seq<DynamicContent>, posts: PostMap, notify: bool): (m: Merge)
    ensures Filter(m.effects, IsDynamicsFetch) == [FetchDynamicsOf(up.mid)]
    ensures Filter(m.effects, IsNotice) ==
              if notify && AnnouncesHead(posts, up.mid, fetched) then [Notice(up, fetched[0])] else []
    ensures Filter(m.effects, IsSave) == []
    ensures forall e | e in m.effects :: IsDynamicsFetch(e) || IsNotice(e)
    ensures m.changed <==> |fetched| > 0
    ensures m.posts == if |fetched| > 0 then posts[up.mid := fetched] else posts
  {
    var notices := if |fetched| > 0 && notify && AnnouncesHead(posts, up.mid, fetched)
                   then [Notice(up, fetched[0])] else [];
    var es := [FetchDynamicsOf(up.mid)] + notices;
    FilterConcat([FetchDynamicsOf(up.mid)], notices, IsDynamicsFetch);
    FilterConcat([FetchDynamicsOf(up.mid)], notices, IsNotice);
    FilterConcat([FetchDynamicsOf(up.mid)], notices, IsSave);
    if |fetched| > 0 then Merge(posts[up.mid := fetched], es, true)
    else Merge(posts, es, false)
  }

  /** The mids whose fetch came back non-empty. */
  function RefreshedMids(ups: seq<UP>, fetch: string -> seq<DynamicContent>): set<string> {
    set i | 0 <= i < |ups| && |fetch(ups[i].mid)| > 0 :: ups[i].mid
  }

  lemma RefreshedMidsCons(ups: seq<UP>, fetch: string -> seq<DynamicContent>)
    requires |ups| > 0
    ensures RefreshedMids(ups, fetch) ==
              (if |fetch(ups[0].mid)| > 0 then {ups[0].mid} else {}) + RefreshedMids(ups[1..], fetch)
  {
    var l := RefreshedMids(ups, fetch);
    var r := (if |fetch(ups[0].mid)| > 0 then {ups[0].mid} else {}) + RefreshedMids(ups[1..], fetch);
    forall k | k in l ensures k in r {
      var i :| 0 <= i < |ups| && |fetch(ups[i].mid)| > 0 && ups[i].mid == k;
      if i > 0 { assert ups[1..][i - 1].mid == k; }
    }
    forall k | k in r ensures k in l {
      if k !in RefreshedMids(ups[1..], fetch) {
        assert ups[0].mid == k;
      } else {
        var i :| 0 <= i < |ups[1..]| && |fetch(ups[1..][i].mid)| > 0 && ups[1..][i].mid == k;
        assert ups[i + 1].mid == k;
      }
    }
  }

  /** The mids in tracking order, each as a fetch effect. */
  function FetchesOf(ups: seq<UP>): (es: seq<Effect>)
    ensures |es| == |ups|
    ensures forall i :: 0 <= i < |ups| ==> es[i] == FetchDynamicsOf(ups[i].mid)
  {
    seq(|ups|, i requires 0 <= i < |ups| => FetchDynamicsOf(ups[i].mid))
  }

  lemma FetchesOfCons(ups: seq<UP>)
    requires |ups| > 0
    ensures FetchesOf(ups) == [FetchDynamicsOf(ups[0].mid)] + FetchesOf(ups[1..])
  {
    assert forall i :: 1 <= i < |ups| ==> ups[i] == ups[1..][i - 1];
  }

  /** The account loop of `pollDynamics`, over the map as it is being updated. */
  function MergeAccounts(ups: seq<UP>, fetch: string -> seq<DynamicContent>, posts: PostMap, notify: bool): (m: Merge)
    ensures Filter(m.effects, IsDynamicsFetch) == FetchesOf(ups)
    ensures Filter(m.effects, IsSave) == []
    ensures forall e | e in m.effects :: IsDynamicsFetch(e) || IsNotice(e)
    ensures m.changed <==> RefreshedMids(ups, fetch) != {}
    decreases |ups|
  {
    if |ups| == 0 then Merge(posts, [], false)
    else
      var first := MergeAccount(ups[0], fetch(ups[0].mid), posts, notify);
      var rest := MergeAccounts(ups[1..], fetch, first.posts, notify);
      RefreshedMidsCons(ups, fetch);
      FilterConcat(first.effects, rest.effects, IsDynamicsFetch);
      FilterConcat(first.effects, rest.effects, IsSave);
      FetchesOfCons(ups);
      Merge(rest.posts, first.effects + rest.effects, first.changed || rest.changed)
  }

  /** After the loop the map covers the cached accounts and the refreshed ones. */
  lemma {:induction false} MergeAccountsKeys(ups: seq<UP>, fetch: string -> seq<DynamicContent>, posts: PostMap, notify: bool)
    ensures MergeAccounts(ups, fetch, posts, notify).posts.Keys == posts.Keys + RefreshedMids(ups, fetch)
    decreases |ups|
  {
    if |ups| > 0 {
      var first := MergeAccount(ups[0], fetch(ups[0].mid), posts, notify);
      RefreshedMidsCons(ups, fetch);
      MergeAccountsKeys(ups[1..], fetch, first.posts, notify);
    }
  }

  /** Every refreshed account holds exactly what was fetched for it. */
  lemma {:induction false} MergeAccountsRefreshed(ups: seq<UP>, fetch: string -> seq<DynamicContent>, posts: PostMap, notify: bool, k: string)
    requires k in RefreshedMids(ups, fetch)
    ensures k in MergeAccounts(ups, fetch, posts, notify).posts
    ensures MergeAccounts(ups, fetch, posts, notify).posts[k] == fetch(k)
    decreases |ups|
  {
    MergeAccountsKeys(ups, fetch, posts, notify);
    var first := MergeAccount(ups[0], fetch(ups[0].mid), posts, notify);
    RefreshedMidsCons(ups, fetch);
    MergeAccountsKeys(ups[1..], fetch, first.posts, notify);
    if k in RefreshedMids(ups[1..], fetch) {
      MergeAccountsRefreshed(ups[1..], fetch, first.posts, notify, k);
    } else {
      MergeAccountsUntouched(ups[1..], fetch, first.posts, notify, k);
    }
  }

  /** Every account whose fetch came back empty keeps its cached list. */
  lemma {:induction false} MergeAccountsUntouched(ups: seq<UP>, fetch: string -> seq<DynamicContent>, posts: PostMap, notify: bool, k: string)
    requires k in posts && k !in RefreshedMids(ups, fetch)
    ensures k in MergeAccounts(ups, fetch, posts, notify).posts
    ensures MergeAccounts(ups, fetch, posts, notify).posts[k] == posts[k]
    decreases |ups|
  {
    MergeAccountsKeys(ups, fetch, posts, notify);
    if |ups| > 0 {
      var first := MergeAccount(ups[0], fetch(ups[0].mid), posts, notify);
      RefreshedMidsCons(ups, fetch);
      MergeAccountsUntouched(ups[1..], fetch, first.posts, notify, k);
    }
  }

  /** At most one notification per account, and none with notifications off. */
  lemma {:induction false} MergeAccountsNotices(ups: seq<UP>, fetch: string -> seq<DynamicContent>, posts: PostMap, notify: bool)
    ensures |Filter(MergeAccounts(ups, fetch, posts, notify).effects, IsNotice)| <= |ups|
    ensures !notify ==> Filter(MergeAccounts(ups, fetch, posts, notify).effects, IsNotice) == []
    decreases |ups|
  {
    if |ups| > 0 {
      var first := MergeAccount(ups[0], fetch(ups[0].mid), posts, notify);
      var rest := MergeAccounts(ups[1..], fetch, first.posts, notify);
      FilterConcat(first.effects, rest.effects, IsNotice);
      MergeAccountsNotices(ups[1..], fetch, first.posts, notify);
    }
  }

  /** The account loop starts: the busy flag goes up. */
  function BeginPollDynamics(s: Service): Service {
    s.(isPollingDynamics := true)
  }

  /** The `finally` clause: the busy flag comes down. */
  function EndPollDynamics(s: Service): Service {
    s.(isPollingDynamics := false)
  }

  /** The account loop only fetches dynamics and raises notices. */
  lemma AccountLoopKinds(es: seq<Effect>)
    requires forall e | e in es :: IsDynamicsFetch(e) || IsNotice(e)
    ensures Filter(es, IsSave) == [] && Filter(es, IsListenerCall) == []
    ensures Filter(es, IsCommentsFetch) == [] && Filter(es, IsRepliesFetch) == []
  {
    FilterNone(es, IsSave);
    FilterNone(es, IsListenerCall);
    FilterNone(es, IsCommentsFetch);
    FilterNone(es, IsRepliesFetch);
  }

  /** The body of `pollDynamics` once the guard has passed: the loop, then
      a save and the listeners if anything changed. */
  function DynamicsPass(s: Service, notify: bool, ups: seq<UP>, posts: PostMap,
                        fetch: string -> seq<DynamicContent>): (c: Cycle)
    ensures Filter(c.effects, IsDynamicsFetch) == FetchesOf(ups)
    ensures Filter(c.effects, IsSave) == (if RefreshedMids(ups, fetch) != {} then [SavePosts(c.posts)] else [])
    ensures Filter(c.effects, IsListenerCall) == (if RefreshedMids(ups, fetch) != {} then [CallListeners(s.listeners)] else [])
    ensures RefreshedMids(ups, fetch) != {} ==> c.effects[|c.effects| - 1] == CallListeners(s.listeners)
    ensures Filter(c.effects, IsCommentsFetch) == [] && Filter(c.effects, IsRepliesFetch) == []
    ensures c.service == s && c.posts == MergeAccounts(ups, fetch, posts, notify).posts
    ensures Filter(c.effects, IsNotice) == Filter(MergeAccounts(ups, fetch, posts, notify).effects, IsNotice)
  {
    var m := MergeAccounts(ups, fetch, posts, notify);
    AccountLoopKinds(m.effects);
    Conclude(s, m.effects, m.changed, m.posts)
  }

  /** `pollDynamics` (and `forceRefreshDynamics`, which only awaits it).
      `granted` is the browser's notification permission. The busy flag is
      raised for the loop and lowered in `finally`, so the service comes back
      as it went in. */
  function PollDynamics(s: Service, settings: Settings, granted: bool, ups: seq<UP>, posts: PostMap,
                        fetch: string -> seq<DynamicContent>): (c: Cycle)
    ensures c.service == s
    ensures s.isPollingDynamics || settings.cookie == "" ==> c == Cycle(s, posts, [])
    ensures !s.isPollingDynamics && settings.cookie != "" ==>
              c == DynamicsPass(s, settings.enableNotifications && granted, ups, posts, fetch)
  {
    if s.isPollingDynamics || settings.cookie == "" then Cycle(s, posts, [])
    else
      var busy := BeginPollDynamics(s);
      var c := DynamicsPass(busy, settings.enableNotifications && granted, ups, posts, fetch);
      c.(service := EndPollDynamics(c.service))
  }

  // ---- properties of the dynamics cycle ----

  /** The notifications the loop is meant to send: one per account whose
      fetched head is newer than the head cached before the cycle began. */
  function ExpectedNotices(ups: seq<UP>, fetch: string -> seq<DynamicContent>, posts: PostMap, notify: bool): (es: seq<Effect>)
    ensures forall e :: e in es ==> IsNotice(e)
    decreases |ups|
  {
    if |ups| == 0 then []
    else
      var f := fetch(ups[0].mid);
      (if notify && AnnouncesHead(posts, ups[0].mid, f) then [Notice(ups[0], f[0])] else [])
        + ExpectedNotices(ups[1..], fetch, posts, notify)
  }

  /** Replacing the list of the first account leaves the cached heads of the
      other accounts as they were. */
  lemma TailHeadsAgree(ups: seq<UP>, posts: PostMap, after: PostMap, before: PostMap)
    requires |ups| > 0 && Storage.UniqueMids(ups)
    requires forall i :: 0 <= i < |ups| ==> CachedHead(posts, ups[i].mid) == CachedHead(before, ups[i].mid)
    requires forall m :: m != ups[0].mid ==> CachedHead(after, m) == CachedHead(posts, m)
    ensures forall i :: 0 <= i < |ups[1..]| ==> CachedHead(after, ups[1..][i].mid) == CachedHead(before, ups[1..][i].mid)
  {
    forall i | 0 <= i < |ups[1..]|
      ensures CachedHead(after, ups[1..][i].mid) == CachedHead(before, ups[1..][i].mid)
    {
      assert ups[1..][i].mid == ups[i + 1].mid != ups[0].mid;
    }
  }

  /** The first iteration of the loop, then the rest over its map. */
  lemma MergeAccountsCons(ups: seq<UP>, fetch: string -> seq<DynamicContent>, posts: PostMap, notify: bool)
    requires |ups| > 0
    ensures var first := MergeAccount(ups[0], fetch(ups[0].mid), posts, notify);
            var rest := MergeAccounts(ups[1..], fetch, first.posts, notify);
            && MergeAccounts(ups, fetch, posts, notify).effects == first.effects + rest.effects
            && MergeAccounts(ups, fetch, posts, notify).posts == rest.posts
  {
  }

  /** The first iteration announces against the heads cached before the
      cycle, and leaves the other accounts' heads as they were then. */
  lemma MergeNoticesStep(ups: seq<UP>, fetch: string -> seq<DynamicContent>, posts: PostMap, before: PostMap, notify: bool)
    requires |ups| > 0 && Storage.UniqueMids(ups)
    requires forall i :: 0 <= i < |ups| ==> CachedHead(posts, ups[i].mid) == CachedHead(before, ups[i].mid)
    ensures var f := fetch(ups[0].mid);
            var first := MergeAccount(ups[0], f, posts, notify);
            && Filter(first.effects, IsNotice) ==
                 (if notify && AnnouncesHead(before, ups[0].mid, f) then [Notice(ups[0], f[0])] else [])
            && Storage.UniqueMids(ups[1..])
            && forall i :: 0 <= i < |ups[1..]| ==> CachedHead(first.posts, ups[1..][i].mid) == CachedHead(before, ups[1..][i].mid)
  {
    var f := fetch(ups[0].mid);
    var first := MergeAccount(ups[0], f, posts, notify);
    assert CachedHead(posts, ups[0].mid) == CachedHead(before, ups[0].mid);
    assert forall m :: m != ups[0].mid ==> CachedHead(first.posts, m) == CachedHead(posts, m);
    TailHeadsAgree(ups, posts, first.posts, before);
  }

  lemma {:induction false} MergeNoticesAgree(ups: seq<UP>, fetch: string -> seq<DynamicContent>, posts: PostMap, before: PostMap, notify: bool)
    requires Storage.UniqueMids(ups)
    requires forall i :: 0 <= i < |ups| ==> CachedHead(posts, ups[i].mid) == CachedHead(before, ups[i].mid)
    ensures Filter(MergeAccounts(ups, fetch, posts, notify).effects, IsNotice) == ExpectedNotices(ups, fetch, before, notify)
    decreases |ups|
  {
    if |ups| > 0 {
      var first := MergeAccount(ups[0], fetch(ups[0].mid), posts, notify);
      var rest := MergeAccounts(ups[1..], fetch, first.posts, notify);
      MergeNoticesStep(ups, fetch, posts, before, notify);
      MergeNoticesAgree(ups[1..], fetch, first.posts, before, notify);
      MergeAccountsCons(ups, fetch, posts, notify);
      FilterConcat(first.effects, rest.effects, IsNotice);
    }
  }

  /** With each account tracked once, the cycle notifies exactly for the
      accounts whose fetched head is strictly newer than their cached head. */
  lemma MergeAccountsExactNotices(ups: seq<UP>, fetch: string -> seq<DynamicContent>, posts: PostMap, notify: bool)
    requires Storage.UniqueMids(ups)
    ensures Filter(MergeAccounts(ups, fetch, posts, notify).effects, IsNotice) == ExpectedNotices(ups, fetch, posts, notify)
  {
    MergeNoticesAgree(ups, fetch, posts, posts, notify);
  }

  /** Every non-empty fetch is already what the map holds. */
  predicate Settled(ups: seq<UP>, fetch: string -> seq<DynamicContent>, posts: PostMap) {
    forall i :: 0 <= i < |ups| && |fetch(ups[i].mid)| > 0 ==>
      ups[i].mid in posts && posts[ups[i].mid] == fetch(ups[i].mid)
  }

  /** A settled account: its merge keeps the map and raises no notice. */
  lemma SettledAccount(up: UP, fetched: seq<DynamicContent>, posts: PostMap, notify: bool)
    requires |fetched| > 0 ==> up.mid in posts && posts[up.mid] == fetched
    ensures MergeAccount(up, fetched, posts, notify).posts == posts
    ensures Filter(MergeAccount(up, fetched, posts, notify).effects, IsNotice) == []
  {
    if |fetched| > 0 {
      assert posts[up.mid := fetched] == posts;
      assert !AnnouncesHead(posts, up.mid, fetched);
    }
  }

  /** The accounts after the first of a settled list are settled too. */
  lemma SettledTail(ups: seq<UP>, fetch: string -> seq<DynamicContent>, posts: PostMap)
    requires |ups| > 0 && Settled(ups, fetch, posts)
    ensures Settled(ups[1..], fetch, posts)
  {
    forall i | 0 <= i < |ups[1..]| && |fetch(ups[1..][i].mid)| > 0
      ensures ups[1..][i].mid in posts && posts[ups[1..][i].mid] == fetch(ups[1..][i].mid)
    {
      assert ups[1..][i] == ups[i + 1];
    }
  }

  lemma {:induction false} MergeAccountsSettled(ups: seq<UP>, fetch: string -> seq<DynamicContent>, posts: PostMap, notify: bool)
    requires Settled(ups, fetch, posts)
    ensures MergeAccounts(ups, fetch, posts, notify).posts == posts
    ensures Filter(MergeAccounts(ups, fetch, posts, notify).effects, IsNotice) == []
    decreases |ups|
  {
    if |ups| > 0 {
      var first := MergeAccount(ups[0], fetch(ups[0].mid), posts, notify);
      var rest := MergeAccounts(ups[1..], fetch, first.posts, notify);
      FilterConcat(first.effects, rest.effects, IsNotice);
      SettledAccount(ups[0], fetch(ups[0].mid), posts, notify);
      SettledTail(ups, fetch, posts);
      MergeAccountsSettled(ups[1..], fetch, posts, notify);
    }
  }

  /** A second dynamics cycle over the same fetch results leaves the map as
      the first one left it and sends no notification. */
  lemma PollDynamicsIdempotent(s: Service, settings: Settings, granted: bool, ups: seq<UP>, posts: PostMap,
                               fetch: string -> seq<DynamicContent>)
    ensures var c1 := PollDynamics(s, settings, granted, ups, posts, fetch);
            var c2 := PollDynamics(c1.service, settings, granted, ups, c1.posts, fetch);
            c2.posts == c1.posts && c2.service == c1.service && Filter(c2.effects, IsNotice) == []
  {
    var c1 := PollDynamics(s, settings, granted, ups, posts, fetch);
    var notify := settings.enableNotifications && granted;
    if !s.isPollingDynamics && settings.cookie != "" {
      var m1 := MergeAccounts(ups, fetch, posts, notify);
      MergeAccountsKeys(ups, fetch, posts, notify);
      assert Settled(ups, fetch, m1.posts) by {
        forall i | 0 <= i < |ups| && |fetch(ups[i].mid)| > 0
          ensures ups[i].mid in m1.posts && m1.posts[ups[i].mid] == fetch(ups[i].mid)
        {
          assert ups[i].mid in RefreshedMids(ups, fetch);
          MergeAccountsRefreshed(ups, fetch, posts, notify, ups[i].mid);
        }
      }
      MergeAccountsSettled(ups, fetch, m1.posts, notify);
    }
  }

  /** A post as the dynamics mapper produces it, for the scenario below. */
  function ScenarioPost(id: string, timestamp: int, title: string, isRead: Option<bool>): DynamicContent {
    DynamicContent(id, "42", timestamp, title, "", Some(""), [], Api.DynamicUrlPrefix + id, id,
                   Api.DefaultCommentType, None, isRead)
  }

  /** The scenario's account and its fetch: three posts, newest first. */
  const ScenarioUP := UP("42", "Alice", "face.jpg")

  function ScenarioFetch(mid: string): seq<DynamicContent> {
    [ScenarioPost("3", 300, "third", None), ScenarioPost("2", 200, "second", None), ScenarioPost("1", 100, "first", None)]
  }

  /** The account loop of the scenario below. */
  lemma NewPostMerge()
    ensures var cached := map["42" := [ScenarioPost("1", 100, "first", Some(true))]];
            var m := MergeAccounts([ScenarioUP], ScenarioFetch, cached, true);
            && m.posts == map["42" := ScenarioFetch("42")]
            && Filter(m.effects, IsNotice) == [DesktopNotice("Bili Monitor: " + "Alice", "third", "face.jpg")]
            && RefreshedMids([ScenarioUP], ScenarioFetch) != {}
  {
    var up := ScenarioUP;
    var cached := map["42" := [ScenarioPost("1", 100, "first", Some(true))]];
    var fetched := ScenarioFetch("42");
    assert [up][0] == up && [up][1..] == [];
    var first := MergeAccount(up, fetched, cached, true);
    assert AnnouncesHead(cached, "42", fetched);
    assert Headline(fetched[0]) == "third";
    assert Filter(first.effects, IsNotice) == [DesktopNotice("Bili Monitor: " + "Alice", "third", "face.jpg")];
    assert first.posts == map["42" := fetched];
    MergeAccountsCons([up], ScenarioFetch, cached, true);
    assert MergeAccounts([up], ScenarioFetch, cached, true).effects == first.effects + [] == first.effects;
    assert "42" in RefreshedMids([up], ScenarioFetch) by { assert [up][0].mid == "42"; }
  }

  /** An account whose cache holds one read post at t=100 and whose fetch
      returns three posts newest first: the cached list is replaced wholesale
      (so the read mark is gone), one notification names the account and
      carries the newest title, the map is saved and the listener called. */
  lemma NewPostScenario()
    ensures
      var cached := map["42" := [ScenarioPost("1", 100, "first", Some(true))]];
      var settings := Storage.DefaultSettings.(cookie := "SESSDATA=x");
      var c := PollDynamics(Fresh.(listeners := {7}), settings, true, [ScenarioUP], cached, ScenarioFetch);
      && c.posts == map["42" := ScenarioFetch("42")]
      && Filter(c.effects, IsNotice) == [DesktopNotice("Bili Monitor: " + "Alice", "third", "face.jpg")]
      && Filter(c.effects, IsSave) == [SavePosts(c.posts)]
      && c.effects[|c.effects| - 1] == CallListeners({7})
  {
    NewPostMerge();
  }

  /** Posts produced by the dynamics mapper carry no comments, so a dynamics
      cycle that refreshes an account drops the comment threads a comment
      cycle had attached to its cached posts. */
  lemma DynamicsCycleDropsComments(s: Service, settings: Settings, granted: bool, ups: seq<UP>, posts: PostMap,
                                   responses: string -> Option<Api.DynamicsResponse>, k: string)
    requires !s.isPollingDynamics && settings.cookie != ""
    requires k in RefreshedMids(ups, mid => Api.FetchDynamics(responses(mid)))
    ensures var c := PollDynamics(s, settings, granted, ups, posts, mid => Api.FetchDynamics(responses(mid)));
            k in c.posts && forall d :: d in c.posts[k] ==> d.comments.None?
  {
    var fetch: string -> seq<DynamicContent> := mid => Api.FetchDynamics(responses(mid));
    MergeAccountsRefreshed(ups, fetch, posts, settings.enableNotifications && granted, k);
  }

  // ---- comment cycle ----

  /** `now - dynamic.timestamp > timeLimitSeconds` skips a post; with the
      range unset the limit is NaN, the comparison is false and no post is
      skipped. Both sides are scaled to milliseconds. */
  predicate Recent(d: DynamicContent, nowMs: int, rangeHours: Option<int>) {
    rangeHours.None? || !(nowMs - d.timestamp * 1000 > rangeHours.value * 3600000)
  }

  lemma RecentWindow(d: DynamicContent, nowMs: int, hours: int)
    ensures Recent(d, nowMs, Some(hours)) <==> d.timestamp * 1000 >= nowMs - hours * 3600000
    ensures d.timestamp * 1000 == nowMs - hours * 3600000 ==> Recent(d, nowMs, Some(hours))
  {
  }

  /** A top-level comment that reports replies but arrived without any. */
  predicate NeedsBackfill(c: Comment) {
    c.replyCount.Some? && c.replyCount.value > 0 && |c.replies.OrEmpty()| == 0
  }

  /** The thread root to ask for: `rootId || id`. */
  function RootFor(c: Comment): (root: string)
    ensures root == c.id || (c.rootId == Some(root) && root != "")
    ensures c.rootId.Some? && c.rootId.value != "" ==> root == c.rootId.value
    ensures c.rootId.None? || c.rootId.value == "" ==> root == c.id
  {
    if c.rootId.Some? && c.rootId.value != "" then c.rootId.value else c.id
  }

  /** One comment after the back-fill step: the fetched sub-replies replace
      the missing ones, unless the fetch came back empty. */
  function Backfilled(oid: string, commentType: int, c: Comment, subs: (string, int, string) -> seq<Comment>): (b: Comment)
    ensures b.(replies := c.replies) == c
    ensures !NeedsBackfill(c) ==> b == c
    ensures NeedsBackfill(b) <==> NeedsBackfill(c) && |subs(oid, commentType, RootFor(c))| == 0
    ensures NeedsBackfill(c) && |subs(oid, commentType, RootFor(c))| > 0 ==>
              b.replies == Present(subs(oid, commentType, RootFor(c)))
  {
    if NeedsBackfill(c) then
      var fetched := subs(oid, commentType, RootFor(c));
      if |fetched| > 0 then c.(replies := Present(fetched)) else c
    else c
  }

  /** A second back-fill with the same fetch results changes nothing. */
  lemma BackfilledIdempotent(oid: string, commentType: int, c: Comment, subs: (string, int, string) -> seq<Comment>)
    ensures Backfilled(oid, commentType, Backfilled(oid, commentType, c, subs), subs) == Backfilled(oid, commentType, c, subs)
  {
  }

  function BackfillAll(oid: string, commentType: int, cs: seq<Comment>, subs: (string, int, string) -> seq<Comment>): (r: seq<Comment>)
    ensures |r| == |cs|
    ensures forall i :: 0 <= i < |cs| ==> r[i] == Backfilled(oid, commentType, cs[i], subs)
  {
    seq(|cs|, i requires 0 <= i < |cs| => Backfilled(oid, commentType, cs[i], subs))
  }

  /** The sub-reply fetches of the back-fill loop, in comment order. */
  function SubFetches(oid: string, commentType: int, cs: seq<Comment>): (es: seq<Effect>)
    ensures |es| <= |cs|
    ensures forall e :: e in es ==> IsRepliesFetch(e) && e.oid == oid && e.commentType == commentType
    ensures forall i :: 0 <= i < |cs| && NeedsBackfill(cs[i]) ==>
              FetchSubRepliesOf(oid, commentType, RootFor(cs[i])) in es
    ensures forall e | e in es ::
              exists i :: 0 <= i < |cs| && NeedsBackfill(cs[i]) && e == FetchSubRepliesOf(oid, commentType, RootFor(cs[i]))
    ensures (exists i :: 0 <= i < |cs| && NeedsBackfill(cs[i])) <==> |es| > 0
    decreases |cs|
  {
    if |cs| == 0 then []
    else
      var rest := SubFetches(oid, commentType, cs[1..]);
      assert forall i :: 1 <= i < |cs| ==> cs[i] == cs[1..][i - 1];
      (if NeedsBackfill(cs[0]) then [FetchSubRepliesOf(oid, commentType, RootFor(cs[0]))] else []) + rest
  }

  /** The fetches follow comment order: those of a prefix come first. */
  lemma {:induction false} SubFetchesConcat(oid: string, commentType: int, a: seq<Comment>, b: seq<Comment>)
    ensures SubFetches(oid, commentType, a + b) == SubFetches(oid, commentType, a) + SubFetches(oid, commentType, b)
    decreases |a|
  {
    if |a| == 0 {
      assert a + b == b;
    } else {
      assert (a + b)[0] == a[0] && (a + b)[1..] == a[1..] + b;
      SubFetchesConcat(oid, commentType, a[1..], b);
      var h := if NeedsBackfill(a[0]) then [FetchSubRepliesOf(oid, commentType, RootFor(a[0]))] else [];
      Storage.SeqAssoc(h, SubFetches(oid, commentType, a[1..]), SubFetches(oid, commentType, b));
    }
  }

  /** A recent post after its comment fetch: the comment list, back-filled,
      replaces whatever the post held, even when it is empty. */
  function RefreshPost(d: DynamicContent, comments: (string, int) -> seq<Comment>,
                       subs: (string, int, string) -> seq<Comment>): (r: DynamicContent)
    ensures r.(comments := d.comments) == d
    ensures r.comments.Some?
    ensures r.comments.value == BackfillAll(d.commentOid, d.commentType, comments(d.commentOid, d.commentType), subs)
  {
    d.(comments := Some(BackfillAll(d.commentOid, d.commentType, comments(d.commentOid, d.commentType), subs)))
  }

  /** What fetching one recent post's comments does to the outside world. */
  function PostEffects(d: DynamicContent, comments: (string, int) -> seq<Comment>): (es: seq<Effect>)
    ensures Filter(es, IsCommentsFetch) == [FetchCommentsOf(d.commentOid, d.commentType)]
    ensures Filter(es, IsRepliesFetch) == SubFetches(d.commentOid, d.commentType, comments(d.commentOid, d.commentType))
    ensures Filter(es, IsSave) == [] && Filter(es, IsNotice) == []
    ensures forall e | e in es :: IsCommentsFetch(e) || IsRepliesFetch(e)
  {
    var es := SubFetches(d.commentOid, d.commentType, comments(d.commentOid, d.commentType));
    FilterAll(es, IsRepliesFetch);
    FilterConcat([FetchCommentsOf(d.commentOid, d.commentType)], es, IsRepliesFetch);
    FilterNone(es, IsCommentsFetch);
    FilterNone(es, IsSave);
    FilterNone(es, IsNotice);
    FilterConcat([FetchCommentsOf(d.commentOid, d.commentType)], es, IsCommentsFetch);
    FilterConcat([FetchCommentsOf(d.commentOid, d.commentType)], es, IsSave);
    FilterConcat([FetchCommentsOf(d.commentOid, d.commentType)], es, IsNotice);
    [FetchCommentsOf(d.commentOid, d.commentType)] + es
  }

  lemma {:induction false} FilterNone(es: seq<Effect>, keep: Effect -> bool)
    requires forall e :: e in es ==> !keep(e)
    ensures Filter(es, keep) == []
    decreases |es|
  {
    if |es| > 0 {
      assert forall e :: e in es[1..] ==> e in es;
      FilterNone(es[1..], keep);
    }
  }

  /** The comment fetches expected for a list: one per recent post, in order. */
  function CommentFetches(ds: seq<DynamicContent>, nowMs: int, rangeHours: Option<int>): (es: seq<Effect>)
    ensures |es| <= |ds|
    decreases |ds|
  {
    if |ds| == 0 then []
    else
      (if Recent(ds[0], nowMs, rangeHours) then [FetchCommentsOf(ds[0].commentOid, ds[0].commentType)] else [])
        + CommentFetches(ds[1..], nowMs, rangeHours)
  }

  /** The sub-reply fetches expected for a list: those of each recent
      post's fetched thread, in list order. */
  function ThreadFetches(ds: seq<DynamicContent>, nowMs: int, rangeHours: Option<int>,
                         comments: (string, int) -> seq<Comment>): seq<Effect>
    decreases |ds|
  {
    if |ds| == 0 then []
    else
      (if Recent(ds[0], nowMs, rangeHours)
       then SubFetches(ds[0].commentOid, ds[0].commentType, comments(ds[0].commentOid, ds[0].commentType))
       else [])
        + ThreadFetches(ds[1..], nowMs, rangeHours, comments)
  }

  datatype Pass = Pass(list: seq<DynamicContent>, effects: seq<Effect>, changed: bool)

  /** What one iteration of the inner loop makes of a post: a recent post
      gets its thread refreshed, any other is left alone. */
  function Visit(d: DynamicContent, nowMs: int, rangeHours: Option<int>,
                 comments: (string, int) -> seq<Comment>, subs: (string, int, string) -> seq<Comment>): (r: DynamicContent)
    ensures r.(comments := d.comments) == d
    ensures Recent(d, nowMs, rangeHours) ==>
              r.comments == Some(BackfillAll(d.commentOid, d.commentType, comments(d.commentOid, d.commentType), subs))
    ensures !Recent(d, nowMs, rangeHours) ==> r == d
  {
    if Recent(d, nowMs, rangeHours) then RefreshPost(d, comments, subs) else d
  }

  /** The inner loop of `pollComments` over one account's posts. */
  function RefreshList(ds: seq<DynamicContent>, nowMs: int, rangeHours: Option<int>,
                       comments: (string, int) -> seq<Comment>, subs: (string, int, string) -> seq<Comment>): (r: Pass)
    ensures |r.list| == |ds|
    ensures forall i :: 0 <= i < |ds| ==> r.list[i] == Visit(ds[i], nowMs, rangeHours, comments, subs)
    ensures forall e | e in r.effects :: IsCommentsFetch(e) || IsRepliesFetch(e)
    decreases |ds|
  {
    if |ds| == 0 then Pass([], [], false)
    else
      var rest := RefreshList(ds[1..], nowMs, rangeHours, comments, subs);
      var recent := Recent(ds[0], nowMs, rangeHours);
      var list := seq(|ds|, i requires 0 <= i < |ds| => Visit(ds[i], nowMs, rangeHours, comments, subs));
      var head := if recent then PostEffects(ds[0], comments) else [];
      Pass(list, head + rest.effects, recent || rest.changed)
  }

  /** A list with a post inside the comment window. */
  predicate HasRecent(ds: seq<DynamicContent>, nowMs: int, rangeHours: Option<int>) {
    exists i :: 0 <= i < |ds| && Recent(ds[i], nowMs, rangeHours)
  }

  /** The pass reports a change exactly when some post is inside the window. */
  lemma {:induction false} RefreshListChanged(ds: seq<DynamicContent>, nowMs: int, rangeHours: Option<int>,
                                              comments: (string, int) -> seq<Comment>,
                                              subs: (string, int, string) -> seq<Comment>)
    ensures RefreshList(ds, nowMs, rangeHours, comments, subs).changed <==> HasRecent(ds, nowMs, rangeHours)
    decreases |ds|
  {
    if |ds| > 0 {
      RefreshListChanged(ds[1..], nowMs, rangeHours, comments, subs);
      assert forall i :: 1 <= i < |ds| ==> ds[i] == ds[1..][i - 1];
    }
  }

  /** One comment fetch per recent post, in list order, followed by the
      sub-reply fetches of that post's thread; no save or notice from
      inside the loop. */
  lemma {:induction false} RefreshListEffects(ds: seq<DynamicContent>, nowMs: int, rangeHours: Option<int>,
                                              comments: (string, int) -> seq<Comment>,
                                              subs: (string, int, string) -> seq<Comment>)
    ensures var es := RefreshList(ds, nowMs, rangeHours, comments, subs).effects;
            && Filter(es, IsCommentsFetch) == CommentFetches(ds, nowMs, rangeHours)
            && Filter(es, IsRepliesFetch) == ThreadFetches(ds, nowMs, rangeHours, comments)
            && Filter(es, IsSave) == [] && Filter(es, IsNotice) == []
    decreases |ds|
  {
    if |ds| > 0 {
      var rest := RefreshList(ds[1..], nowMs, rangeHours, comments, subs);
      RefreshListEffects(ds[1..], nowMs, rangeHours, comments, subs);
      var es := if Recent(ds[0], nowMs, rangeHours) then PostEffects(ds[0], comments) else [];
      assert RefreshList(ds, nowMs, rangeHours, comments, subs).effects == es + rest.effects;
      FilterConcat(es, rest.effects, IsCommentsFetch);
      FilterConcat(es, rest.effects, IsRepliesFetch);
      FilterConcat(es, rest.effects, IsSave);
      FilterConcat(es, rest.effects, IsNotice);
    }
  }

  /** A second pass over a list with the same fetch results and clock
      yields the same list: each recent post's comments are replaced
      again by the same back-filled thread. */
  lemma RefreshListIdempotent(ds: seq<DynamicContent>, nowMs: int, rangeHours: Option<int>,
                              comments: (string, int) -> seq<Comment>, subs: (string, int, string) -> seq<Comment>)
    ensures var once := RefreshList(ds, nowMs, rangeHours, comments, subs).list;
            RefreshList(once, nowMs, rangeHours, comments, subs).list == once
  {
    var once := RefreshList(ds, nowMs, rangeHours, comments, subs).list;
    var twice := RefreshList(once, nowMs, rangeHours, comments, subs).list;
    forall i | 0 <= i < |ds| ensures twice[i] == once[i] {
      if Recent(ds[i], nowMs, rangeHours) {
        assert once[i].(comments := ds[i].comments) == ds[i];
      }
    }
  }

  predicate Distinct(order: seq<string>) {
    forall i, j :: 0 <= i < j < |order| ==> order[i] != order[j]
  }

  /** The `for (const mid in dynamicsMap)` order: every key once. */
  predicate Enumerates(order: seq<string>, posts: PostMap) {
    && (forall i :: 0 <= i < |order| ==> order[i] in posts)
    && (forall k :: k in posts ==> k in order)
    && Distinct(order)
  }

  datatype Sweep = Sweep(posts: PostMap, effects: seq<Effect>, changed: bool)

  /** The outer loop of `pollComments`, visiting accounts in `order`. */
  function RefreshAccounts(order: seq<string>, posts: PostMap, nowMs: int, rangeHours: Option<int>,
                           comments: (string, int) -> seq<Comment>, subs: (string, int, string) -> seq<Comment>): (r: Sweep)
    requires forall i :: 0 <= i < |order| ==> order[i] in posts
    ensures r.posts.Keys == posts.Keys
    ensures Filter(r.effects, IsSave) == [] && Filter(r.effects, IsNotice) == []
    ensures forall e | e in r.effects :: IsCommentsFetch(e) || IsRepliesFetch(e)
    decreases |order|
  {
    if |order| == 0 then Sweep(posts, [], false)
    else
      var k := order[0];
      var p := RefreshList(posts[k], nowMs, rangeHours, comments, subs);
      var rest := RefreshAccounts(order[1..], posts[k := p.list], nowMs, rangeHours, comments, subs);
      RefreshListEffects(posts[k], nowMs, rangeHours, comments, subs);
      FilterConcat(p.effects, rest.effects, IsSave);
      FilterConcat(p.effects, rest.effects, IsNotice);
      Sweep(rest.posts, p.effects + rest.effects, p.changed || rest.changed)
  }

  /** An account the loop does not visit keeps its list. */
  lemma {:induction false} RefreshAccountsSkipped(order: seq<string>, posts: PostMap, nowMs: int, rangeHours: Option<int>,
                                                  comments: (string, int) -> seq<Comment>,
                                                  subs: (string, int, string) -> seq<Comment>, k: string)
    requires forall i :: 0 <= i < |order| ==> order[i] in posts
    requires k in posts && k !in order
    ensures RefreshAccounts(order, posts, nowMs, rangeHours, comments, subs).posts[k] == posts[k]
    decreases |order|
  {
    if |order| > 0 {
      var p := RefreshList(posts[order[0]], nowMs, rangeHours, comments, subs);
      assert k !in order[1..];
      RefreshAccountsSkipped(order[1..], posts[order[0] := p.list], nowMs, rangeHours, comments, subs, k);
    }
  }

  /** An account the loop visits once holds its refreshed list. */
  lemma {:induction false} RefreshAccountsVisited(order: seq<string>, posts: PostMap, nowMs: int, rangeHours: Option<int>,
                                                  comments: (string, int) -> seq<Comment>,
                                                  subs: (string, int, string) -> seq<Comment>, k: string)
    requires forall i :: 0 <= i < |order| ==> order[i] in posts
    requires Distinct(order) && k in order
    ensures RefreshAccounts(order, posts, nowMs, rangeHours, comments, subs).posts[k]
            == RefreshList(posts[k], nowMs, rangeHours, comments, subs).list
    decreases |order|
  {
    var p := RefreshList(posts[order[0]], nowMs, rangeHours, comments, subs);
    var next := posts[order[0] := p.list];
    assert forall i :: 0 <= i < |order[1..]| ==> order[1..][i] == order[i + 1];
    if k == order[0] {
      assert k !in order[1..];
      RefreshAccountsSkipped(order[1..], next, nowMs, rangeHours, comments, subs, k);
    } else {
      RefreshAccountsVisited(order[1..], next, nowMs, rangeHours, comments, subs, k);
    }
  }

  /** The loop saves exactly when some visited account has a recent post. */
  lemma {:induction false} RefreshAccountsChanged(order: seq<string>, posts: PostMap, nowMs: int, rangeHours: Option<int>,
                                                  comments: (string, int) -> seq<Comment>,
                                                  subs: (string, int, string) -> seq<Comment>)
    requires forall i :: 0 <= i < |order| ==> order[i] in posts
    requires Distinct(order)
    ensures RefreshAccounts(order, posts, nowMs, rangeHours, comments, subs).changed <==>
              exists j :: 0 <= j < |order| && HasRecent(posts[order[j]], nowMs, rangeHours)
    decreases |order|
  {
    if |order| > 0 {
      var p := RefreshList(posts[order[0]], nowMs, rangeHours, comments, subs);
      var next := posts[order[0] := p.list];
      assert forall j :: 1 <= j < |order| ==> order[j] != order[0];
      RefreshListChanged(posts[order[0]], nowMs, rangeHours, comments, subs);
      RefreshAccountsChanged(order[1..], next, nowMs, rangeHours, comments, subs);
      SomeRecentCons(order, posts, next, nowMs, rangeHours);
    }
  }

  /** Whether some account of `order` has a recent post splits into the
      first account and the rest, read in a map that agrees on the rest. */
  lemma SomeRecentCons(order: seq<string>, posts: PostMap, next: PostMap, nowMs: int, rangeHours: Option<int>)
    requires |order| > 0 && forall i :: 0 <= i < |order| ==> order[i] in posts
    requires forall j :: 1 <= j < |order| ==> order[j] in next && next[order[j]] == posts[order[j]]
    ensures (exists j :: 0 <= j < |order| && HasRecent(posts[order[j]], nowMs, rangeHours)) <==>
              HasRecent(posts[order[0]], nowMs, rangeHours) ||
              exists j :: 0 <= j < |order[1..]| && HasRecent(next[order[1..][j]], nowMs, rangeHours)
  {
    if exists j :: 0 <= j < |order| && HasRecent(posts[order[j]], nowMs, rangeHours) {
      var j :| 0 <= j < |order| && HasRecent(posts[order[j]], nowMs, rangeHours);
      if j > 0 {
        assert order[1..][j - 1] == order[j];
      }
    }
    if exists j :: 0 <= j < |order[1..]| && HasRecent(next[order[1..][j]], nowMs, rangeHours) {
      var j :| 0 <= j < |order[1..]| && HasRecent(next[order[1..][j]], nowMs, rangeHours);
      assert order[1..][j] == order[j + 1];
    }
  }

  /** The comment fetches expected for a sweep: each account's in `order`. */
  function SweepCommentFetches(order: seq<string>, posts: PostMap, nowMs: int, rangeHours: Option<int>): seq<Effect>
    requires forall i :: 0 <= i < |order| ==> order[i] in posts
    decreases |order|
  {
    if |order| == 0 then []
    else CommentFetches(posts[order[0]], nowMs, rangeHours) + SweepCommentFetches(order[1..], posts, nowMs, rangeHours)
  }

  /** The sub-reply fetches expected for a sweep: each account's in `order`. */
  function SweepThreadFetches(order: seq<string>, posts: PostMap, nowMs: int, rangeHours: Option<int>,
                              comments: (string, int) -> seq<Comment>): seq<Effect>
    requires forall i :: 0 <= i < |order| ==> order[i] in posts
    decreases |order|
  {
    if |order| == 0 then []
    else ThreadFetches(posts[order[0]], nowMs, rangeHours, comments) + SweepThreadFetches(order[1..], posts, nowMs, rangeHours, comments)
  }

  /** Replacing the list of an account outside `order` does not change
      the fetches expected for it. */
  lemma {:induction false} SweepFetchesFrame(order: seq<string>, posts: PostMap, nowMs: int, rangeHours: Option<int>,
                                             comments: (string, int) -> seq<Comment>, k: string, v: seq<DynamicContent>)
    requires forall i :: 0 <= i < |order| ==> order[i] in posts
    requires k !in order
    ensures SweepCommentFetches(order, posts[k := v], nowMs, rangeHours) == SweepCommentFetches(order, posts, nowMs, rangeHours)
    ensures SweepThreadFetches(order, posts[k := v], nowMs, rangeHours, comments)
            == SweepThreadFetches(order, posts, nowMs, rangeHours, comments)
    decreases |order|
  {
    if |order| > 0 {
      assert k !in order[1..];
      SweepFetchesFrame(order[1..], posts, nowMs, rangeHours, comments, k, v);
    }
  }

  /** The sweep's fetch trace: the comment fetches and, separately, the
      sub-reply fetches of every account, account by account in `order`. */
  lemma {:induction false} RefreshAccountsFetches(order: seq<string>, posts: PostMap, nowMs: int, rangeHours: Option<int>,
                                                  comments: (string, int) -> seq<Comment>,
                                                  subs: (string, int, string) -> seq<Comment>)
    requires forall i :: 0 <= i < |order| ==> order[i] in posts
    requires Distinct(order)
    ensures var es := RefreshAccounts(order, posts, nowMs, rangeHours, comments, subs).effects;
            && Filter(es, IsCommentsFetch) == SweepCommentFetches(order, posts, nowMs, rangeHours)
            && Filter(es, IsRepliesFetch) == SweepThreadFetches(order, posts, nowMs, rangeHours, comments)
    decreases |order|
  {
    if |order| > 0 {
      var k := order[0];
      var p := RefreshList(posts[k], nowMs, rangeHours, comments, subs);
      var next := posts[k := p.list];
      var rest := RefreshAccounts(order[1..], next, nowMs, rangeHours, comments, subs);
      assert forall i :: 0 <= i < |order[1..]| ==> order[1..][i] == order[i + 1];
      assert k !in order[1..];
      RefreshAccountsFetches(order[1..], next, nowMs, rangeHours, comments, subs);
      SweepFetchesFrame(order[1..], posts, nowMs, rangeHours, comments, k, p.list);
      RefreshListEffects(posts[k], nowMs, rangeHours, comments, subs);
      FilterConcat(p.effects, rest.effects, IsCommentsFetch);
      FilterConcat(p.effects, rest.effects, IsRepliesFetch);
    }
  }

  /** Some cached post is inside the comment window. */
  predicate AnyRecent(posts: PostMap, nowMs: int, rangeHours: Option<int>) {
    exists k :: k in posts && HasRecent(posts[k], nowMs, rangeHours)
  }

  lemma RefreshAccountsRecent(order: seq<string>, posts: PostMap, nowMs: int, rangeHours: Option<int>,
                              comments: (string, int) -> seq<Comment>, subs: (string, int, string) -> seq<Comment>)
    requires Enumerates(order, posts)
    ensures RefreshAccounts(order, posts, nowMs, rangeHours, comments, subs).changed <==> AnyRecent(posts, nowMs, rangeHours)
  {
    RefreshAccountsChanged(order, posts, nowMs, rangeHours, comments, subs);
    if RefreshAccounts(order, posts, nowMs, rangeHours, comments, subs).changed {
      var j :| 0 <= j < |order| && HasRecent(posts[order[j]], nowMs, rangeHours);
      assert order[j] in posts;
    }
    if AnyRecent(posts, nowMs, rangeHours) {
      var k :| k in posts && HasRecent(posts[k], nowMs, rangeHours);
      var j :| 0 <= j < |order| && order[j] == k;
    }
  }

  lemma RefreshAccountsPosts(order: seq<string>, posts: PostMap, nowMs: int, rangeHours: Option<int>,
                             comments: (string, int) -> seq<Comment>, subs: (string, int, string) -> seq<Comment>)
    requires Enumerates(order, posts)
    ensures forall k :: k in posts ==>
              RefreshAccounts(order, posts, nowMs, rangeHours, comments, subs).posts[k]
              == RefreshList(posts[k], nowMs, rangeHours, comments, subs).list
  {
    forall k | k in posts
      ensures RefreshAccounts(order, posts, nowMs, rangeHours, comments, subs).posts[k]
              == RefreshList(posts[k], nowMs, rangeHours, comments, subs).list
    {
      RefreshAccountsVisited(order, posts, nowMs, rangeHours, comments, subs, k);
    }
  }

  /** The comment sweep only fetches comments and sub-replies. */
  lemma SweepKinds(es: seq<Effect>)
    requires forall e | e in es :: IsCommentsFetch(e) || IsRepliesFetch(e)
    ensures Filter(es, IsSave) == [] && Filter(es, IsListenerCall) == []
    ensures Filter(es, IsDynamicsFetch) == [] && Filter(es, IsNotice) == []
  {
    FilterNone(es, IsSave);
    FilterNone(es, IsListenerCall);
    FilterNone(es, IsDynamicsFetch);
    FilterNone(es, IsNotice);
  }

  /** The body of `pollComments` once the guard has passed. */
  function CommentsPass(s: Service, nowMs: int, rangeHours: Option<int>, order: seq<string>, posts: PostMap,
                        comments: (string, int) -> seq<Comment>, subs: (string, int, string) -> seq<Comment>): (c: Cycle)
    requires Enumerates(order, posts)
    ensures c.service == s && c.posts.Keys == posts.Keys
    ensures Filter(c.effects, IsNotice) == []
    ensures Filter(c.effects, IsSave) == (if AnyRecent(posts, nowMs, rangeHours) then [SavePosts(c.posts)] else [])
    ensures Filter(c.effects, IsListenerCall) == (if AnyRecent(posts, nowMs, rangeHours) then [CallListeners(s.listeners)] else [])
    ensures AnyRecent(posts, nowMs, rangeHours) ==> c.effects[|c.effects| - 1] == CallListeners(s.listeners)
    ensures Filter(c.effects, IsDynamicsFetch) == []
    ensures Filter(c.effects, IsCommentsFetch) == SweepCommentFetches(order, posts, nowMs, rangeHours)
    ensures Filter(c.effects, IsRepliesFetch) == SweepThreadFetches(order, posts, nowMs, rangeHours, comments)
    ensures c.posts == RefreshAccounts(order, posts, nowMs, rangeHours, comments, subs).posts
  {
    var w := RefreshAccounts(order, posts, nowMs, rangeHours, comments, subs);
    RefreshAccountsRecent(order, posts, nowMs, rangeHours, comments, subs);
    RefreshAccountsFetches(order, posts, nowMs, rangeHours, comments, subs);
    SweepKinds(w.effects);
    Conclude(s, w.effects, w.changed, w.posts)
  }

  /** `pollComments`. The clock reading is `nowMs`; the comment window is
      `commentTimeRange` hours. The busy flag is raised for the loop and
      lowered in `finally`. */
  function PollComments(s: Service, settings: Settings, nowMs: int, order: seq<string>, posts: PostMap,
                        comments: (string, int) -> seq<Comment>, subs: (string, int, string) -> seq<Comment>): (c: Cycle)
    requires Enumerates(order, posts)
    ensures c.service == s
    ensures s.isPollingComments || settings.cookie == "" ==> c == Cycle(s, posts, [])
    ensures !s.isPollingComments && settings.cookie != "" ==>
              c == CommentsPass(s, nowMs, settings.commentTimeRange, order, posts, comments, subs)
  {
    if s.isPollingComments || settings.cookie == "" then Cycle(s, posts, [])
    else
      var busy := s.(isPollingComments := true);
      var c := CommentsPass(busy, nowMs, settings.commentTimeRange, order, posts, comments, subs);
      c.(service := c.service.(isPollingComments := false))
  }

  lemma EnumeratesSameKeys(order: seq<string>, posts: PostMap, other: PostMap)
    requires Enumerates(order, posts) && other.Keys == posts.Keys
    ensures Enumerates(order, other)
  {
  }

  lemma RefreshAccountsSettledKey(order: seq<string>, order2: seq<string>, posts: PostMap, nowMs: int,
                                  rangeHours: Option<int>, comments: (string, int) -> seq<Comment>,
                                  subs: (string, int, string) -> seq<Comment>, k: string)
    requires Enumerates(order, posts) && Enumerates(order2, posts) && k in posts
    ensures var once := RefreshAccounts(order, posts, nowMs, rangeHours, comments, subs).posts;
            Enumerates(order2, once) &&
            RefreshAccounts(order2, once, nowMs, rangeHours, comments, subs).posts[k] == once[k]
  {
    var once := RefreshAccounts(order, posts, nowMs, rangeHours, comments, subs).posts;
    EnumeratesSameKeys(order2, posts, once);
    RefreshAccountsVisited(order, posts, nowMs, rangeHours, comments, subs, k);
    RefreshAccountsVisited(order2, once, nowMs, rangeHours, comments, subs, k);
    RefreshListIdempotent(posts[k], nowMs, rangeHours, comments, subs);
  }

  lemma RefreshAccountsIdempotent(order: seq<string>, order2: seq<string>, posts: PostMap, nowMs: int,
                                  rangeHours: Option<int>, comments: (string, int) -> seq<Comment>,
                                  subs: (string, int, string) -> seq<Comment>)
    requires Enumerates(order, posts) && Enumerates(order2, posts)
    ensures var once := RefreshAccounts(order, posts, nowMs, rangeHours, comments, subs).posts;
            Enumerates(order2, once) && RefreshAccounts(order2, once, nowMs, rangeHours, comments, subs).posts == once
  {
    var once := RefreshAccounts(order, posts, nowMs, rangeHours, comments, subs).posts;
    EnumeratesSameKeys(order2, posts, once);
    var twice := RefreshAccounts(order2, once, nowMs, rangeHours, comments, subs).posts;
    assert twice.Keys == once.Keys;
    forall k | k in once ensures twice[k] == once[k] {
      RefreshAccountsSettledKey(order, order2, posts, nowMs, rangeHours, comments, subs, k);
    }
    SameEntries(twice, once);
  }

  /** Two post maps with the same keys and the same list at every key are equal. */
  lemma SameEntries(a: PostMap, b: PostMap)
    requires a.Keys == b.Keys && forall k | k in a :: a[k] == b[k]
    ensures a == b
  {
  }

  /** A second comment cycle at the same instant over the same fetch results
      leaves the map as the first one left it, whatever order the keys are
      visited in. */
  lemma PollCommentsIdempotent(s: Service, settings: Settings, nowMs: int, order: seq<string>, order2: seq<string>,
                               posts: PostMap, comments: (string, int) -> seq<Comment>,
                               subs: (string, int, string) -> seq<Comment>)
    requires Enumerates(order, posts) && Enumerates(order2, posts)
    ensures var c1 := PollComments(s, settings, nowMs, order, posts, comments, subs);
            && Enumerates(order2, c1.posts)
            && PollComments(c1.service, settings, nowMs, order2, c1.posts, comments, subs).posts == c1.posts
  {
    RefreshAccountsIdempotent(order, order2, posts, nowMs, settings.commentTimeRange, comments, subs);
  }

  /** What a comment cycle does to one cached post: a post inside the window
      now holds the fetched comment list with its replies back-filled, and
      any other post comes back as it was. */
  lemma PollCommentsPost(s: Service, settings: Settings, nowMs: int, order: seq<string>, posts: PostMap,
                         comments: (string, int) -> seq<Comment>, subs: (string, int, string) -> seq<Comment>,
                         k: string, i: int)
    requires Enumerates(order, posts)
    requires !s.isPollingComments && settings.cookie != ""
    requires k in posts && 0 <= i < |posts[k]|
    ensures var c := PollComments(s, settings, nowMs, order, posts, comments, subs);
            var d := posts[k][i];
            && k in c.posts && |c.posts[k]| == |posts[k]|
            && c.posts[k][i].(comments := d.comments) == d
            && (Recent(d, nowMs, settings.commentTimeRange) ==>
                  c.posts[k][i].comments ==
                    Some(BackfillAll(d.commentOid, d.commentType, comments(d.commentOid, d.commentType), subs)))
            && (!Recent(d, nowMs, settings.commentTimeRange) ==> c.posts[k][i] == d)
  {
    RefreshAccountsVisited(order, posts, nowMs, settings.commentTimeRange, comments, subs, k);
  }
}
