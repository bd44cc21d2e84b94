/** One post in the feed: a thumbnail of the first image with a count badge,
    the headline, and an image viewer over the same image list. */
module DynamicCard {
  import opened Options
  import opened Types
  import Api
  import ImagePreview

  /** The cover is shown when it is a non-empty string. */
  predicate HasCover(d: DynamicContent) {
    d.cover.Some? && d.cover.value != ""
  }

  /** `cover ? [cover, ...images] : images`. */
  function Images(d: DynamicContent): (imgs: seq<string>)
    ensures |imgs| == |d.images| + (if HasCover(d) then 1 else 0)
    ensures imgs[|imgs| - |d.images|..] == d.images
    ensures HasCover(d) ==> imgs[0] == d.cover.value
  {
    if HasCover(d) then [d.cover.value] + d.images else d.images
  }

  datatype CardView = CardView(thumbnail: Option<string>, badge: Option<int>, headline: string, link: string)

  function RenderCard(d: DynamicContent): (v: CardView)
    ensures v.thumbnail.Some? <==> HasCover(d) || |d.images| > 0
    ensures v.thumbnail.Some? ==> v.thumbnail.value == if HasCover(d) then d.cover.value else d.images[0]
    ensures v.badge.Some? <==> |Images(d)| > 1
    ensures v.badge.Some? ==> v.badge.value == |Images(d)|
    ensures v.headline == Headline(d) && v.link == d.jumpUrl
  {
    var imgs := Images(d);
    CardView(if |imgs| > 0 then Some(imgs[0]) else None,
             if |imgs| > 1 then Some(|imgs|) else None,
             Headline(d), d.jumpUrl)
  }

  /** The first time the thumbnail is clicked, the viewer opens on the
      thumbnail, shows its arrows exactly when the card shows a count badge,
      and its counter total is the badge. */
  lemma ThumbnailOpensPreview(d: DynamicContent)
    ensures var v := RenderCard(d);
            var viewer := ImagePreview.Run(ImagePreview.Mount(0), |Images(d)|, [ImagePreview.OpenAt(0)]);
            var p := ImagePreview.Render(Images(d), viewer.index, viewer.isOpen);
            && viewer.isOpen
            && (p.None? <==> v.thumbnail.None?)
            && (p.Some? ==> p.value.shown == v.thumbnail)
            && (p.Some? ==> (p.value.controls <==> v.badge.Some?))
            && (p.Some? && v.badge.Some? ==> p.value.counter == Some((1, v.badge.value)))
  {
    assert [ImagePreview.OpenAt(0)][1..] == [];
  }

  /** A later click on the thumbnail does not bring the viewer back to it:
      after stepping forward and closing, it reopens on the second image. */
  lemma ReopenedPreviewSkipsThumbnail(d: DynamicContent)
    requires |Images(d)| >= 2
    ensures var acts := [ImagePreview.OpenAt(0), ImagePreview.ClickNext, ImagePreview.Close, ImagePreview.OpenAt(0)];
            var viewer := ImagePreview.Run(ImagePreview.Mount(0), |Images(d)|, acts);
            var p := ImagePreview.Render(Images(d), viewer.index, viewer.isOpen);
            && viewer.isOpen && p.Some? && p.value.shown == Some(Images(d)[1])
            && p.value.counter == Some((2, |Images(d)|))
  {
    ImagePreview.ReopenKeepsSavedIndex(|Images(d)|);
  }

  /** With the viewer reset on opening, every click on the thumbnail,
      whatever came before it, opens the viewer on the thumbnail. */
  lemma SafeThumbnailAlwaysOpensPreview(d: DynamicContent, before: seq<ImagePreview.Action>)
    ensures var v := RenderCard(d);
            var viewer := ImagePreview.SafeRun(ImagePreview.Mount(0), |Images(d)|, before + [ImagePreview.OpenAt(0)]);
            var p := ImagePreview.Render(Images(d), viewer.index, viewer.isOpen);
            && viewer.isOpen
            && (p.None? <==> v.thumbnail.None?)
            && (p.Some? ==> p.value.shown == v.thumbnail)
  {
    ImagePreview.SafeReopenShowsInitial(ImagePreview.Mount(0), |Images(d)|, before, 0);
  }

  /** For a post from the feed API only a video has a cover and a video has
      no pictures, so a card shows either the video cover alone or the
      post's pictures. */
  lemma FeedCardImages(item: Api.DynamicItem)
    ensures var b := Api.BodyOf(item);
            Images(Api.MapDynamicItem(item)) == if b.cover != "" then [b.cover] else b.images
  {
    Api.BodyByKind(item);
  }
}
