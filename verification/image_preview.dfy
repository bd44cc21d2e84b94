/** The full-screen image viewer: a current index that wraps around in both
    directions, and a view that shows nothing without images and shows the
    navigation controls and counter only when there is more than one. */
module ImagePreview {
  import opened Options

  /** `%` as JavaScript computes it for a positive divisor: the result takes
      the sign of the dividend. */
  function JsRem(a: int, n: int): (r: int)
    requires n > 0
    ensures -n < r < n
    ensures a >= 0 ==> 0 <= r
    ensures a <= 0 ==> r <= 0
  {
    if a >= 0 then a % n else -((-a) % n)
  }

  /** `(prev + 1) % images.length`; with no images the result is NaN,
      modelled as `None`. */
  function Next(i: int, n: nat): (r: Option<int>)
    ensures r.None? <==> n == 0
    ensures n > 0 && 0 <= i ==> r.Some? && 0 <= r.value < n
    ensures n > 0 && 0 <= i < n - 1 ==> r == Some(i + 1)
    ensures n > 0 && i == n - 1 ==> r == Some(0)
  {
    if n == 0 then None else Some(JsRem(i + 1, n))
  }

  /** `(prev - 1 + images.length) % images.length`. */
  function Prev(i: int, n: nat): (r: Option<int>)
    ensures r.None? <==> n == 0
    ensures n > 0 && 0 <= i ==> r.Some? && 0 <= r.value < n
    ensures n > 0 && 0 < i < n ==> r == Some(i - 1)
    ensures n > 0 && i == 0 ==> r == Some(n - 1)
  {
    if n == 0 then None else Some(JsRem(i - 1 + n, n))
  }

  /** Previous undoes next and next undoes previous on every valid index. */
  lemma NextPrevInverse(i: int, n: nat)
    requires 0 <= i < n
    ensures Prev(Next(i, n).value, n) == Some(i)
    ensures Next(Prev(i, n).value, n) == Some(i)
  {
  }

  /** With a single image both directions stay on it. */
  lemma SingleImageStays(n: nat)
    requires n == 1
    ensures Next(0, n) == Some(0) && Prev(0, n) == Some(0)
  {
  }

  /** The index after `k` clicks on next. */
  function Forward(i: int, n: nat, k: nat): (r: int)
    requires n > 0 && 0 <= i < n
    ensures 0 <= r < n
    decreases k
  {
    if k == 0 then i else Forward(Next(i, n).value, n, k - 1)
  }

  /** `a` clicks and then `b` clicks are `a + b` clicks. */
  lemma {:induction false} ForwardAdd(i: int, n: nat, a: nat, b: nat)
    requires n > 0 && 0 <= i < n
    ensures Forward(i, n, a + b) == Forward(Forward(i, n, a), n, b)
    decreases a
  {
    if a > 0 {
      ForwardAdd(Next(i, n).value, n, a - 1, b);
    }
  }

  /** Before the end of the list, each click moves one image on. */
  lemma {:induction false} ForwardNoWrap(i: int, n: nat, k: nat)
    requires n > 0 && 0 <= i && i + k < n
    ensures Forward(i, n, k) == i + k
    decreases k
  {
    if k > 0 {
      ForwardNoWrap(i + 1, n, k - 1);
    }
  }

  /** Clicking next walks through every image in order from the first, and
      `n` clicks come back to where they started. */
  lemma ForwardVisitsAll(i: int, n: nat, j: nat)
    requires n > 0 && 0 <= i < n && j < n
    ensures Forward(0, n, j) == j
    ensures Forward(i, n, n) == i
  {
    ForwardNoWrap(0, n, j);
    ForwardNoWrap(i, n, n - 1 - i);
    ForwardAdd(i, n, n - 1 - i, 1);
    assert Forward(i, n, n - i) == 0;
    ForwardAdd(i, n, n - i, i);
    ForwardNoWrap(0, n, i);
  }

  /** The viewer's state inside a card: whether the modal is open, and the
      viewer's own current index. `useState(initialIndex)` reads the initial
      index once, when the viewer mounts together with its card; the viewer
      stays mounted while the modal is closed. */
  datatype Viewer = Viewer(isOpen: bool, index: int)

  /** What the user does to a card's viewer: open it from the card with an
      initial index, close it, or click an arrow. */
  datatype Action = OpenAt(initial: int) | Close | ClickNext | ClickPrev

  /** The viewer as it mounts with the card: closed, at the initial index. */
  function Mount(initial: int): Viewer {
    Viewer(false, initial)
  }

  /** One action as the components handle it. Opening only raises the modal
      flag: the new initial index is not read again. The arrows are rendered,
      and so can be clicked, only while the modal is open with more than one
      image. */
  function Step(v: Viewer, n: nat, a: Action): (v': Viewer)
    ensures v'.isOpen <==> a.OpenAt? || (v.isOpen && !a.Close?)
    ensures a.OpenAt? || a.Close? || !v.isOpen || n <= 1 ==> v'.index == v.index
    ensures 0 <= v.index < n ==> 0 <= v'.index < n
  {
    match a
    case OpenAt(_) => v.(isOpen := true)
    case Close => v.(isOpen := false)
    case ClickNext => if v.isOpen && n > 1 then v.(index := Next(v.index, n).value) else v
    case ClickPrev => if v.isOpen && n > 1 then v.(index := Prev(v.index, n).value) else v
  }

  /** A sequence of actions, in order. */
  function Run(v: Viewer, n: nat, acts: seq<Action>): Viewer
    decreases |acts|
  {
    if |acts| == 0 then v else Run(Step(v, n, acts[0]), n, acts[1..])
  }

  /** Whatever the user does, an index that starts on an image stays on one. */
  lemma {:induction false} RunKeepsIndexInRange(v: Viewer, n: nat, acts: seq<Action>)
    requires 0 <= v.index < n
    ensures 0 <= Run(v, n, acts).index < n
    decreases |acts|
  {
    if |acts| > 0 {
      RunKeepsIndexInRange(Step(v, n, acts[0]), n, acts[1..]);
    }
  }

  /** Opening, stepping forward, closing and opening again with the same
      initial index 0 leaves the viewer on the second image: the index
      survives the close. */
  lemma ReopenKeepsSavedIndex(n: nat)
    requires n >= 2
    ensures Run(Mount(0), n, [OpenAt(0), ClickNext, Close, OpenAt(0)]) == Viewer(true, 1)
  {
    var acts := [OpenAt(0), ClickNext, Close, OpenAt(0)];
    assert Run(Mount(0), n, acts) == Run(Viewer(true, 0), n, acts[1..]);
    assert acts[1..][1..] == [Close, OpenAt(0)];
    assert Run(Viewer(true, 0), n, acts[1..]) == Run(Viewer(true, 1), n, [Close, OpenAt(0)]);
    assert [Close, OpenAt(0)][1..] == [OpenAt(0)];
  }

  /** The viewer reset on every opening, as by a `useEffect` on `isOpen` and
      `initialIndex` or a remount keyed on the opening: opening shows the
      initial index. */
  function SafeStep(v: Viewer, n: nat, a: Action): (v': Viewer)
    ensures a.OpenAt? ==> v' == Viewer(true, a.initial)
    ensures !a.OpenAt? ==> v' == Step(v, n, a)
  {
    match a
    case OpenAt(i) => Viewer(true, i)
    case _ => Step(v, n, a)
  }

  function SafeRun(v: Viewer, n: nat, acts: seq<Action>): Viewer
    decreases |acts|
  {
    if |acts| == 0 then v else SafeRun(SafeStep(v, n, acts[0]), n, acts[1..])
  }

  /** Running `acts` and then one more action is one step after `acts`. */
  lemma {:induction false} SafeRunSnoc(v: Viewer, n: nat, acts: seq<Action>, a: Action)
    ensures SafeRun(v, n, acts + [a]) == SafeStep(SafeRun(v, n, acts), n, a)
    decreases |acts|
  {
    if |acts| == 0 {
      assert acts + [a] == [a];
    } else {
      assert (acts + [a])[0] == acts[0] && (acts + [a])[1..] == acts[1..] + [a];
      SafeRunSnoc(SafeStep(v, n, acts[0]), n, acts[1..], a);
    }
  }

  /** With the reset, every opening shows the initial index it was given,
      whatever happened before. */
  lemma SafeReopenShowsInitial(v: Viewer, n: nat, acts: seq<Action>, i: int)
    ensures SafeRun(v, n, acts + [OpenAt(i)]) == Viewer(true, i)
  {
    SafeRunSnoc(v, n, acts, OpenAt(i));
  }

  /** What the viewer renders: the image at the current index (absent when
      the index is out of range), whether the modal is open, and the
      arrows and "current / total" counter when there are several images. */
  datatype View = View(shown: Option<string>, open: bool, controls: bool, counter: Option<(int, int)>)

  function Render(images: seq<string>, index: int, isOpen: bool): (v: Option<View>)
    ensures v.None? <==> |images| == 0
    ensures v.Some? ==> v.value.open == isOpen
    ensures v.Some? ==> (v.value.controls <==> |images| > 1)
    ensures v.Some? ==> (v.value.counter.Some? <==> |images| > 1)
    ensures v.Some? && v.value.counter.Some? ==> v.value.counter.value == (index + 1, |images|)
    ensures v.Some? ==> (v.value.shown.Some? <==> 0 <= index < |images|)
    ensures v.Some? && 0 <= index < |images| ==> v.value.shown == Some(images[index])
  {
    if |images| == 0 then None
    else
      var several := |images| > 1;
      Some(View(if 0 <= index < |images| then Some(images[index]) else None,
                isOpen, several, if several then Some((index + 1, |images|)) else None))
  }
}
