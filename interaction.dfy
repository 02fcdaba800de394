/** The interaction tools: tapping an element found by a selector (and
    logging it), tapping a batch of elements, following a gesture path,
    scrolling about the screen centre, and the ADB fallback of typing. */
module Interaction {
  import opened Base
  import opened Strings
  import opened Adb
  import opened UiAutomator
  import opened Persistence

  /** `adb.tap(x, y)`. */
  function TapCommand(x: int, y: int): string {
    "input tap " + IntToString(x) + " " + IntToString(y)
  }

  /** A call `adb.swipe(x1, y1, x2, y2, duration)`. */
  datatype Swipe = Swipe(x1: int, y1: int, x2: int, y2: int, duration: int) {
    /** The shell command the call issues. */
    function Command(): string {
      "input swipe " + IntToString(x1) + " " + IntToString(y1) + " " + IntToString(x2) + " " + IntToString(y2)
      + " " + IntToString(duration)
    }
  }

  /** A command that ran and exited with status 0. */
  predicate Succeeded(o: Outcome) { o.Ok? && o.value.Success() }

  /** `result.stderr if not result.success else None`. */
  function ErrorOf(res: CommandResult): Option<string> {
    if res.Success() then None else Some(res.stderr)
  }

  /** Python's `xs[i]`, negative indices counting from the end. */
  function PyIndex<T>(xs: seq<T>, i: int): (r: Result<T>)
    ensures r.Ok? <==> -|xs| <= i < |xs|
  {
    if 0 <= i < |xs| then Ok(xs[i])
    else if -|xs| <= i < 0 then Ok(xs[|xs| + i])
    else Err(Exn(IndexErr, "list index out of range"))
  }

  // ---------------------------------------------------------------- perform_tap_element

  datatype TapReply =
    | NotFound(error: string, selector: string)
    | OutOfRange(error: string)
    | Tapped(success: bool, element: Value, tappedAt: (int, int), stderr: Option<string>)
    | TapError(error: string)

  /** The `except ADBError` of the tools: an adapter error becomes the
      reply, any other exception propagates. */
  function CatchTap(e: Exn): (r: Result<TapReply>)
    ensures r.Err? <==> e.kind != AdbError
    ensures r.Ok? ==> r.value == TapError(e.msg)
  {
    if e.kind == AdbError then Ok(TapError(e.msg)) else Err(e)
  }

  /** The selector the tap is logged under: resource id first, then text,
      then content description. */
  function LogTarget(text: string, resourceId: string, contentDesc: string): (t: Option<string>)
    ensures t.None? <==> text == "" && resourceId == "" && contentDesc == ""
    ensures resourceId != "" ==> t == Some(resourceId)
    ensures resourceId == "" && text != "" ==> t == Some(text)
  {
    var k := FirstNonEmpty([resourceId, text, contentDesc]);
    var xs := [resourceId, text, contentDesc];
    assert xs[0] == resourceId && xs[1] == text && xs[2] == contentDesc;
    if k == "" then None else Some(k)
  }

  /** Which match a request for `index` picks, among at most
      max(index + 1, 1) matches: the index itself when it is in range,
      the only match for -1, and an IndexError below that. */
  lemma PickedMatch<T>(xs: seq<T>, index: int)
    requires xs != [] && |xs| <= Max(index + 1, 1) && index < |xs|
    ensures index >= 0 ==> PyIndex(xs, index) == Ok(xs[index])
    ensures index == -1 ==> PyIndex(xs, index) == Ok(xs[0])
    ensures index < -1 ==> PyIndex(xs, index).Err? && PyIndex(xs, index).exn.kind == IndexErr
  {
  }

  /** `perform_tap_element`: searches with limit index + 1. No match gives
      a not-found reply naming the first non-empty of text, resource id,
      content description and XPath; too few matches give an out-of-range
      reply; neither taps. Otherwise the centre of the chosen match is
      tapped and reported, and the tap is logged for the current package
      (a failure to learn the package is swallowed). */
  method PerformTapElement(uia: UiAutomatorAdapter, store: LearningStore, w: World, current: Result<string>,
                           text: string, resourceId: string, contentDesc: string, xpath: string,
                           index: int, now: int)
    returns (r: Result<TapReply>, tapped: Option<string>)
    requires store.Valid()
    modifies uia, store
    ensures uia.u2Device == Connect(old(uia.u2Device), uia.useU2, w.connect)
    ensures store.Valid() && store.enabled == old(store.enabled)
    ensures var found := FindSpec(uia.u2Device, w, Query(text, resourceId, "", contentDesc), xpath, index + 1);
      && (found.Err? ==> r == CatchTap(found.exn) && tapped.None?)
      && (found.Ok? && found.value == [] ==> tapped.None? && r == Ok(NotFound(
            "Element not found: " + FirstNonEmpty([text, resourceId, contentDesc, xpath]),
            FirstNonEmpty([text, resourceId, contentDesc, xpath]))))
      && (found.Ok? && found.value != [] && index >= |found.value| ==> tapped.None? && r == Ok(OutOfRange(
            "Index " + IntToString(index) + " out of range, found " + IntToString(|found.value|) + " elements")))
      && (found.Ok? && found.value != [] && index < |found.value| && PyIndex(found.value, index).Err? ==>
            tapped.None? && r == Err(PyIndex(found.value, index).exn))
      && (tapped.Some? <==> found.Ok? && found.value != [] && index < |found.value| && PyIndex(found.value, index).Ok?)
    ensures tapped.None? ==> store.patterns == old(store.patterns) && store.log == old(store.log)
    ensures tapped.Some? ==>
      var found := FindSpec(uia.u2Device, w, Query(text, resourceId, "", contentDesc), xpath, index + 1);
      && found.Ok? && PyIndex(found.value, index).Ok?
      && var e := PyIndex(found.value, index).value;
         var c := e.Center();
         var tap := w.shell(TapCommand(c.0, c.1));
         && tapped == Some(TapCommand(c.0, c.1))
         && (tap.Err? ==> r == CatchTap(tap.exn) && store.patterns == old(store.patterns) && store.log == old(store.log))
         && (tap.Ok? ==>
               (&& r == Ok(Tapped(tap.value.Success(), e.ToDict(), c, ErrorOf(tap.value)))
                && var logged := current.Ok? && store.enabled;
                   && store.log == (if logged then old(store.log) + [LogEntry(current.value, "tap_element",
                        LogTarget(text, resourceId, contentDesc), tap.value.Success(), None, None, now)] else old(store.log))
                   && store.patterns == (if logged then Touched(old(store.patterns), current.value,
                        LogTarget(text, resourceId, contentDesc), tap.value.Success()) else old(store.patterns))))
  {
    tapped := None;
    var elements := uia.FindElements(w, Query(text, resourceId, "", contentDesc), xpath, index + 1);
    if elements.Err? {
      return CatchTap(elements.exn), None;
    }
    var els := elements.value;
    if els == [] {
      var selector := FirstNonEmpty([text, resourceId, contentDesc, xpath]);
      return Ok(NotFound("Element not found: " + selector, selector)), None;
    }
    if index >= |els| {
      return Ok(OutOfRange("Index " + IntToString(index) + " out of range, found " + IntToString(|els|) + " elements")), None;
    }
    var element := PyIndex(els, index);
    if element.Err? {
      return Err(element.exn), None;
    }
    var e := element.value;
    var c := e.Center();
    tapped := Some(TapCommand(c.0, c.1));
    var tap := w.shell(TapCommand(c.0, c.1));
    if tap.Err? {
      return CatchTap(tap.exn), tapped;
    }
    var res := tap.value;
    if current.Ok? {
      var _ := store.LogInteraction(current.value, "tap_element", LogTarget(text, resourceId, contentDesc),
                                    res.Success(), None, None, now);
    }
    r := Ok(Tapped(res.Success(), e.ToDict(), c, ErrorOf(res)));
  }

  // ---------------------------------------------------------------- perform_tap_elements

  /** One selector of the batch: `selector.get(...)` for the three keys. */
  datatype Selector = Selector(text: string, resourceId: string, contentDesc: string)

  datatype ItemResult = ItemResult(index: nat, selector: Selector, success: bool,
                                   tappedAt: Option<(int, int)>, error: Option<string>)

  datatype BatchReply = BatchReply(total: nat, succeeded: nat, failed: nat, results: seq<ItemResult>)

  /** The query of a batch selector. */
  function SelectorQuery(s: Selector): Query {
    Query(s.text, s.resourceId, "", s.contentDesc)
  }

  /** What one selector of the batch produces from its search outcome:
      its result, and whether a tap was sent and answered (only then may a
      delay follow). Every exception becomes a failed result carrying its
      text. */
  function Item(found: Result<seq<Element>>, shell: string -> Outcome, i: nat, s: Selector)
    : (p: (ItemResult, bool))
    ensures p.0.index == i && p.0.selector == s
    ensures p.0.success ==> p.1 && p.0.tappedAt.Some? && p.0.error.None?
    ensures !p.0.success ==> p.0.tappedAt.None? && p.0.error.Some?
  {
    if found.Err? then (ItemResult(i, s, false, None, Some(found.exn.msg)), false)
    else if found.value == [] then (ItemResult(i, s, false, None, Some("Element not found")), false)
    else
      var c := found.value[0].Center();
      match shell(TapCommand(c.0, c.1))
      case Err(e) => (ItemResult(i, s, false, None, Some(e.msg)), false)
      case Ok(res) =>
        if res.Success() then (ItemResult(i, s, true, Some(c), None), true)
        else (ItemResult(i, s, false, None, Some(res.stderr)), true)
  }

  /** The body of the batch loop after the search: tap the first match. */
  method TapFirst(found: Result<seq<Element>>, shell: string -> Outcome, i: nat, s: Selector)
    returns (result: ItemResult, answered: bool)
    ensures (result, answered) == Item(found, shell, i, s)
  {
    answered := false;
    if found.Err? {
      return ItemResult(i, s, false, None, Some(found.exn.msg)), false;
    }
    if found.value == [] {
      return ItemResult(i, s, false, None, Some("Element not found")), false;
    }
    var c := found.value[0].Center();
    var tap := shell(TapCommand(c.0, c.1));
    if tap.Err? {
      return ItemResult(i, s, false, None, Some(tap.exn.msg)), false;
    }
    if tap.value.Success() {
      result := ItemResult(i, s, true, Some(c), None);
    } else {
      result := ItemResult(i, s, false, None, Some(tap.value.stderr));
    }
    answered := true;
  }

  /** The connection in use after i items: each item connects first. */
  function DevAfter(start: Option<U2Handle>, useU2: bool, worlds: nat -> World, i: nat): Option<U2Handle>
    decreases i
  {
    if i == 0 then start else Connect(DevAfter(start, useU2, worlds, i - 1), useU2, worlds(i - 1).connect)
  }

  /** The search of one batch item: `find_elements(..., limit=1)` with the
      connection `d` on the screen `w`. */
  function Finds(d: Option<U2Handle>, w: World): Query -> Result<seq<Element>> {
    q => FindSpec(d, w, q, "", 1)
  }

  /** The search of one batch item, through the adapter. */
  method SearchItem(uia: UiAutomatorAdapter, w: World, s: Selector) returns (found: Result<seq<Element>>)
    modifies uia
    ensures uia.u2Device == Connect(old(uia.u2Device), uia.useU2, w.connect)
    ensures found == Finds(uia.u2Device, w)(SelectorQuery(s))
  {
    found := uia.FindElements(w, SelectorQuery(s), "", 1);
  }

  /** The searches of the first n items of a batch run from the
      connection `start`, each with the connection its predecessors left. */
  function Searches(start: Option<U2Handle>, useU2: bool, worlds: nat -> World, sels: seq<Selector>, n: nat)
    : (found: seq<Result<seq<Element>>>)
    requires n <= |sels|
    ensures |found| == n
  {
    if n == 0 then []
    else Searches(start, useU2, worlds, sels, n - 1)
         + [Finds(DevAfter(start, useU2, worlds, n), worlds(n - 1))(SelectorQuery(sels[n - 1]))]
  }

  lemma SearchesStep(start: Option<U2Handle>, useU2: bool, worlds: nat -> World, sels: seq<Selector>, i: nat,
                     found: seq<Result<seq<Element>>>, e: Result<seq<Element>>)
    requires i < |sels| && found == Searches(start, useU2, worlds, sels, i)
    requires e == Finds(Connect(DevAfter(start, useU2, worlds, i), useU2, worlds(i).connect), worlds(i))(SelectorQuery(sels[i]))
    ensures found + [e] == Searches(start, useU2, worlds, sels, i + 1)
  {
  }

  function CountSucceeded(rs: seq<ItemResult>): (n: nat)
    ensures n <= |rs|
  {
    if rs == [] then 0 else (if rs[|rs| - 1].success then 1 else 0) + CountSucceeded(rs[..|rs| - 1])
  }

  /** The results of the items whose searches came out as `found`. */
  function BatchResults(found: seq<Result<seq<Element>>>, worlds: nat -> World, sels: seq<Selector>)
    : (rs: seq<ItemResult>)
    requires |found| <= |sels|
  {
    if found == [] then []
    else
      var n := |found| - 1;
      BatchResults(found[..n], worlds, sels) + [Item(found[n], worlds(n).shell, n, sels[n]).0]
  }

  /** The items among those searched that a delay follows. */
  function Delays(found: seq<Result<seq<Element>>>, worlds: nat -> World, sels: seq<Selector>, delayMs: int)
    : (ks: seq<nat>)
    requires |found| <= |sels|
  {
    if found == [] then []
    else
      var n := |found| - 1;
      Delays(found[..n], worlds, sels, delayMs)
      + (if n < |sels| - 1 && delayMs > 0 && Item(found[n], worlds(n).shell, n, sels[n]).1 then [n] else [])
  }

  /** One result per item searched, in order, each the item's own. */
  lemma {:induction false} BatchResultsSpec(found: seq<Result<seq<Element>>>, worlds: nat -> World, sels: seq<Selector>)
    requires |found| <= |sels|
    ensures var rs := BatchResults(found, worlds, sels);
      && |rs| == |found|
      && forall k :: 0 <= k < |found| ==> rs[k] == Item(found[k], worlds(k).shell, k, sels[k]).0
  {
    if found != [] {
      BatchResultsSpec(found[..|found| - 1], worlds, sels);
    }
  }

  /** A delay follows exactly the answered taps that are not the last
      item, when the delay is positive. */
  lemma {:induction false} DelaysSpec(found: seq<Result<seq<Element>>>, worlds: nat -> World, sels: seq<Selector>, delayMs: int)
    requires |found| <= |sels|
    ensures forall k: nat :: k in Delays(found, worlds, sels, delayMs) <==>
      k < |found| && k < |sels| - 1 && delayMs > 0 && Item(found[k], worlds(k).shell, k, sels[k]).1
  {
    if found != [] {
      DelaysSpec(found[..|found| - 1], worlds, sels, delayMs);
    }
  }

  /** One more item extends the results and the delays by its own. */
  lemma BatchStep(found: seq<Result<seq<Element>>>, e: Result<seq<Element>>, worlds: nat -> World,
                  sels: seq<Selector>, delayMs: int)
    requires |found| < |sels|
    ensures var n := |found|;
      var item := Item(e, worlds(n).shell, n, sels[n]);
      && BatchResults(found + [e], worlds, sels) == BatchResults(found, worlds, sels) + [item.0]
      && Delays(found + [e], worlds, sels, delayMs)
         == Delays(found, worlds, sels, delayMs) + (if n < |sels| - 1 && delayMs > 0 && item.1 then [n] else [])
  {
    assert (found + [e])[..|found|] == found;
  }

  /** What the batch loop has accumulated: the results so far, the two
      counters and the items a delay followed. */
  datatype Progress = Progress(results: seq<ItemResult>, succeeded: nat, failed: nat, sleptAfter: seq<nat>)

  /** `p` is what the loop holds once the items searched as `found` are
      done. */
  predicate Reached(p: Progress, found: seq<Result<seq<Element>>>, worlds: nat -> World, sels: seq<Selector>, delayMs: int)
  {
    && |found| <= |sels|
    && p.results == BatchResults(found, worlds, sels) && |p.results| == |found|
    && p.succeeded == CountSucceeded(p.results) && p.succeeded + p.failed == |found|
    && p.sleptAfter == Delays(found, worlds, sels, delayMs)
  }

  /** The loop body after the search: tap, record, count, and note the
      delay. */
  method TapItem(p: Progress, ghost found: seq<Result<seq<Element>>>, e: Result<seq<Element>>,
                 worlds: nat -> World, sels: seq<Selector>, delayMs: int)
    returns (q: Progress)
    requires |found| < |sels| && Reached(p, found, worlds, sels, delayMs)
    ensures Reached(q, found + [e], worlds, sels, delayMs)
  {
    var i := |p.results|;
    var result, answered := TapFirst(e, worlds(i).shell, i, sels[i]);
    BatchStep(found, e, worlds, sels, delayMs);
    var sleptAfter := p.sleptAfter + (if answered && i < |sels| - 1 && delayMs > 0 then [i] else []);
    assert (p.results + [result])[..i] == p.results;
    q := Progress(p.results + [result], p.succeeded + (if result.success then 1 else 0),
                  p.failed + (if result.success then 0 else 1), sleptAfter);
  }

  /** `perform_tap_elements`: every selector is searched for with the
      connection its predecessors left (`found`, see `Searches`), and
      gives one result, in order and numbered (`BatchResults`); the counts
      add up to the total; a delay follows an item exactly when its tap was
      answered, it is not the last, and the delay is positive (`Delays`).
      `sleptAfter` lists the items a delay followed. */
  method PerformTapElements(uia: UiAutomatorAdapter, worlds: nat -> World, selectors: seq<Selector>, delayMs: int)
    returns (r: BatchReply, sleptAfter: seq<nat>, ghost found: seq<Result<seq<Element>>>)
    modifies uia
    ensures found == Searches(old(uia.u2Device), uia.useU2, worlds, selectors, |selectors|)
    ensures r.total == |selectors| && r.results == BatchResults(found, worlds, selectors)
    ensures r.succeeded == CountSucceeded(r.results) && r.succeeded + r.failed == r.total
    ensures sleptAfter == Delays(found, worlds, selectors, delayMs)
    ensures uia.u2Device == DevAfter(old(uia.u2Device), uia.useU2, worlds, |selectors|)
  {
    ghost var start := uia.u2Device;
    var p := Progress([], 0, 0, []);
    found := [];
    var i := 0;
    while i < |selectors|
      invariant 0 <= i <= |selectors| && |found| == i
      invariant uia.u2Device == DevAfter(start, uia.useU2, worlds, i)
      invariant found == Searches(start, uia.useU2, worlds, selectors, i)
      invariant Reached(p, found, worlds, selectors, delayMs)
    {
      var elements := SearchItem(uia, worlds(i), selectors[i]);
      SearchesStep(start, uia.useU2, worlds, selectors, i, found, elements);
      p := TapItem(p, found, elements, worlds, selectors, delayMs);
      found := found + [elements];
      i := i + 1;
    }
    r := BatchReply(|selectors|, p.succeeded, p.failed, p.results);
    sleptAfter := p.sleptAfter;
  }

  // ---------------------------------------------------------------- perform_gesture_path

  datatype Point = Point(x: int, y: int)

  datatype GestureReply =
    | TooFewPoints(error: string)
    | GestureDone(points: nat, totalDuration: int)
    | SegmentFailed(error: string, completedSegments: nat)
    | GestureError(error: string)

  /** The swipe of segment j. */
  function SegmentSwipe(points: seq<Point>, j: nat, duration: int): Swipe
    requires j + 1 < |points|
  {
    Swipe(points[j].x, points[j].y, points[j + 1].x, points[j + 1].y, duration)
  }

  /** `perform_gesture_path`: fewer than two points is refused with no
      swipe; otherwise the segments are swiped in order, each lasting
      duration // (points - 1), until one does not succeed: a failed exit
      status ends with `completed_segments` = its number, an adapter error
      with its text. `swipe(j, command)` answers the j-th swipe. */
  method PerformGesturePath(points: seq<Point>, durationMs: int, swipe: (nat, Swipe) -> Outcome)
    returns (r: Result<GestureReply>, sent: seq<Swipe>)
    ensures |points| < 2 ==> r == Ok(TooFewPoints("Need at least 2 points for a gesture")) && sent == []
    ensures |points| >= 2 ==>
      var seg := durationMs / (|points| - 1);
      && 1 <= |sent| <= |points| - 1
      && (forall j :: 0 <= j < |sent| ==> sent[j] == SegmentSwipe(points, j, seg))
      && (forall j :: 0 <= j < |sent| - 1 ==> Succeeded(swipe(j, sent[j])))
      && var last := |sent| - 1;
         var o := swipe(last, sent[last]);
         && (Succeeded(o) ==> |sent| == |points| - 1 && r == Ok(GestureDone(|points|, durationMs)))
         && (o.Ok? && !o.value.Success() ==> r == Ok(SegmentFailed(
               "Gesture failed at segment " + IntToString(last) + ": " + o.value.stderr, last)))
         && (o.Err? && o.exn.kind == AdbError ==> r == Ok(GestureError(o.exn.msg)))
         && (o.Err? && o.exn.kind != AdbError ==> r == Err(o.exn))
  {
    if |points| < 2 {
      return Ok(TooFewPoints("Need at least 2 points for a gesture")), [];
    }
    var segments := |points| - 1;
    var segmentDuration := durationMs / segments;
    sent := [];
    var i := 0;
    while i < segments
      invariant 0 <= i <= segments && |sent| == i
      invariant forall j :: 0 <= j < i ==> sent[j] == SegmentSwipe(points, j, segmentDuration)
      invariant forall j :: 0 <= j < i ==> Succeeded(swipe(j, sent[j]))
    {
      var cmd := SegmentSwipe(points, i, segmentDuration);
      sent := sent + [cmd];
      var result := swipe(i, cmd);
      if result.Err? {
        if result.exn.kind == AdbError {
          return Ok(GestureError(result.exn.msg)), sent;
        }
        return Err(result.exn), sent;
      }
      if !result.value.Success() {
        return Ok(SegmentFailed("Gesture failed at segment " + IntToString(i) + ": " + result.value.stderr, i)), sent;
      }
      i := i + 1;
    }
    r := Ok(GestureDone(|points|, durationMs));
  }

  // ---------------------------------------------------------------- perform_scroll

  /** The swipe of a scroll on a w × h screen, given the scroll distances
      along each axis: it runs through the centre (w // 2, h // 2), the
      two ends symmetric about it on the scroll axis, the other coordinate
      staying at the centre; an unknown direction has no swipe. */
  function ScrollSwipe(direction: string, w: int, h: int, distX: int, distY: int): (s: Option<(Point, Point)>)
    ensures s.Some? <==> direction in {"up", "down", "left", "right"}
    ensures s.Some? && (direction == "up" || direction == "down") ==>
      s.value.0.x == s.value.1.x == w / 2 && s.value.0.y + s.value.1.y == 2 * (h / 2)
      && s.value.0.y - s.value.1.y == (if direction == "up" then 2 else -2) * (distY / 2)
    ensures s.Some? && (direction == "left" || direction == "right") ==>
      s.value.0.y == s.value.1.y == h / 2 && s.value.0.x + s.value.1.x == 2 * (w / 2)
      && s.value.0.x - s.value.1.x == (if direction == "left" then 2 else -2) * (distX / 2)
  {
    var cx := w / 2;
    var cy := h / 2;
    if direction == "up" then Some((Point(cx, cy + distY / 2), Point(cx, cy - distY / 2)))
    else if direction == "down" then Some((Point(cx, cy - distY / 2), Point(cx, cy + distY / 2)))
    else if direction == "left" then Some((Point(cx + distX / 2, cy), Point(cx - distX / 2, cy)))
    else if direction == "right" then Some((Point(cx - distX / 2, cy), Point(cx + distX / 2, cy)))
    else None
  }

  datatype ScrollReply =
    | Scrolled(success: bool, direction: string, stderr: Option<string>)
    | ScrollError(error: string)

  /** `perform_scroll`: the screen size is read first (even for an unknown
      direction); the swipe of `ScrollSwipe` is sent with duration 300.
      `dist` is the distance `int(size * amount * 0.8)` for a screen side. */
  method PerformScroll(adb: AdbAdapter, wmSize: Outcome, direction: string, dist: int -> int,
                       swipe: Swipe -> Outcome)
    returns (r: Result<ScrollReply>, swiped: Option<Swipe>)
    modifies adb
    ensures var size := if old(adb.screenSize).Some? then Ok(old(adb.screenSize).value) else ScreenSizeFromShell(wmSize);
      && (size.Err? ==> swiped.None? && r == (if size.exn.kind == AdbError then Ok(ScrollError(size.exn.msg)) else Err(size.exn)))
      && (size.Ok? ==>
          var s := ScrollSwipe(direction, size.value.0, size.value.1, dist(size.value.0), dist(size.value.1));
          && (s.None? ==> swiped.None? && r == Ok(ScrollError("Invalid direction: " + direction)))
          && (s.Some? ==>
              var cmd := Swipe(s.value.0.x, s.value.0.y, s.value.1.x, s.value.1.y, 300);
              && swiped == Some(cmd)
              && r == (match swipe(cmd)
                       case Ok(res) => Ok(Scrolled(res.Success(), direction, ErrorOf(res)))
                       case Err(e) => if e.kind == AdbError then Ok(ScrollError(e.msg)) else Err(e))))
  {
    swiped := None;
    var screen, _ := adb.GetScreenSize(wmSize);
    if screen.Err? {
      if screen.exn.kind == AdbError {
        return Ok(ScrollError(screen.exn.msg)), None;
      }
      return Err(screen.exn), None;
    }
    var (width, height) := screen.value;
    var s := ScrollSwipe(direction, width, height, dist(width), dist(height));
    if s.None? {
      return Ok(ScrollError("Invalid direction: " + direction)), None;
    }
    var (start, end) := s.value;
    var cmd := Swipe(start.x, start.y, end.x, end.y, 300);
    swiped := Some(cmd);
    var result := swipe(cmd);
    if result.Err? {
      if result.exn.kind == AdbError {
        return Ok(ScrollError(result.exn.msg)), swiped;
      }
      return Err(result.exn), swiped;
    }
    r := Ok(Scrolled(result.value.Success(), direction, ErrorOf(result.value)));
  }

  // ---------------------------------------------------------------- perform_type

  datatype TypeReply =
    | Typed(success: bool, text: string, clearedFirst: bool, stderr: Option<string>)
    | TypeError(error: string)

  /** A step of the ADB fallback of `perform_type`. */
  datatype FallbackStep = DeleteBackward | TypeIn(text: string) {
    /** The shell command the step issues: key event 67 is DEL, the typing
        goes through `adb.type_text`. */
    function Command(): string {
      match this
      case DeleteBackward => "input keyevent 67"
      case TypeIn(t) => TypeTextCommand(t)
    }
  }

  /** The steps of the fallback: 51 deletions when clearing, then the
      typing. */
  function FallbackSteps(text: string, clearFirst: bool): (steps: seq<FallbackStep>)
    ensures |steps| == (if clearFirst then 52 else 1)
    ensures steps[|steps| - 1] == TypeIn(text)
    ensures forall k :: 0 <= k < |steps| - 1 ==> steps[k] == DeleteBackward
  {
    Deletions(if clearFirst then 51 else 0) + [TypeIn(text)]
  }

  /** n deletions. */
  function Deletions(n: nat): (steps: seq<FallbackStep>)
    ensures |steps| == n && forall k :: 0 <= k < n ==> steps[k] == DeleteBackward
  {
    if n == 0 then [] else Deletions(n - 1) + [DeleteBackward]
  }

  lemma {:induction false} DeletionsPrefix(n: nat, i: nat)
    requires i <= n
    ensures Deletions(n)[..i] == Deletions(i)
    decreases n
  {
    if i < n {
      DeletionsPrefix(n - 1, i);
      assert Deletions(n)[..i] == Deletions(n - 1)[..i];
    }
  }

  /** `perform_type`: the uiautomator `set_text` outcome is the reply; on
      an adapter error the fallback runs its steps in order, stopping at
      the first adapter error. `send(j, step)` answers the j-th step. */
  method PerformType(setText: Result<bool>, text: string, clearFirst: bool, send: (nat, FallbackStep) -> Outcome)
    returns (r: Result<TypeReply>, sent: seq<FallbackStep>)
    ensures setText.Ok? ==> r == Ok(Typed(setText.value, text, clearFirst, None)) && sent == []
    ensures setText.Err? && setText.exn.kind != AdbError ==> r == Err(setText.exn) && sent == []
    ensures setText.Err? && setText.exn.kind == AdbError ==>
      var all := FallbackSteps(text, clearFirst);
      && 1 <= |sent| <= |all| && sent == all[..|sent|]
      && (forall j :: 0 <= j < |sent| - 1 ==> send(j, sent[j]).Ok?)
      && var o := send(|sent| - 1, sent[|sent| - 1]);
         && (o.Ok? ==> |sent| == |all| && r == Ok(Typed(o.value.Success(), text, clearFirst, ErrorOf(o.value))))
         && (o.Err? ==> r == (if o.exn.kind == AdbError then Ok(TypeError(o.exn.msg)) else Err(o.exn)))
  {
    sent := [];
    if setText.Ok? {
      return Ok(Typed(setText.value, text, clearFirst, None)), [];
    }
    if setText.exn.kind != AdbError {
      return Err(setText.exn), [];
    }
    ghost var all := FallbackSteps(text, clearFirst);
    if clearFirst {
      var i := 0;
      while i < 51
        invariant 0 <= i <= 51 && sent == Deletions(i)
        invariant forall j :: 0 <= j < i ==> send(j, sent[j]).Ok?
      {
        sent := sent + [DeleteBackward];
        var o := send(i, DeleteBackward);
        if o.Err? {
          DeletionsPrefix(51, i + 1);
          assert all[..i + 1] == Deletions(51)[..i + 1];
          return (if o.exn.kind == AdbError then Ok(TypeError(o.exn.msg)) else Err(o.exn)), sent;
        }
        i := i + 1;
      }
    }
    sent := sent + [TypeIn(text)];
    var result := send(|sent| - 1, TypeIn(text));
    if result.Err? {
      return (if result.exn.kind == AdbError then Ok(TypeError(result.exn.msg)) else Err(result.exn)), sent;
    }
    r := Ok(Typed(result.value.Success(), text, clearFirst, ErrorOf(result.value)));
  }
}
