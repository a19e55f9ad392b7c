/**
 * The photo stack of memories.js: photos are dismissed one at a time by a
 * click, by Enter/Space, or by a mostly horizontal swipe on the stack; a
 * dismissed photo first fades ("vanish") and is removed 260 ms later; when
 * none is left the panel underneath is revealed.
 *
 * The pure part (`Photos`, `Vanished`, `Removed`, `Without`, `TopPhoto`,
 * `IsSwipe`) states what the handlers do; the class `PhotoStack` holds the
 * document's photos and the closure state of `bindStack`, and its methods
 * are the event handlers and timer callbacks.
 */
module Memories {

  import opened Wrappers

  /** The identity of one `.memory-photo` element. */
  type PhotoId = nat

  const SWIPE_MIN_PX: real := 40.0
  /** A swipe must be mostly horizontal: vertical travel at most this times the horizontal. */
  const MAX_VERTICAL_RATIO: real := 1.2
  /** Travel beyond this, on either axis, marks the gesture as moved. */
  const MOVE_SLOP_PX: real := 6.0
  /** Magnitude of the `--swipe-x` exit offset given to a swiped photo. */
  const SWIPE_EXIT_PX: int := 140

  ghost predicate NoDuplicates(s: seq<PhotoId>) {
    forall i, j :: 0 <= i < j < |s| ==> s[i] != s[j]
  }

  /** `getTopPhoto`: the last photo remaining in document order, drawn on top. */
  function TopPhoto(remaining: seq<PhotoId>): (top: Option<PhotoId>)
    ensures top.None? <==> remaining == []
    ensures top.Some? ==> top.value in remaining && top.value == remaining[|remaining| - 1]
  {
    if remaining == [] then None else Some(remaining[|remaining| - 1])
  }

  /** A pointer that travelled this far from its start has moved: its larger coordinate change exceeds the slop. */
  function Moves(dx: real, dy: real): (b: bool)
    ensures b <==> MaxReal(Abs(dx), Abs(dy)) > MOVE_SLOP_PX
  {
    Abs(dx) > MOVE_SLOP_PX || Abs(dy) > MOVE_SLOP_PX
  }

  /**
   * A release dismisses the top photo when the gesture moved, went far
   * enough and stayed mostly horizontal. Every gesture at most 45 degrees
   * off the horizontal that moved at least 40 px across qualifies.
   */
  function IsSwipe(moved: bool, dx: real, dy: real): (b: bool)
    ensures b ==> moved && Abs(dx) >= SWIPE_MIN_PX && Moves(dx, dy)
    ensures b ==> Abs(dy) <= MAX_VERTICAL_RATIO * Abs(dx)
    ensures moved && Abs(dx) >= SWIPE_MIN_PX && Abs(dy) <= Abs(dx) ==> b
  {
    moved && Abs(dx) >= SWIPE_MIN_PX && Abs(dy) <= Abs(dx) * MAX_VERTICAL_RATIO
  }

  /** The sample gestures: 50 px across and 10 px down is a swipe, 50 px across and 80 px down is not. */
  lemma SwipeExamples()
    ensures IsSwipe(true, 50.0, 10.0)
    ensures !IsSwipe(true, 50.0, 80.0)
    ensures !IsSwipe(true, -39.0, 0.0) && IsSwipe(true, -40.0, 48.0)
    ensures !IsSwipe(false, 50.0, 10.0)
  {
  }

  /** Left and right, up and down are treated alike. */
  lemma SwipeIsMirrorSymmetric(moved: bool, dx: real, dy: real)
    ensures IsSwipe(moved, dx, dy) == IsSwipe(moved, -dx, dy) == IsSwipe(moved, dx, -dy)
  {
  }

  /** The `--swipe-x` offset of a swiped photo: it leaves on the side it was swiped to. */
  function ExitOffset(dx: real): (x: int)
    ensures x == SWIPE_EXIT_PX || x == -SWIPE_EXIT_PX
    ensures x > 0 <==> dx > 0.0
  {
    if dx > 0.0 then SWIPE_EXIT_PX else -SWIPE_EXIT_PX
  }

  /** The keys that activate a focused photo like a click: Enter and Space, nothing else. */
  function IsActivationKey(key: string): (b: bool)
    ensures b <==> key in {"Enter", " "}
  {
    key == "Enter" || key == " "
  }

  /** The tail of a list without duplicates has none, and does not hold the head. */
  lemma NoDuplicatesTail(s: seq<PhotoId>)
    requires s != []
    ensures NoDuplicates(s) ==> NoDuplicates(s[1..]) && s[0] !in s[1..]
  {
    if NoDuplicates(s) {
      forall a, b | 0 <= a < b < |s[1..]| ensures s[1..][a] != s[1..][b] {
        assert s[1..][a] == s[a + 1] && s[1..][b] == s[b + 1];
      }
      forall k | 0 <= k < |s[1..]| ensures s[1..][k] != s[0] {
        assert s[1..][k] == s[k + 1];
      }
    }
  }

  /** `el.remove()` on a list of distinct elements: drop `p`, keep the others in order. */
  function Without(s: seq<PhotoId>, p: PhotoId): (r: seq<PhotoId>)
    ensures forall q :: q in r <==> q in s && q != p
    ensures p !in s ==> r == s
    ensures NoDuplicates(s) ==> NoDuplicates(r)
    ensures NoDuplicates(s) && p in s ==> |r| == |s| - 1
  {
    if s == [] then []
    else
      NoDuplicatesTail(s);
      if s[0] == p then Without(s[1..], p)
    else [s[0]] + Without(s[1..], p)
  }

  /** A head other than `p` stays in front of what is left. */
  lemma WithoutCons(s: seq<PhotoId>, p: PhotoId)
    requires s != [] && s[0] != p
    ensures Without(s, p) == [s[0]] + Without(s[1..], p)
  {
  }

  /** In a stack of distinct photos, removing the head leaves the tail. */
  lemma WithoutHead(s: seq<PhotoId>)
    requires s != [] && NoDuplicates(s)
    ensures Without(s, s[0]) == s[1..]
  {
    NoDuplicatesTail(s);
  }

  /** Splicing out position `i > 0` keeps the head and splices the tail at `i - 1`. */
  lemma SpliceCons(s: seq<PhotoId>, i: nat)
    requires 0 < i < |s|
    ensures s[..i] + s[i + 1..] == [s[0]] + (s[1..][..i - 1] + s[1..][i..])
  {
    assert s[1..][..i - 1] == s[1..i] && s[1..][i..] == s[i + 1..];
    assert s[..i] == [s[0]] + s[1..i];
  }

  /** Removing the photo at position `i` splices it out: the photos before and after keep their order. */
  lemma {:induction false} WithoutAt(s: seq<PhotoId>, i: nat)
    requires NoDuplicates(s) && i < |s|
    ensures Without(s, s[i]) == s[..i] + s[i + 1..]
    decreases i
  {
    if i == 0 {
      WithoutHead(s);
      assert s[..0] + s[1..] == s[1..];
    } else {
      NoDuplicatesTail(s);
      assert s[1..][i - 1] == s[i];
      WithoutAt(s[1..], i - 1);
      assert s[0] != s[i];
      WithoutCons(s, s[i]);
      SpliceCons(s, i);
    }
  }

  /** The photos' part of the page: remaining photos in document order, those marked `vanish`, and the pending removal timers in the order they fire. */
  datatype Photos = Photos(remaining: seq<PhotoId>, vanishing: set<PhotoId>, pending: seq<PhotoId>)

  /** Each vanishing photo is in the document and has exactly one removal pending. */
  ghost predicate WellFormed(s: Photos) {
    && NoDuplicates(s.remaining)
    && NoDuplicates(s.pending)
    && (forall p :: p in s.pending <==> p in s.vanishing)
    && (forall p :: p in s.vanishing ==> p in s.remaining)
  }

  /** `vanish(el)`: a missing or already vanishing photo is ignored; otherwise it is marked and its removal scheduled. */
  function Vanished(s: Photos, el: Option<PhotoId>): (r: Photos)
    ensures r.remaining == s.remaining
    ensures el.None? || el.value in s.vanishing ==> r == s
    ensures el.Some? && el.value !in s.vanishing ==>
      r.vanishing == s.vanishing + {el.value} && r.pending == s.pending + [el.value]
  {
    match el
    case None => s
    case Some(p) =>
      if p in s.vanishing then s
      else Photos(s.remaining, s.vanishing + {p}, s.pending + [p])
  }

  /** Dismissing the same photo twice is dismissing it once. */
  lemma VanishIdempotent(s: Photos, el: Option<PhotoId>)
    ensures Vanished(Vanished(s, el), el) == Vanished(s, el)
  {
  }

  lemma VanishedKeepsWellFormed(s: Photos, el: Option<PhotoId>)
    requires WellFormed(s)
    requires el.Some? ==> el.value in s.remaining
    ensures WellFormed(Vanished(s, el))
  {
    if el.Some? && el.value !in s.vanishing {
      var r := Vanished(s, el);
      forall i, j | 0 <= i < j < |r.pending| ensures r.pending[i] != r.pending[j] {
        if j == |s.pending| {
          assert r.pending[i] == s.pending[i];
        }
      }
    }
  }

  /** The oldest removal timer fires: that photo leaves the document. */
  function Removed(s: Photos): (r: Photos)
    requires s.pending != []
    ensures r.pending == s.pending[1..]
    ensures r.vanishing == s.vanishing - {s.pending[0]}
  {
    var p := s.pending[0];
    Photos(Without(s.remaining, p), s.vanishing - {p}, s.pending[1..])
  }

  /**
   * A removal takes out exactly the photo whose timer fired, at its place in
   * the stack, and leaves the rest in their order; the stack only shrinks.
   */
  lemma RemovedSplicesOut(s: Photos) returns (i: nat)
    requires WellFormed(s) && s.pending != []
    ensures i < |s.remaining| && s.remaining[i] == s.pending[0]
    ensures Removed(s).remaining == s.remaining[..i] + s.remaining[i + 1..]
    ensures |Removed(s).remaining| == |s.remaining| - 1
    ensures WellFormed(Removed(s))
  {
    var p := s.pending[0];
    assert p in s.vanishing;
    i :| 0 <= i < |s.remaining| && s.remaining[i] == p;
    WithoutAt(s.remaining, i);
    var r := Removed(s);
    assert NoDuplicates(r.pending) by {
      forall a, b | 0 <= a < b < |r.pending| ensures r.pending[a] != r.pending[b] {
        assert r.pending[a] == s.pending[a + 1] && r.pending[b] == s.pending[b + 1];
      }
    }
    forall q ensures q in r.pending <==> q in r.vanishing {
      if q in r.pending {
        var k :| 0 <= k < |r.pending| && r.pending[k] == q;
        assert s.pending[k + 1] == q;
      }
      if q in r.vanishing {
        assert q in s.pending && q != p;
        var k :| 0 <= k < |s.pending| && s.pending[k] == q;
        assert k != 0;
        assert r.pending[k - 1] == q;
      }
    }
  }

  /** The stack of memories.js with the closure state of `bindStack`. */
  class PhotoStack {
    /** `bindStack` found photos and attached its listeners; with none it returns before binding anything. */
    const bound: bool
    /** The page has a `.memories-under` panel and a continue link in it. */
    const underPresent: bool
    const hasContinueLink: bool
    /** The photos the page was loaded with. */
    ghost const initial: seq<PhotoId>

    var remaining: seq<PhotoId>
    var vanishing: set<PhotoId>
    var pendingRemovals: seq<PhotoId>
    /** The `--swipe-x` offsets set on swiped photos. */
    var swipeX: map<PhotoId, int>
    /** The under panel carries `show` (and `aria-hidden="false"`). */
    var revealed: bool
    /** Focus was moved to the continue link. */
    var continueFocused: bool

    /** `activePointerId`, `startX`, `startY`, `moved`. */
    var activePointer: Option<int>
    var startX: real
    var startY: real
    var moved: bool
    /** The one-shot flag that swallows the click a swipe produces, and the zero-delay timers pending to clear it. */
    var suppressClick: bool
    var pendingClears: nat

    function Stack(): Photos
      reads this
    {
      Photos(remaining, vanishing, pendingRemovals)
    }

    ghost predicate Valid()
      reads this
    {
      && WellFormed(Stack())
      && (forall p :: p in remaining ==> p in initial)
      && (bound <==> initial != [])
      && (revealed <==> bound && underPresent && remaining == [])
      && (continueFocused <==> revealed && hasContinueLink)
      && (suppressClick ==> pendingClears > 0)
    }

    /** This pointer's events are the ones being tracked. */
    ghost predicate Tracks(pointerId: int)
      reads this
    {
      bound && activePointer == Some(pointerId)
    }

    /** Releasing this pointer here would dismiss the top photo. */
    ghost predicate SwipeDismisses(pointerId: int, x: real, y: real)
      reads this
    {
      Tracks(pointerId) && IsSwipe(moved, x - startX, y - startY) && remaining != []
    }

    /** `bindStack` on a page whose stack holds `photos`, back to front. */
    constructor (photos: seq<PhotoId>, underPresent: bool, hasContinueLink: bool)
      requires NoDuplicates(photos)
      ensures Valid()
      ensures Stack() == Photos(photos, {}, []) && bound == (photos != [])
      ensures this.underPresent == underPresent && this.hasContinueLink == hasContinueLink && initial == photos
      ensures activePointer == None && !moved && !suppressClick && pendingClears == 0
      ensures swipeX == map[] && !revealed && !continueFocused
    {
      bound := photos != [];
      this.underPresent := underPresent;
      this.hasContinueLink := hasContinueLink;
      initial := photos;
      remaining := photos;
      vanishing := {};
      pendingRemovals := [];
      swipeX := map[];
      revealed, continueFocused := false, false;
      activePointer := None;
      startX, startY := 0.0, 0.0;
      moved := false;
      suppressClick := false;
      pendingClears := 0;
    }

    /** `vanish(el)`: mark the photo and schedule its removal, unless it is missing or already vanishing. */
    method Vanish(el: Option<PhotoId>)
      requires Valid()
      requires el.Some? ==> el.value in remaining
      modifies this`vanishing, this`pendingRemovals
      ensures Valid()
      ensures Stack() == Vanished(old(Stack()), el)
    {
      VanishedKeepsWellFormed(Stack(), el);
      if el.None? || el.value in vanishing {
        return;
      }
      vanishing := vanishing + {el.value};
      pendingRemovals := pendingRemovals + [el.value];
    }

    /** The removal timer set by `vanish` fires: the photo leaves the document, then `maybeRevealUnder`. */
    method FinishVanish()
      requires Valid() && pendingRemovals != []
      modifies this`remaining, this`vanishing, this`pendingRemovals, this`revealed, this`continueFocused
      ensures Valid()
      ensures Stack() == Removed(old(Stack()))
      ensures old(revealed) ==> revealed
      ensures revealed <==> underPresent && remaining == []
    {
      var i := RemovedSplicesOut(Stack());
      var p := pendingRemovals[0];
      remaining := Without(remaining, p);
      vanishing := vanishing - {p};
      pendingRemovals := pendingRemovals[1..];
      MaybeRevealUnder();
    }

    /** `maybeRevealUnder`: only an empty stack shows the under panel and focuses its continue link. */
    method MaybeRevealUnder()
      modifies this`revealed, this`continueFocused
      ensures revealed == (old(revealed) || (remaining == [] && underPresent))
      ensures continueFocused == (old(continueFocused) || (remaining == [] && underPresent && hasContinueLink))
    {
      if |remaining| != 0 {
        return;
      }
      if !underPresent {
        return;
      }
      revealed := true;
      if hasContinueLink {
        continueFocused := true;
      }
    }

    /** A click on a photo: swallowed right after a swipe, otherwise it dismisses that photo. */
    method Click(p: PhotoId)
      requires Valid() && p in remaining
      modifies this`vanishing, this`pendingRemovals
      ensures Valid()
      ensures Stack() == if suppressClick then old(Stack()) else Vanished(old(Stack()), Some(p))
    {
      if suppressClick {
        return;
      }
      Vanish(Some(p));
    }

    /** A key pressed on a focused photo: Enter and Space dismiss it as a click would. */
    method KeyDown(p: PhotoId, key: string)
      requires Valid() && p in remaining
      modifies this`vanishing, this`pendingRemovals
      ensures Valid()
      ensures Stack() == if IsActivationKey(key) then Vanished(old(Stack()), Some(p)) else old(Stack())
    {
      if key == "Enter" || key == " " {
        Vanish(Some(p));
      }
    }

    /** `pointerdown` on the stack; `button` is `None` when the event has none. */
    method PointerDown(pointerId: int, button: Option<int>, x: real, y: real)
      requires Valid()
      modifies this`activePointer, this`startX, this`startY, this`moved
      ensures Valid()
      ensures !bound || old(activePointer).Some? || (button.Some? && button.value != 0) ==> unchanged(this)
      ensures bound && old(activePointer).None? && (button.None? || button.value == 0) ==>
        activePointer == Some(pointerId) && startX == x && startY == y && !moved
    {
      if !bound {
        return;
      }
      if activePointer.Some? {
        return;
      }
      if button.Some? && button.value != 0 {
        return;
      }
      activePointer := Some(pointerId);
      startX := x;
      startY := y;
      moved := false;
    }

    /** `pointermove`: only the tracked pointer counts; travel past the slop marks the gesture as moved. */
    method PointerMove(pointerId: int, x: real, y: real)
      requires Valid()
      modifies this`moved
      ensures Valid()
      ensures moved == (old(moved) || (old(Tracks(pointerId)) && Moves(x - startX, y - startY)))
    {
      if !bound || activePointer.None? || pointerId != activePointer.value {
        return;
      }
      var dx := x - startX;
      var dy := y - startY;
      if Abs(dx) > MOVE_SLOP_PX || Abs(dy) > MOVE_SLOP_PX {
        moved := true;
      }
    }

    /** `endSwipe` on `pointerup`: stop tracking, and dismiss the top photo if the gesture was a swipe. */
    method PointerUp(pointerId: int, x: real, y: real)
      requires Valid()
      modifies this`activePointer, this`suppressClick, this`pendingClears, this`swipeX,
        this`vanishing, this`pendingRemovals
      ensures Valid()
      ensures !old(Tracks(pointerId)) ==> unchanged(this)
      ensures old(Tracks(pointerId)) ==> activePointer.None?
      ensures old(SwipeDismisses(pointerId, x, y)) ==>
        var top := remaining[|remaining| - 1];
        && suppressClick && pendingClears == old(pendingClears) + 1
        && swipeX == old(swipeX)[top := ExitOffset(x - old(startX))]
        && Stack() == Vanished(old(Stack()), Some(top))
      ensures !old(SwipeDismisses(pointerId, x, y)) ==>
        suppressClick == old(suppressClick) && pendingClears == old(pendingClears)
        && swipeX == old(swipeX) && Stack() == old(Stack())
    {
      if !bound || activePointer.None? || pointerId != activePointer.value {
        return;
      }
      var dx := x - startX;
      var dy := y - startY;
      var absX := Abs(dx);
      var absY := Abs(dy);
      activePointer := None;
      if !moved {
        return;
      }
      if absX < SWIPE_MIN_PX {
        return;
      }
      if absY > absX * MAX_VERTICAL_RATIO {
        return;
      }
      var top := TopPhoto(remaining);
      if top.None? {
        return;
      }
      suppressClick := true;
      pendingClears := pendingClears + 1;
      swipeX := swipeX[top.value := ExitOffset(dx)];
      Vanish(top);
    }

    /** `pointercancel`: the tracked pointer is forgotten, nothing is dismissed. */
    method PointerCancel(pointerId: int)
      requires Valid()
      modifies this`activePointer
      ensures Valid()
      ensures !old(Tracks(pointerId)) ==> unchanged(this)
      ensures old(Tracks(pointerId)) ==> activePointer.None?
    {
      if !bound || activePointer.None? || pointerId != activePointer.value {
        return;
      }
      activePointer := None;
    }

    /** A zero-delay timer set by a swipe fires: clicks are accepted again. */
    method NextTick()
      requires Valid() && pendingClears > 0
      modifies this`suppressClick, this`pendingClears
      ensures Valid()
      ensures !suppressClick && pendingClears == old(pendingClears) - 1
    {
      suppressClick := false;
      pendingClears := pendingClears - 1;
    }
  }
}
