/**
 * The proposal card of script.js: a fixed table of seven stages, a No button
 * that shrinks and drifts on every click until it is removed, a Yes button
 * that grows, and a one-way move to the final stage when Yes is clicked.
 *
 * The pure part (`Machine`, `OnNo`, `OnYes`, `Run`) is the abstract state
 * machine; the class `Card` holds the page's globals and what is rendered,
 * and its methods are proved against the pure part.
 */
module Proposal {

  import opened Wrappers

  /** One row of the stage table: the texts shown and the key of the gif made active. */
  datatype Stage = Stage(title: string, subtitle: string, gifKey: string)

  /** The stage table, indexed 0..6. */
  const STAGES: seq<Stage> := [
    Stage("Hey Cutie!", "Will you be my Valentine?", "start"),
    Stage("Wait...", "Are you sure?", "wait1"),
    Stage("Wait...", "Reaallyy sure?", "wait2"),
    Stage("Wait...", "Don\U{2019}t do this to me :(", "wait3"),
    Stage("Wait...", "You\U{2019}re breaking my heart...", "wait4"),
    Stage("Please?", "You have no choice now! \U{2764}\U{FE0F}", "please"),
    Stage("Yay! Happy Valentine\U{2019}s Day!", "I knew u would say yes \U{1F61B}", "final")
  ]

  /** On this No click the card locks into the "Please?" stage and the No button is removed. */
  const NO_CLICK_LIMIT: nat := 5
  /** The last of the "Wait..." stages, shown on the click with the same number. */
  const LAST_WAIT_STAGE: nat := 4
  const LOCKED_STAGE: nat := 5
  const FINAL_STAGE: nat := 6

  const YES_GROWTH_PER_NO: real := 0.3
  const NO_SHRINK_PER_NO: real := 0.08
  const NO_MIN_SCALE: real := 0.45

  /** Horizontal and vertical push of the No button, in pixels per click and at most. */
  const PUSH_X_PER_NO: int := 18
  const PUSH_X_MAX: int := 120
  const PUSH_Y_PER_NO: int := 4
  const PUSH_Y_MAX: int := 28

  function MinInt(a: int, b: int): int { if a <= b then a else b }

  /** Scale of the Yes button after `n` No clicks. */
  function YesScale(n: nat): (r: real)
    ensures r >= 1.0
    ensures n == 0 <==> r == 1.0
  {
    1.0 + n as real * YES_GROWTH_PER_NO
  }

  /** Scale of the No button after `n` No clicks: it shrinks linearly down to a floor. */
  function NoScale(n: nat): (r: real)
    ensures NO_MIN_SCALE <= r <= 1.0
    ensures n == 0 <==> r == 1.0
  {
    MaxReal(NO_MIN_SCALE, 1.0 - n as real * NO_SHRINK_PER_NO)
  }

  /** Horizontal push of the No button after `n` clicks. */
  function PushX(n: nat): (r: int)
    ensures 0 <= r <= PUSH_X_MAX && r <= PUSH_X_PER_NO * n
    ensures n == 0 <==> r == 0
  {
    MinInt(PUSH_X_MAX, n * PUSH_X_PER_NO)
  }

  /** Vertical push of the No button after `n` clicks. */
  function PushY(n: nat): (r: int)
    ensures 0 <= r <= PUSH_Y_MAX && r <= PUSH_Y_PER_NO * n
    ensures n == 0 <==> r == 0
  {
    MinInt(PUSH_Y_MAX, n * PUSH_Y_PER_NO)
  }

  /** Each further No click makes Yes strictly larger and No no larger. */
  lemma ScalesMonotone(m: nat, n: nat)
    requires m < n
    ensures YesScale(m) < YesScale(n)
    ensures NoScale(n) <= NoScale(m)
    ensures PushX(m) <= PushX(n) && PushY(m) <= PushY(n)
  {
  }

  /**
   * The stage on screen for a click count: the final stage once Yes was
   * clicked, else stage `noClicks` for 0..4 and the locked stage after that.
   */
  function StageOf(noClicks: nat, inFinal: bool): (i: nat)
    ensures i < |STAGES|
    ensures i == FINAL_STAGE <==> inFinal
    ensures !inFinal && noClicks <= LAST_WAIT_STAGE ==> i == noClicks
    ensures !inFinal && noClicks >= NO_CLICK_LIMIT ==> i == LOCKED_STAGE
  {
    if inFinal then FINAL_STAGE
    else if noClicks <= LAST_WAIT_STAGE then noClicks
    else LOCKED_STAGE
  }

  // ---------------------------------------------------------------------------
  // The abstract state machine
  // ---------------------------------------------------------------------------

  /** The part of the page state every other part is derived from. */
  datatype Machine = Machine(noClicks: nat, inFinal: bool, noPresent: bool)

  /** State on page load and after `resetAll`. */
  const Start: Machine := Machine(0, false, true)

  /** The states the page can be in: the No button exists exactly while fewer than five No clicks were made. */
  ghost predicate Consistent(m: Machine) {
    m.noClicks <= NO_CLICK_LIMIT && (m.noPresent <==> m.noClicks < NO_CLICK_LIMIT)
  }

  /** `handleNoClick`: ignored in the final stage, otherwise one more click; the limit removes the button. */
  function OnNo(m: Machine): (r: Machine)
    ensures m.inFinal ==> r == m
    ensures !m.inFinal ==> r.noClicks == m.noClicks + 1 && !r.inFinal
    ensures !m.inFinal ==> (r.noPresent <==> m.noPresent && r.noClicks < NO_CLICK_LIMIT)
  {
    if m.inFinal then m
    else
      var n := m.noClicks + 1;
      Machine(n, false, if n >= NO_CLICK_LIMIT then false else m.noPresent)
  }

  /** The Yes handler: a one-way move into the final stage. */
  function OnYes(m: Machine): (r: Machine)
    ensures r.inFinal
    ensures r.noClicks == m.noClicks && r.noPresent == m.noPresent
  {
    if m.inFinal then m else m.(inFinal := true)
  }

  /** A second Yes click changes nothing. */
  lemma YesIdempotent(m: Machine)
    ensures OnYes(OnYes(m)) == OnYes(m)
    ensures StageOf(OnYes(m).noClicks, OnYes(m).inFinal) == FINAL_STAGE
  {
  }

  /** What the user can do on the card. */
  datatype Event = NoClick | YesClick | Reset

  /**
   * Deliver one event; a removed No button receives no clicks. Short of a
   * reset the click count never goes down and the final stage is never left.
   */
  function Deliver(m: Machine, e: Event): (r: Machine)
    ensures e == Reset ==> r == Start
    ensures e != Reset ==> m.noClicks <= r.noClicks <= m.noClicks + 1
    ensures e != Reset && m.inFinal ==> r == m
    ensures e == NoClick && !m.noPresent ==> r == m
  {
    match e
    case NoClick => if m.noPresent then OnNo(m) else m
    case YesClick => OnYes(m)
    case Reset => Start
  }

  /** Deliver a sequence of events, first to last; without a reset the count only grows and a final state stays final. */
  function Run(m: Machine, events: seq<Event>): (r: Machine)
    ensures (forall i :: 0 <= i < |events| ==> events[i] != Reset) ==>
      m.noClicks <= r.noClicks <= m.noClicks + |events| && (m.inFinal ==> r.inFinal)
    decreases |events|
  {
    if events == [] then m else Run(Deliver(m, events[0]), events[1..])
  }

  lemma DeliverKeepsConsistent(m: Machine, e: Event)
    requires Consistent(m)
    ensures Consistent(Deliver(m, e))
  {
  }

  /** Whatever the user does, the click count stays at most five and the No button exists iff it is below five. */
  lemma {:induction false} RunKeepsConsistent(m: Machine, events: seq<Event>)
    requires Consistent(m)
    ensures Consistent(Run(m, events))
    decreases |events|
  {
    if events != [] {
      DeliverKeepsConsistent(m, events[0]);
      RunKeepsConsistent(Deliver(m, events[0]), events[1..]);
    }
  }

  /** Running a sequence and then one more event is one more step. */
  lemma {:induction false} RunSnoc(m: Machine, events: seq<Event>, e: Event)
    ensures Run(m, events + [e]) == Deliver(Run(m, events), e)
    decreases |events|
  {
    if events == [] {
      assert events + [e] == [e];
    } else {
      assert (events + [e])[1..] == events[1..] + [e];
      RunSnoc(Deliver(m, events[0]), events[1..], e);
    }
  }

  function NoClicks(k: nat): (s: seq<Event>)
    ensures |s| == k && forall i :: 0 <= i < k ==> s[i] == NoClick
  {
    seq(k, _ => NoClick)
  }

  /**
   * After the k-th No click from the start: clicks 1..4 show stage k with the
   * No button still there, click 5 shows the locked stage and the button is
   * gone, so no further No click ever arrives.
   */
  lemma {:induction false} AfterNoClicks(k: nat)
    ensures Run(Start, NoClicks(k)) ==
      if k < NO_CLICK_LIMIT then Machine(k, false, true) else Machine(NO_CLICK_LIMIT, false, false)
    ensures StageOf(Run(Start, NoClicks(k)).noClicks, false) ==
      if k <= LAST_WAIT_STAGE then k else LOCKED_STAGE
  {
    if k > 0 {
      AfterNoClicks(k - 1);
      assert NoClicks(k) == NoClicks(k - 1) + [NoClick];
      RunSnoc(Start, NoClicks(k - 1), NoClick);
    }
  }

  /** Once Yes has been clicked, nothing short of a reset changes the state. */
  lemma {:induction false} FinalIsAbsorbing(m: Machine, events: seq<Event>)
    requires m.inFinal
    requires forall i :: 0 <= i < |events| ==> events[i] != Reset
    ensures Run(m, events) == m
    decreases |events|
  {
    if events != [] {
      FinalIsAbsorbing(Deliver(m, events[0]), events[1..]);
    }
  }

  // ---------------------------------------------------------------------------
  // The page
  // ---------------------------------------------------------------------------

  /** The No button's inline style: its push offsets, and whether it was made invisible and unclickable. */
  datatype NoButton = NoButton(pushX: int, pushY: int, hidden: bool)

  /** The Yes button's drawn scale and its `huge` class. */
  datatype YesButton = YesButton(scale: real, huge: bool)

  /** The card's `growing` and `roomy` classes, and whether the action row and the replay button are hidden. */
  datatype Layout = Layout(growing: bool, roomy: bool, actionsHidden: bool, replayHidden: bool)

  /** The card: the globals of script.js and the state of the elements they drive. */
  class Card {
    /** `data-gif` of each `.gifItem`, in document order. */
    const gifKeys: seq<string>
    /** Whether each gif item carries the `active` class. */
    var gifActive: seq<bool>
    var title: string
    var subtitle: string
    /** The index last passed to `setStage`. */
    var stage: nat

    var noClicks: nat
    var yesScale: real
    var noScale: real
    var inFinal: bool

    /** The No button, `None` once it has been removed from the document. */
    var noButton: Option<NoButton>
    var yesButton: YesButton
    var layout: Layout

    function Model(): Machine
      reads this
    {
      Machine(noClicks, inFinal, noButton.Some?)
    }

    /** Stage `i` is on screen: its texts are shown and exactly the gif items with its key are active. */
    ghost predicate Shows(i: nat)
      reads this
      requires i < |STAGES|
    {
      && stage == i
      && title == STAGES[i].title
      && subtitle == STAGES[i].subtitle
      && |gifActive| == |gifKeys|
      && forall j :: 0 <= j < |gifKeys| ==> (gifActive[j] <==> gifKeys[j] == STAGES[i].gifKey)
    }

    /** Everything on the page is determined by the click count and the final flag. */
    ghost predicate Valid()
      reads this
    {
      && Consistent(Model())
      && Shows(StageOf(noClicks, inFinal))
      && yesScale == YesScale(noClicks)
      && noScale == NoScale(noClicks)
      && (noButton.Some? ==> noButton.value == NoButton(PushX(noClicks), PushY(noClicks), inFinal))
      && yesButton == YesButton(if inFinal then 1.0 else yesScale, !inFinal && noClicks >= NO_CLICK_LIMIT)
      && layout == Layout(noClicks > 0, noClicks >= NO_CLICK_LIMIT, inFinal, !inFinal)
    }

    /** Page load: the markup's initial state, then `setStage(0)`. */
    constructor (gifKeys: seq<string>)
      ensures Valid()
      ensures Model() == Start && this.gifKeys == gifKeys
    {
      this.gifKeys := gifKeys;
      gifActive := seq(|gifKeys|, _ => false);
      title, subtitle, stage := "", "", 0;
      noClicks, inFinal := 0, false;
      yesScale, noScale := 1.0, 1.0;
      noButton := Some(NoButton(0, 0, false));
      yesButton := YesButton(1.0, false);
      layout := Layout(false, false, false, true);
      new;
      SetStage(0);
    }

    /** `setStage`: show the texts of stage `i` and toggle `active` on every gif item. */
    method SetStage(i: nat)
      requires i < |STAGES|
      requires |gifActive| == |gifKeys|
      modifies this`stage, this`title, this`subtitle, this`gifActive
      ensures Shows(i)
    {
      var s := STAGES[i];
      title := s.title;
      subtitle := s.subtitle;
      var j := 0;
      while j < |gifKeys|
        invariant 0 <= j <= |gifKeys| == |gifActive|
        invariant title == s.title && subtitle == s.subtitle
        invariant forall k :: 0 <= k < j ==> (gifActive[k] <==> gifKeys[k] == s.gifKey)
      {
        gifActive := gifActive[j := gifKeys[j] == s.gifKey];
        j := j + 1;
      }
      stage := i;
    }

    /** `handleNoClick`; the listener sits on the No button, so it runs only while the button exists. */
    method HandleNoClick()
      requires Valid() && noButton.Some?
      modifies this
      ensures Valid()
      ensures Model() == OnNo(old(Model()))
      ensures old(inFinal) ==> unchanged(this)
      ensures !old(inFinal) ==> yesScale > old(yesScale) && noScale <= old(noScale)
    {
      if inFinal {
        return;
      }
      ScalesMonotone(noClicks, noClicks + 1);
      noClicks := noClicks + 1;
      layout := layout.(growing := true);
      yesScale := YesScale(noClicks);
      noScale := NoScale(noClicks);
      yesButton := yesButton.(scale := yesScale);
      noButton := Some(noButton.value.(pushX := PushX(noClicks), pushY := PushY(noClicks)));
      if noClicks <= LAST_WAIT_STAGE {
        SetStage(noClicks);
      }
      if noClicks >= NO_CLICK_LIMIT {
        SetStage(LOCKED_STAGE);
        yesButton := yesButton.(huge := true);
        layout := layout.(roomy := true);
        noButton := None;
      }
    }

    /** The Yes click handler. */
    method HandleYesClick()
      requires Valid()
      modifies this
      ensures Valid()
      ensures Model() == OnYes(old(Model()))
      ensures stage == FINAL_STAGE && layout.actionsHidden && !layout.replayHidden
      ensures old(inFinal) ==> unchanged(this)
    {
      if inFinal {
        return;
      }
      inFinal := true;
      SetStage(FINAL_STAGE);
      if noButton.Some? {
        noButton := Some(noButton.value.(hidden := true));
      }
      yesButton := YesButton(1.0, false);
      layout := layout.(actionsHidden := true, replayHidden := false);
    }

    /** `resetAll`: back to the state of page load, recreating the No button when it was removed. */
    method ResetAll()
      requires |gifActive| == |gifKeys|
      modifies this
      ensures Valid()
      ensures Model() == Start
      ensures stage == 0 && yesScale == 1.0 && noScale == 1.0
      ensures noButton == Some(NoButton(0, 0, false)) && layout.replayHidden && !layout.actionsHidden
    {
      inFinal := false;
      noClicks := 0;
      yesScale := 1.0;
      noScale := 1.0;
      layout := layout.(growing := false, roomy := false);
      SetStage(0);
      yesButton := YesButton(1.0, false);
      layout := layout.(actionsHidden := false);
      noButton := Some(NoButton(0, 0, false));
      layout := layout.(replayHidden := true);
    }
  }
}
