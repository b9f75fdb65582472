/** The decorative hero (src/components/ButterflyHero.tsx): its visibility
    follows the latest scroll offset, and every scroll update past the
    threshold calls the completion callback. */
module Hero {
  import Home

  /** Offsets strictly beyond this many pixels hide the hero. */
  const HideThreshold: real := 350.0

  /** Whether the hero is shown, and how many times the completion callback has run. */
  datatype HeroState = HeroState(isVisible: bool, completions: nat)

  /** On mount the hero is shown and the callback has not run. */
  const Initial: HeroState := HeroState(true, 0)

  /** One `scrollY.onChange` notification with offset `latest`. */
  function ScrollUpdate(s: HeroState, latest: real, hasCallback: bool): (t: HeroState)
    ensures t.isVisible <==> latest <= HideThreshold
    ensures latest <= HideThreshold || !hasCallback ==> t.completions == s.completions
    ensures latest > HideThreshold && hasCallback ==> t.completions == s.completions + 1
  {
    if latest > HideThreshold then
      HeroState(false, if hasCallback then s.completions + 1 else s.completions)
    else
      HeroState(true, s.completions)
  }

  /** The state after a series of scroll notifications, in order. */
  function Replay(s: HeroState, offsets: seq<real>, hasCallback: bool): HeroState
    decreases |offsets|
  {
    if offsets == [] then s else Replay(ScrollUpdate(s, offsets[0], hasCallback), offsets[1..], hasCallback)
  }

  /** How many offsets are beyond the threshold. */
  function CountAbove(offsets: seq<real>): nat {
    if offsets == [] then 0 else (if offsets[0] > HideThreshold then 1 else 0) + CountAbove(offsets[1..])
  }

  /** Visibility depends only on the latest offset, whatever came before;
      with no notification at all it is unchanged. */
  lemma {:induction false} VisibilityFollowsLatest(s: HeroState, offsets: seq<real>, hasCallback: bool)
    ensures offsets == [] ==> Replay(s, offsets, hasCallback).isVisible == s.isVisible
    ensures offsets != [] ==>
      (Replay(s, offsets, hasCallback).isVisible <==> offsets[|offsets| - 1] <= HideThreshold)
    decreases |offsets|
  {
    if offsets != [] {
      var t := ScrollUpdate(s, offsets[0], hasCallback);
      VisibilityFollowsLatest(t, offsets[1..], hasCallback);
      if |offsets| > 1 {
        assert offsets[1..][|offsets[1..]| - 1] == offsets[|offsets| - 1];
      }
    }
  }

  /** The callback runs once for every notification beyond the threshold,
      not once per crossing, and never without a callback. */
  lemma {:induction false} CompletionsPerTick(s: HeroState, offsets: seq<real>, hasCallback: bool)
    ensures Replay(s, offsets, hasCallback).completions
            == s.completions + (if hasCallback then CountAbove(offsets) else 0)
    decreases |offsets|
  {
    if offsets != [] {
      CompletionsPerTick(ScrollUpdate(s, offsets[0], hasCallback), offsets[1..], hasCallback);
    }
  }

  lemma {:induction false} CountAbovePositive(offsets: seq<real>)
    ensures CountAbove(offsets) > 0 <==> exists i :: 0 <= i < |offsets| && offsets[i] > HideThreshold
  {
    if offsets != [] {
      CountAbovePositive(offsets[1..]);
      if exists i :: 0 <= i < |offsets| && offsets[i] > HideThreshold {
        var i :| 0 <= i < |offsets| && offsets[i] > HideThreshold;
        if i > 0 {
          assert offsets[1..][i - 1] == offsets[i];
        }
      }
    }
  }

  /** Offsets that never pass the threshold never call the callback and leave the hero shown. */
  lemma NeverPastThreshold(offsets: seq<real>, hasCallback: bool)
    requires forall i :: 0 <= i < |offsets| ==> offsets[i] <= HideThreshold
    ensures Replay(Initial, offsets, hasCallback) == Initial
  {
    CompletionsPerTick(Initial, offsets, hasCallback);
    CountAbovePositive(offsets);
    VisibilityFollowsLatest(Initial, offsets, hasCallback);
  }

  /** Scrolling through 0, 100, 399, 401 and 450 pixels calls the callback
      three times, once for each offset past 350, and ends hidden. */
  lemma ScrollSequenceExample()
    ensures Replay(Initial, [0.0, 100.0, 399.0, 401.0, 450.0], true) == HeroState(false, 3)
  {
    var offsets := [0.0, 100.0, 399.0, 401.0, 450.0];
    CompletionsPerTick(Initial, offsets, true);
    VisibilityFollowsLatest(Initial, offsets, true);
    assert offsets[1..][1..][1..][1..][1..] == [];
  }

  /** The hero component's state. `onAnimationComplete` is the home page
      whose `handleButterflyComplete` is passed as the callback, or null when
      no callback is given; `completions` counts the callback's runs. */
  class ButterflyHero {
    const onAnimationComplete: Home.IndexPage?
    var isVisible: bool
    ghost var completions: nat

    ghost function State(): HeroState
      reads this
    {
      HeroState(isVisible, completions)
    }

    constructor (onAnimationComplete: Home.IndexPage?)
      ensures this.onAnimationComplete == onAnimationComplete
      ensures State() == Initial
    {
      this.onAnimationComplete := onAnimationComplete;
      isVisible := true;
      completions := 0;
    }

    /** The `scrollY.onChange` subscriber. */
    method ScrollChanged(latest: real)
      modifies this`isVisible, this`completions, onAnimationComplete
      ensures State() == ScrollUpdate(old(State()), latest, onAnimationComplete != null)
      ensures onAnimationComplete != null ==>
        onAnimationComplete.navbarVisible == (old(onAnimationComplete.navbarVisible) || latest > HideThreshold)
        && onAnimationComplete.wishlist == old(onAnimationComplete.wishlist)
        && onAnimationComplete.storedWishlist == old(onAnimationComplete.storedWishlist)
        && onAnimationComplete.isMobile == old(onAnimationComplete.isMobile)
    {
      if latest > HideThreshold {
        isVisible := false;
        if onAnimationComplete != null {
          onAnimationComplete.ButterflyComplete();
          completions := completions + 1;
        }
      } else {
        isVisible := true;
      }
    }
  }
}
