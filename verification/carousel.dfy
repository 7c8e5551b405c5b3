/**
  The `Carousel` widget: its slide strip, its position state machine, its autoplay timer and
  its teardown. The DOM is abstracted to the strip's children and its two style properties;
  event listeners to one `subscribed` flag; the host's timers to a `TimerHost`.
 */
module Widget {
  import opened Wrappers
  import opened Slides
  import opened Position
  import opened Timers

  /** The autoplay period, in milliseconds. */
  const AutoplayPeriod: nat := 2000

  /** The strip's `translateX` percentage that centres strip position `index`. */
  function Offset(index: int): (percent: int)
  {
    -100 * index
  }

  /** Where a click on the dots block landed: on a dot button (carrying its zero-based
      `data-index`) or on the block around the buttons. */
  datatype ClickTarget = DotButton(index: int) | Elsewhere

  class Carousel<T> {
    /** The number N of real slides. */
    const originalCount: nat
    /** The container's children, in order, as they were at construction. */
    ghost const slides: seq<T>
    /** The strip element built at construction; `strip` refers to it until teardown. */
    ghost const element: Strip<T>
    const host: TimerHost

    var strip: Strip?<T>
    var currentIndex: int
    var isTransitioning: bool
    var autoplayInterval: Option<nat>
    /** Whether the transition-end, pointer and dot-click listeners are registered. */
    var subscribed: bool
    /** The intervals this widget has created and not yet cleared. */
    ghost var owned: set<nat>

    function State(): (p: Pos)
      reads this
    {
      Pos(currentIndex, isTransitioning)
    }

    /** At most one interval of this widget is live, and it is the one `autoplayInterval` holds. */
    ghost predicate TimerValid()
      reads this, host
    {
      && host.Valid()
      && owned == (if autoplayInterval.Some? then {autoplayInterval.value} else {})
      && forall id :: id in owned ==> id in host.live && host.live[id] == AutoplayPeriod
    }

    ghost predicate Valid()
      reads this, host, strip
    {
      && TimerValid()
      && originalCount == |slides| >= 1
      && Bounded(originalCount, State())
      && (strip == null || strip == element)
      && subscribed == (strip != null)
      && (strip != null ==> strip.children == Padded(slides) && strip.offset == Offset(currentIndex))
    }

    /** The timer was cleared and a new one started: exactly one interval of this widget is live. */
    ghost predicate Restarted(before: map<nat, nat>, was: set<nat>)
      reads this, host
    {
      && autoplayInterval.Some?
      && autoplayInterval.value !in before - was
      && host.live == (before - was)[autoplayInterval.value := AutoplayPeriod]
    }

    constructor (children: seq<T>, host: TimerHost)
      requires |children| >= 1 && host.Valid()
      modifies host
      ensures Valid() && this.host == host && slides == children && originalCount == |children|
      ensures State() == Pos(1, false) && subscribed
      ensures strip == element && fresh(element)
      ensures !element.animated && element.offset == Offset(1)
      ensures autoplayInterval.Some? && autoplayInterval.value !in old(host.live)
      ensures host.live == old(host.live)[autoplayInterval.value := AutoplayPeriod]
    {
      originalCount := |children|;
      slides := children;
      this.host := host;
      var s := new Strip<T>();
      element := s;
      strip := s;
      isTransitioning := false;
      currentIndex := 1;
      autoplayInterval := None;
      owned := {};
      subscribed := false;
      new;
      WrapContents(children);
      SetupClones();
      GoToSlide(currentIndex, false);
      subscribed := true;
      StartAutoplay();
    }

    /** Moves the container's children, in order, into the empty strip. */
    method WrapContents(items: seq<T>)
      requires strip != null && strip.children == []
      modifies strip
      ensures strip.children == Originals(items)
      ensures strip.offset == old(strip.offset) && strip.animated == old(strip.animated)
    {
      var i := 0;
      while i < |items|
        invariant 0 <= i <= |items|
        invariant strip.children == Originals(items[..i])
        invariant strip.offset == old(strip.offset) && strip.animated == old(strip.animated)
      {
        strip.AppendChild(Original(items[i]));
        assert Originals(items[..i + 1]) == Originals(items[..i]) + [Original(items[i])];
        i := i + 1;
      }
      assert items[..i] == items;
    }

    /** Appends a copy of the first slide and inserts a copy of the last slide before the first. */
    method SetupClones()
      requires strip != null && |strip.children| >= 1
      modifies strip
      ensures var was := old(strip.children);
        strip.children == [Clone(was[|was| - 1])] + was + [Clone(was[0])]
      ensures strip.offset == old(strip.offset) && strip.animated == old(strip.animated)
    {
      var first := strip.children[0];
      var last := strip.children[|strip.children| - 1];
      var firstClone := Clone(first);
      var lastClone := Clone(last);
      strip.AppendChild(firstClone);
      strip.InsertBeforeFirst(lastClone);
    }

    /** Centres strip position `index`, animated or not; without a strip it does nothing. */
    method GoToSlide(index: int, withAnimation: bool)
      modifies strip
      ensures strip != null ==> strip.offset == Offset(index) && strip.animated == withAnimation
      ensures strip != null ==> strip.children == old(strip.children)
      ensures strip == null ==> unchanged(element)
    {
      if strip == null {
        return;
      }
      strip.animated := withAnimation;
      strip.offset := Offset(index);
    }

    /** Reconciles a landing on a clone: snaps, without animation, to the real slide it shows. */
    method HandleTransitionEnd()
      requires Valid()
      modifies this`currentIndex, this`isTransitioning, strip
      ensures Valid() && State() == Settle(originalCount, old(State()))
      ensures AtRest(originalCount, State())
      ensures old(currentIndex) == 0 || old(currentIndex) == originalCount + 1 ==>
        strip != null ==> !strip.animated
      ensures 1 <= old(currentIndex) <= originalCount ==> unchanged(element)
    {
      if currentIndex == originalCount + 1 {
        currentIndex := 1;
        GoToSlide(currentIndex, false);
        isTransitioning := false;
        return;
      }
      if currentIndex == 0 {
        currentIndex := originalCount;
        GoToSlide(currentIndex, false);
        isTransitioning := false;
        return;
      }
      isTransitioning := false;
    }

    /** Advances one position, unless a move is in flight; restarts the autoplay timer. */
    method NextSlide()
      requires Valid()
      modifies this`currentIndex, this`isTransitioning, this`autoplayInterval, this`owned, host, strip
      ensures Valid() && State() == Next(old(State()))
      ensures old(isTransitioning) ==>
        autoplayInterval == old(autoplayInterval) && host.live == old(host.live) && unchanged(element)
      ensures !old(isTransitioning) ==> Restarted(old(host.live), old(owned))
      ensures !old(isTransitioning) && strip != null ==> strip.animated
      ensures old(strip) == null ==> unchanged(element)
    {
      if isTransitioning {
        return;
      }
      StopAutoplay();
      isTransitioning := true;
      currentIndex := currentIndex + 1;
      GoToSlide(currentIndex, true);
      StartAutoplay();
    }

    /** Retreats one position, unless a move is in flight; restarts the autoplay timer. */
    method PrevSlide()
      requires Valid()
      modifies this`currentIndex, this`isTransitioning, this`autoplayInterval, this`owned, host, strip
      ensures Valid() && State() == Prev(old(State()))
      ensures old(isTransitioning) ==>
        autoplayInterval == old(autoplayInterval) && host.live == old(host.live) && unchanged(element)
      ensures !old(isTransitioning) ==> Restarted(old(host.live), old(owned))
      ensures !old(isTransitioning) && strip != null ==> strip.animated
      ensures old(strip) == null ==> unchanged(element)
    {
      if isTransitioning {
        return;
      }
      StopAutoplay();
      isTransitioning := true;
      currentIndex := currentIndex - 1;
      GoToSlide(currentIndex, true);
      StartAutoplay();
    }

    /** A click on the dots block: a dot jumps to its slide unless a move is in flight or the
        slide is already centred; any other click is ignored. */
    method HandleDotsClick(target: ClickTarget)
      requires Valid()
      requires target.DotButton? ==> 0 <= target.index < originalCount
      modifies this`currentIndex, this`isTransitioning, this`autoplayInterval, this`owned, host, strip
      ensures Valid()
      ensures State() == if target.DotButton? then DotJump(old(State()), target.index) else old(State())
      ensures var started := target.DotButton? && !old(isTransitioning) && target.index + 1 != old(currentIndex);
        && (started ==> Restarted(old(host.live), old(owned)))
        && (started && strip != null ==> strip.animated)
        && (!started ==> autoplayInterval == old(autoplayInterval) && host.live == old(host.live) && unchanged(element))
    {
      if target.DotButton? {
        if isTransitioning {
          return;
        }
        var targetIndex := target.index + 1;
        if targetIndex == currentIndex {
          return;
        }
        StopAutoplay();
        isTransitioning := true;
        currentIndex := targetIndex;
        GoToSlide(currentIndex, true);
        StartAutoplay();
      }
    }

    /** Starts the autoplay interval unless one is already live (idempotent). */
    method StartAutoplay()
      requires TimerValid()
      modifies this`autoplayInterval, this`owned, host
      ensures TimerValid() && autoplayInterval.Some?
      ensures old(autoplayInterval).Some? ==>
        autoplayInterval == old(autoplayInterval) && host.live == old(host.live)
      ensures old(autoplayInterval).None? ==>
        autoplayInterval.value !in old(host.live)
        && host.live == old(host.live)[autoplayInterval.value := AutoplayPeriod]
    {
      if autoplayInterval.Some? {
        return;
      }
      var id := host.SetInterval(AutoplayPeriod);
      autoplayInterval := Some(id);
      owned := {id};
    }

    /** Clears the autoplay interval if one is live; afterwards no interval of this widget is live. */
    method StopAutoplay()
      requires TimerValid()
      modifies this`autoplayInterval, this`owned, host
      ensures TimerValid() && autoplayInterval == None && owned == {}
      ensures host.live == old(host.live) - old(owned)
    {
      if autoplayInterval.Some? {
        host.ClearInterval(autoplayInterval.value);
        autoplayInterval := None;
        owned := {};
      }
    }

    /** Pointer enters the widget: autoplay pauses. */
    method HandleMouseEnter()
      requires Valid()
      modifies this`autoplayInterval, this`owned, host
      ensures Valid() && autoplayInterval == None
      ensures host.live == old(host.live) - old(owned)
    {
      StopAutoplay();
    }

    /** Pointer leaves the widget: autoplay resumes, keeping a live interval if there is one. */
    method HandleMouseLeave()
      requires Valid()
      modifies this`autoplayInterval, this`owned, host
      ensures Valid() && autoplayInterval.Some?
      ensures old(autoplayInterval).Some? ==>
        autoplayInterval == old(autoplayInterval) && host.live == old(host.live)
      ensures old(autoplayInterval).None? ==>
        autoplayInterval.value !in old(host.live)
        && host.live == old(host.live)[autoplayInterval.value := AutoplayPeriod]
    {
      StartAutoplay();
    }

    /** Teardown: clears the timer, removes the listeners and drops the strip reference. The
        position is left as it is. */
    method Destroy()
      requires Valid()
      modifies this`strip, this`subscribed, this`autoplayInterval, this`owned, host
      ensures Valid() && strip == null && !subscribed && autoplayInterval == None
      ensures host.live == old(host.live) - old(owned)
    {
      StopAutoplay();
      subscribed := false;
      strip := null;
    }

    /** The strip's transition-end signal, delivered only while the listener is registered. */
    method DeliverTransitionEnd()
      requires Valid()
      modifies this`currentIndex, this`isTransitioning, strip
      ensures Valid()
      ensures old(subscribed) ==> State() == Settle(originalCount, old(State()))
      ensures old(subscribed) && (old(currentIndex) == 0 || old(currentIndex) == originalCount + 1) ==>
        !element.animated
      ensures old(subscribed) && 1 <= old(currentIndex) <= originalCount ==> unchanged(element)
      ensures !old(subscribed) ==> unchanged(this) && unchanged(element)
    {
      if subscribed {
        HandleTransitionEnd();
      }
    }

    /** Pointer entering the container, delivered only while the listener is registered. */
    method DeliverMouseEnter()
      requires Valid()
      modifies this`autoplayInterval, this`owned, host
      ensures Valid()
      ensures old(subscribed) ==> autoplayInterval == None && host.live == old(host.live) - old(owned)
      ensures !old(subscribed) ==> unchanged(this) && unchanged(host)
    {
      if subscribed {
        HandleMouseEnter();
      }
    }

    /** Pointer leaving the container, delivered only while the listener is registered. */
    method DeliverMouseLeave()
      requires Valid()
      modifies this`autoplayInterval, this`owned, host
      ensures Valid()
      ensures old(subscribed) ==> autoplayInterval.Some?
      ensures old(subscribed) && old(autoplayInterval).Some? ==>
        autoplayInterval == old(autoplayInterval) && host.live == old(host.live)
      ensures old(subscribed) && old(autoplayInterval).None? ==>
        autoplayInterval.value !in old(host.live)
        && host.live == old(host.live)[autoplayInterval.value := AutoplayPeriod]
      ensures !old(subscribed) ==> unchanged(this) && unchanged(host)
    {
      if subscribed {
        HandleMouseLeave();
      }
    }

    /** A click on the dots block, delivered only while the listener is registered. */
    method DeliverDotsClick(target: ClickTarget)
      requires Valid()
      requires target.DotButton? ==> 0 <= target.index < originalCount
      modifies this`currentIndex, this`isTransitioning, this`autoplayInterval, this`owned, host, strip
      ensures Valid()
      ensures old(subscribed) && target.DotButton? ==> State() == DotJump(old(State()), target.index)
      ensures var started := old(subscribed) && target.DotButton? && !old(isTransitioning)
          && target.index + 1 != old(currentIndex);
        && (started ==> Restarted(old(host.live), old(owned)))
        && (started ==> element.animated)
        && (!started ==> autoplayInterval == old(autoplayInterval) && host.live == old(host.live) && unchanged(element))
      ensures !old(subscribed) || target.Elsewhere? ==> State() == old(State())
      ensures !old(subscribed) ==> unchanged(this) && unchanged(host) && unchanged(element)
    {
      if subscribed {
        HandleDotsClick(target);
      }
    }

    /** A firing of this widget's autoplay interval: its callback advances the carousel. An
        interval fires until it is cleared, whether or not the widget has been torn down. */
    method Tick(id: nat)
      requires Valid() && id in owned
      modifies this`currentIndex, this`isTransitioning, this`autoplayInterval, this`owned, host, strip
      ensures Valid() && State() == Next(old(State()))
      ensures !old(isTransitioning) ==> Restarted(old(host.live), old(owned))
      ensures old(isTransitioning) ==>
        autoplayInterval == old(autoplayInterval) && host.live == old(host.live) && unchanged(element)
      ensures !old(isTransitioning) && strip != null ==> strip.animated
      ensures old(strip) == null ==> unchanged(element)
    {
      NextSlide();
    }
  }

  /** Three slides: the dot for slide 3, then next onto the trailing clone, whose transition end
      snaps back to slide 1 without animation. */
  method WrapAroundScenario()
  {
    var host := new TimerHost();
    var c := new Carousel<int>([10, 20, 30], host);
    c.DeliverDotsClick(DotButton(2));
    assert c.State() == Pos(3, true) && c.element.offset == -300 && c.element.animated;
    c.DeliverTransitionEnd();
    assert c.State() == Pos(3, false);
    c.NextSlide();
    assert c.State() == Pos(4, true) && c.element.offset == -400;
    c.DeliverTransitionEnd();
    assert c.State() == Pos(1, false) && c.element.offset == -100 && !c.element.animated;
  }

  /** Teardown in the middle of a move: the late transition end changes nothing, and no interval
      is left running. */
  method DestroyMidFlightScenario()
  {
    var host := new TimerHost();
    var c := new Carousel<int>([10, 20], host);
    c.NextSlide();
    c.Destroy();
    assert host.live == map[];
    c.DeliverTransitionEnd();
    assert c.State() == Pos(2, true) && c.element.offset == -200;
  }

  /** An external call to `nextSlide` after a teardown at rest still moves the index and starts
      a new interval, which only a further teardown clears; the strip element is left where it was. */
  method NextAfterDestroyScenario()
  {
    var host := new TimerHost();
    var c := new Carousel<int>([10, 20], host);
    c.Destroy();
    c.NextSlide();
    assert c.State() == Pos(2, true) && c.element.offset == -100;
    assert c.autoplayInterval.Some? && c.autoplayInterval.value in host.live;
    c.Destroy();
    assert host.live == map[];
  }
}
