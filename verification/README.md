# Carousel slide-position state machine, in Dafny

A model of the `Carousel` widget of `examples/js/carousel.js`: a slideshow that moves the
container's N children into a strip, pads the strip with a copy of the last slide in front and a
copy of the first slide behind, and keeps an index into that padded strip. Next and previous move
to the neighbouring position and a dot jumps straight to its slide; every move is animated. When
the animation ends, a landing on a clone is silently snapped onto the real slide it shows, so the
carousel appears to loop forever. A single-flight flag (`isTransitioning`) blocks a second move
until the first has been reconciled, and a recurring 2000 ms autoplay interval calls "next".
Autoplay is paused when the pointer enters the widget and resumed when it leaves; a dot click
restarts it even while the pointer is still over the widget, because every successful move
restarts the interval. `destroy` clears the interval, removes the listeners and drops the strip.

Layout:

- `slides.dfy` (module `Slides`): the `Slide` datatype (an original child or a `cloneNode` copy),
  the padded sequence `Padded`, the logical slide `Logical` that a strip position shows, and the
  `Strip` element class (children, `translateX` offset, whether the transition animates).
- `position.dfy` (module `Position`): the state machine as values (`Pos`, `Next`, `Prev`,
  `DotJump`, `Settle`) and the lemmas about it: single flight, seamless reconciliation, bounded
  reachable states, and wrap-around after k rounds.
- `timers.dfy` (module `Timers`): the host's `setInterval`/`clearInterval` as a registry of live
  interval ids.
- `carousel.dfy` (module `Widget`): the `Carousel` class. Each navigation handler (next,
  previous, dot click, transition end, autoplay tick) is a method whose `ensures` ties the new
  `(currentIndex, isTransitioning)` to the `Position` function of the old one; autoplay start and
  stop, the pointer handlers and teardown leave the position alone. Every method keeps the object invariant
  `Valid()`: the index bounded, the strip equal to the padded sequence, the offset at
  `-100 * currentIndex` while the strip is present, and at most one live interval, the one the
  handle holds. Signals from the environment (transition end, pointer enter/leave, dot click) go
  through `Deliver*` methods that do nothing once the listeners are removed; `Tick` is a firing of
  a live interval.

This version of the widget has no loop or autoplay options, no arrow controls and no active-dot
marking. It always wraps, always autoplays, and the period is the constant 2000.

## Model

| member | source | states |
|---|---|---|
| `Widget.Carousel.constructor` | examples/js/carousel.js:12-36 | after construction the index is 1, nothing is in flight, the strip is the padded sequence of the children placed at offset -100% without animation, the listeners are registered and exactly one fresh 2000 ms interval is live |
| `Widget.Carousel.WrapContents` | examples/js/carousel.js:50-54 | the strip holds the container's children, in order, as originals |
| `Widget.Carousel.SetupClones` | examples/js/carousel.js:65-74 | a copy of the last child goes in front and a copy of the first child goes behind, the children in between untouched |
| `Widget.Carousel.GoToSlide` | examples/js/carousel.js:76-89 | with a strip present, the offset becomes -100 times the index, animated as asked, children unchanged; without one (after teardown) the strip element is untouched |
| `Widget.Carousel.HandleTransitionEnd` | examples/js/carousel.js:91-107 | the state becomes `Settle` of the old one, so the carousel is at rest on a real slide; a snap off a clone is not animated; on a real slide the strip is not touched |
| `Widget.Carousel.NextSlide` | examples/js/carousel.js:109-116 | the state becomes `Next` of the old one; when it moves, the strip animates and the timer is replaced by one fresh live interval; in flight, nothing changes |
| `Widget.Carousel.PrevSlide` | examples/js/carousel.js:118-125 | the state becomes `Prev` of the old one, with the same timer and animation effects as next |
| `Widget.Carousel.HandleDotsClick` | examples/js/carousel.js:141-156 | a dot with zero-based index d gives `DotJump` to d + 1, which moves only when at rest on another slide and then animates the strip and restarts the timer; other clicks change nothing |
| `Widget.Carousel.StartAutoplay` | examples/js/carousel.js:158-166 | idempotent: a live interval is kept as is; otherwise one new 2000 ms interval becomes live and is the handle |
| `Widget.Carousel.StopAutoplay` | examples/js/carousel.js:168-173 | afterwards no interval of the widget is live and the handle is empty; only the widget's own interval is cleared |
| `Widget.Carousel.HandleMouseEnter` | examples/js/carousel.js:175-177 | pointer entry leaves no live interval |
| `Widget.Carousel.HandleMouseLeave` | examples/js/carousel.js:179-181 | pointer exit leaves exactly one live interval, the existing one if there was one |
| `Widget.Carousel.Destroy` | examples/js/carousel.js:183-215 | no live interval, listeners removed, strip reference cleared; the index and flag keep their values |
| `Widget.Carousel.DeliverTransitionEnd` | examples/js/carousel.js:27-30 | while subscribed the transition end settles the state, without animation off a clone and without touching the strip on a real slide; after teardown a pending transition end changes nothing |
| `Widget.Carousel.DeliverMouseEnter` | examples/js/carousel.js:32 | while subscribed pointer entry pauses autoplay; after teardown nothing changes |
| `Widget.Carousel.DeliverMouseLeave` | examples/js/carousel.js:33 | while subscribed pointer exit resumes autoplay, keeping a live interval as is or starting one fresh 2000 ms interval; after teardown nothing changes |
| `Widget.Carousel.DeliverDotsClick` | examples/js/carousel.js:138 | while subscribed a dot click performs the dot jump and, when it moves, animates the strip and restarts the timer; an ignored click or one after teardown leaves state, timer and strip unchanged |
| `Widget.Carousel.Tick` | examples/js/carousel.js:163-165 | a firing of the widget's interval is a `nextSlide` call, with its state, timer and animation effects |
| `Slides.Originals` | examples/js/carousel.js:52-54 | moving the children keeps their number and order, each one original |
| `Slides.Padded` | examples/js/carousel.js:65-74 | the padded sequence has N+2 slides: position 0 a copy of slide N, positions 1..N the slides in order, position N+1 a copy of slide 1 |
| `Slides.Logical` | examples/js/carousel.js:91-104 | the logical slide of a strip position is in 1..N, equals the position on 1..N, is N for position 0 and 1 for position N+1 |
| `Slides.PaddedShowsLogical` | examples/js/carousel.js:65-74 | every strip position shows the content of its logical slide, and exactly positions 1..N hold originals |
| `Slides.Strip.AppendChild` | examples/js/carousel.js:72 | the new child goes last |
| `Slides.Strip.InsertBeforeFirst` | examples/js/carousel.js:73 | the new child goes first |
| `Timers.TimerHost.SetInterval` | examples/js/carousel.js:163-165 | a new interval is live under an id that was not live, with the given period |
| `Timers.TimerHost.ClearInterval` | examples/js/carousel.js:170 | the interval is no longer live, others are untouched |
| `Position.SingleFlight` | examples/js/carousel.js:109-125 | while a move is in flight, next, previous and dot jump leave the state unchanged |
| `Position.SettleRestores` | examples/js/carousel.js:91-107 | from any reachable state the transition end rests on a real slide, its logical slide, showing the same content as before the snap |
| `Position.SettleOnRealSlide` | examples/js/carousel.js:106 | on a real slide the transition end only clears the flag, and settling twice is settling once |
| `Position.MoveThenSettle` | examples/js/carousel.js:92-125 | from rest, a move stays within 0..N+1 and its transition end rests on slide (i mod N)+1 after next, ((i-2) mod N)+1 after previous, d+1 after the dot d |
| `Position.RunBounded` | examples/js/carousel.js:91-156 | any interleaving of commands and transition ends keeps the index in 0..N+1, and off 1..N only while a move is in flight |
| `Position.ForwardRoundsAdvance` | examples/js/carousel.js:91-116 | k rounds of next-then-transition-end from slide i rest on slide ((i-1+k) mod N)+1 |
| `Position.BackwardRoundsRetreat` | examples/js/carousel.js:91-125 | k rounds of previous-then-transition-end from slide i rest on slide ((i-1-k) mod N)+1 |
| `Position.FullLoop` | examples/js/carousel.js:91-125 | N rounds in either direction from slide 1 return to slide 1 |

## Left out

- DOM construction and styling: `createBlock`, the frame element, `innerHTML`, the dot buttons of `setupDots` and the CSS transition strings. The strip is its children, a `translateX` percentage and an "animated" flag.
- Event-listener registration, removal and `bind`: one `subscribed` flag, cleared by teardown; signals arrive through the `Deliver*` methods.
- Interval timing: an interval is an entry in the host's registry, and `Tick` is one of its firings. Ids are only promised not to be live when issued.
- The module-level instance and the page toolbar that calls `prevSlide`/`nextSlide` (lines 218-234): host-page wiring. The toolbar's calls are the `NextSlide`/`PrevSlide` methods themselves.
- A container selector that matches nothing (lines 3-10) and the `console.error` logging: the constructor takes the resolved children. The constructor also requires at least one child: with none, the source's `setupClones` fails on the missing first child.
- `Widget.Carousel.HandleDotsClick`: the `parseInt` of the `data-index` attribute is not modelled; the dot's index arrives as the integer 0..N-1 the dots were given.
- The `container`, `frame` and `dotsContainer` references: only the strip reference is modelled; the others only carry listeners, which `subscribed` covers.
- After a teardown at rest, `nextSlide` and `prevSlide` (reachable through the toolbar) still move the index and start a new interval, which keeps firing until a further `destroy` clears it; after a teardown in the middle of a move they are ignored, because the flag stays set. The model keeps this as written (see `NextAfterDestroyScenario` and `DestroyMidFlightScenario`) and does not claim they are no-ops.
- `rollup.config.mjs`: bundling configuration, no logic.
