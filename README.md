# Portfolio page behaviour, modelled in Dafny

This project models the parts of the portfolio site's `js/script.js` that have
behaviour worth stating. The rest of that file is DOM and timer plumbing.

- **Carousel controller** (`carousel.dfy`, module `CarouselController`). The
  class `Carousel` holds `currentIndex`, the fixed item count, one `Look` per
  item (the four inline transform/opacity treatments as an enumeration), one
  active flag per dot, the `autoSlide` handle, and a log of every
  `setInterval`/`clearInterval` call. `Live(log)` is the set of intervals
  still running. `Next`/`Prev` are the index steps. `Advance` is `k` steps
  of "next". `ItemLook` is the reference treatment of each item, defined by
  ring distance from the current item. `UpdateCarousel` and `UpdateDots` are
  the two `forEach` loops. The item loop is proved against that reference; the
  dot loop is proved to mark exactly the dot whose index is the current one.
- **Progress bars** (`progress.dfy`, module `ProgressBar`). A `Bar` holds the
  parsed inline width (`Parsed`: a number, or NaN) and the list of every width
  written to it. `Animate` is `animateProgressBar`: one loop iteration per
  animation frame. `Frames` is the reference sequence of widths the frames
  write.
- **Contact form** (`contact.dfy`, module `ContactForm`). There are pure
  functions for the submit handler (`OnSubmit`) and the promise callbacks
  (`OnDelivery`). Their result is the ordered list of effects: notifications
  shown and requests handed to the e-mail service.
- **Navigation menu** (`menu.dfy`, module `NavigationMenu`). The class `Menu`
  holds the two "active" classes and the inline styles of the navbar and the
  hamburger. `CheckWidth` is the pure layout choice at the 768px breakpoint.

Browser inputs are parameters. These are `window.innerWidth` (the `viewport`
argument), the outcome of the e-mail service's promise (`Delivery`), whether
the e-mail library's script has loaded (`libraryLoaded`), and the handles
`setInterval` returns (a counter of handles).

Where the code departs from the intended behaviour, the model follows the code:

- The submit handler calls the e-mail service first. Only after that does it
  show "Sending message..." (`js/script.js:342-355`). The intended order is
  the notice first, then the call.
- A bar whose width is not a number, or is 0 or negative, never starts a
  frame. It stays at the `0` of the reset (`ProgressBar.Settled`). The
  intended behaviour is that every bar ends on its target.
- Item 0 gets the off-canvas-right treatment whenever it is not current. This
  also happens when it is the current item's neighbour (`LookCases`).
- A hamburger click flips each class on its own. The two classes therefore
  stay equal only if the markup starts them equal (`Menu.ToggleMenu`). A
  nav-link click always makes them equal again (`Menu.CloseMenu`).
- The "prev" and "next" buttons change only the index
  (`js/script.js:270-273`). They never restart the auto-advance interval.
  The intended behaviour is that any manual navigation, buttons included,
  cancels and restarts it. `Carousel.ShowNext` and `Carousel.ShowPrev` leave
  the timer log unchanged, as the code does.
- A filled form submitted before the delivery library's script has loaded
  makes the call at `js/script.js:342` throw. The handler stops there, with no
  request and no notice (`ContactForm.FilledBeforeLibraryLoads`). The
  intended behaviour is to wait for the library, or to report a failed
  delivery.

## Model

| member | source | states |
|---|---|---|
| CarouselController.Next | js/script.js:260-263 | the next index stays below the item count and wraps from the last item to item 0 |
| CarouselController.Prev | js/script.js:265-268 | the previous index stays below the item count and wraps from item 0 to the last item |
| CarouselController.PrevUndoesNext | js/script.js:260-268 | "prev" exactly undoes "next", and "next" exactly undoes "prev" |
| CarouselController.AdvanceWraps | js/script.js:261 | `k` steps of "next" (k at most the item count) move `k` places forward, wrapping once past the end |
| CarouselController.FullRoundReturns | js/script.js:261 | as many "next" steps as there are items return to the starting item |
| CarouselController.RoundVisitsEachOnce | js/script.js:261 | within one round every item is reached, after StepsTo steps, and no two steps show the same item |
| CarouselController.DistanceMatchesSteps | js/script.js:237-245 | ring distance 0 is exactly the current item; ring distance 1 is exactly the items just before and after it |
| CarouselController.LookCases | js/script.js:235-255 | current item Active; the items just before and after it Neighbour, except item 0; item 0 offset-right far whenever it is not current; every other item Far |
| CarouselController.OneDotActive | js/script.js:293-297 | when each dot is marked exactly when its index is `k`, exactly one dot is active |
| CarouselController.Carousel.constructor | js/script.js:227-299 | start at index 0 with one interval installed and held in `autoSlide`, one dot per item, and every item and dot rendered for index 0 |
| CarouselController.Carousel.UpdateCarousel | js/script.js:230-258 | the track sits at -100% per index; every item gets the look its ring distance calls for, item 0 being pushed right when not current; exactly one dot is active |
| CarouselController.Carousel.UpdateDots | js/script.js:293-297 | each dot is active exactly when its index is the current index, so exactly one dot is active |
| CarouselController.Carousel.ShowNext | js/script.js:260-263 | the index becomes Next of the old one, everything shown follows it with an animated move, and the timers are untouched |
| CarouselController.Carousel.ShowPrev | js/script.js:265-268 | the index becomes Prev of the old one, everything shown follows it with an animated move, and the timers are untouched |
| CarouselController.Carousel.ClearAutoSlide | js/script.js:286 | one clearInterval of the held handle is logged, and that interval stops running |
| CarouselController.Carousel.InstallAutoSlide | js/script.js:287 | one setInterval is logged with a handle not already running; `autoSlide` holds it, and it runs |
| CarouselController.Carousel.DotClick | js/script.js:283-288 | the index becomes the dot's index; the held interval is cleared before a new one, never running before, is installed; the move is animated; if only the held interval ran before, exactly the new one runs after |
| CarouselController.Carousel.MouseEnter | js/script.js:302 | the held interval is cleared, so no interval runs if only that one did |
| CarouselController.Carousel.MouseLeaveAsWritten | js/script.js:303-305 | a new interval is installed and joins those already running; nothing is cleared |
| CarouselController.Carousel.MouseLeave | js/script.js:303-305 | corrected handler: the held interval is cleared before a new one, never running before, is installed; if only the held interval ran before, exactly the new one runs after |
| CarouselController.HoverDotLeaveAsWritten | js/script.js:283-305 | hover, a dot click, then leaving, with the handler as written: two intervals run |
| CarouselController.HoverDotLeave | js/script.js:283-305 | the same events with the corrected handler: one interval runs |
| ProgressBar.Step | js/script.js:196-198 | one frame raises the width by exactly one point, or to the target if that is closer, never past it |
| ProgressBar.FramesClimb | js/script.js:192-203 | every frame raises the width, by at most one point, and never past the target |
| ProgressBar.FramesReachTarget | js/script.js:192-203 | from below the target, the frames end exactly on the target |
| ProgressBar.ScheduleProperties | js/script.js:189-203 | after the reset to 0 the widths climb by at most a point per frame within the settled width; there are frames exactly when the target is positive, and the last frame is that target |
| ProgressBar.Bar.Animate | js/script.js:188-204 | writes 0 and then exactly the frame schedule of the captured target, ending at the target when it is a number of at least 0, otherwise at 0 |
| ContactForm.OnSubmit | js/script.js:328-356 | one call to the service exactly when all four fields are non-empty and the library has loaded; one notification except when a filled form meets an unloaded library, which shows none |
| ContactForm.OnDelivery | js/script.js:348-353 | on delivery a success notice and a blank form; on failure an error notice and the form left as it was |
| ContactForm.RejectsIncomplete | js/script.js:336-339 | a form with any empty field makes no call to the service and shows exactly the one error notice |
| ContactForm.SendsFilled | js/script.js:342-355 | with the library loaded, a filled form makes exactly one call, first, carrying its four fields and the fixed recipient, then shows the one "Sending message..." notice |
| ContactForm.FilledBeforeLibraryLoads | js/script.js:336-355 | a filled form submitted before the library has loaded makes no call and shows no notice |
| ContactForm.FilledSubmission | js/script.js:342-355 | with the library loaded, a filled form shows exactly the in-progress notice and then one terminal notice whose kind follows the outcome; a failure keeps the fields |
| NavigationMenu.CheckWidth | js/script.js:90-103 | above 768px the row layout with the hamburger hidden; at or below 768px the navbar hidden (other properties kept) and the hamburger shown |
| NavigationMenu.CheckWidthIdempotent | js/script.js:90-109 | a second checkWidth at the same width changes nothing more |
| NavigationMenu.CheckWidthBySide | js/script.js:90-103 | the layout depends only on which side of the breakpoint the width falls |
| NavigationMenu.Menu.constructor | js/script.js:56-106 | the markup's classes are kept and the layout is checkWidth's for the initial width |
| NavigationMenu.Menu.ToggleMenu | js/script.js:57-76 | both classes flip, so they stay equal exactly when they were equal; at 768px or less the navbar becomes the overlay when opened and is hidden when closed; above it the style is untouched |
| NavigationMenu.Menu.CloseMenu | js/script.js:79-87 | both classes are cleared (so they are equal); at 768px or less the navbar is hidden |
| NavigationMenu.Menu.Resize | js/script.js:109 | a resize applies checkWidth for the new width and leaves the classes alone |
| NavigationMenu.NarrowAndWide | js/script.js:57-109 | at 1024px the row layout with the hamburger hidden; at 500px the navbar hidden and the hamburger shown; a click opens the overlay; a link click hides it again |

## Findings

| source | as written | input that shows it | evidently intended | confidence | as-written member | corrected member |
|---|---|---|---|---|---|---|
| js/script.js:303-305 | the mouseleave handler installs a new interval without clearing the one `autoSlide` holds; a dot click while the pointer is over the carousel has already installed one | mouseenter, then a click on any dot (the dots sit inside the carousel), then mouseleave: two intervals run, so the carousel advances twice per period | at most one auto-advance interval at any time: clear the held handle before installing a new one | high; not executed | CarouselController.HoverDotLeaveAsWritten | CarouselController.HoverDotLeave |

The as-written handler is `Carousel.MouseLeaveAsWritten`. The corrected
handler is `Carousel.MouseLeave`. The corrected handler fixes the stacking
only. A dot click made during a hover still installs an interval that runs
while the pointer stays over the carousel, and the model keeps that behaviour
(`Carousel.DotClick`).

## Left out

- Smooth scrolling and its `ease` curve (`js/script.js:25-50`): floating-point numerics driven by `requestAnimationFrame` and `window.scrollTo`.
- The counter animation (`js/script.js:146-181`): its per-frame increment `target / 125` and `Math.floor` are float arithmetic. Its suffix rule (`+` for the first box, `%` for the rest) reads one constant; it is not modelled.
- The IntersectionObserver wiring and its fire-once `unobserve` (`js/script.js:114-128`, `165-180`, `206-215`): browser primitives. A bar's animation is modelled from the moment it is triggered.
- The footer show/hide styles, the scroll-snap setup, the injected `<style>` blocks, the social-icon hover styles, hash-link `scrollIntoView` and the copyright year from `Date`: DOM writes or a clock read with no logic.
- Notification DOM creation, fade-out and removal timing (`js/script.js:360-373`): timer-driven DOM plumbing. A notification is modelled as its text and kind.
- The `emailjs` call itself, its asynchrony, and loading the library with `emailjs.init` (`js/script.js:342-353`, `419-426`): a foreign library. The call is a recorded `Request`, and its outcome is the `Delivery` parameter. Whether the script has loaded is the `libraryLoaded` parameter of `OnSubmit`.
- ContactForm.OnSubmit: a library that has loaded but has not yet run `emailjs.init` is treated like a loaded one. Whether the send then fails is part of the `Delivery` outcome; whether the library throws synchronously in that state is not modelled.
- Real time: the 5000ms period and when intervals fire. An interval's callback is `showNext` (`Carousel.ShowNext`).
- The empty carousel: with no items the code divides by zero and indexes `items[0]`, so the `Carousel` constructor requires at least one item. The "prev"/"next" buttons' presence guard and the menu's presence guard are wiring only. `Menu` models a page where both menu elements exist.
- The track's CSS transition: `UpdateCarousel` records as a flag whether the move was animated. Every caller asks for an animated move.
- ProgressBar.Bar.Animate: widths are exact reals. The IEEE rounding of `currentWidth + 1`, the textual round trip through `newWidth + '%'`, and the change of unit to `%` are not modelled.
- ContactForm.OnDelivery: `form.reset()` is modelled as emptying all four fields. A markup default value for a field is not modelled.
