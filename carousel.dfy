/** The carousel controller of the portfolio page: a cycling index over a fixed
    set of items, the visual treatment of every item, one paging dot per item,
    and the single recurring auto-advance timer. */
module CarouselController {

  /** The visual class an item is given by updateCarousel (the inline
      transform/opacity pairs of the page, as an enumeration). */
  datatype Look =
    | Active          // scale(1), opacity 1
    | Neighbour       // scale(0.9) translateZ(-100px), opacity 0.7
    | Far             // scale(0.8) translateZ(-200px), opacity 0.5
    | OffsetRightFar  // translateX(100%) scale(0.8) translateZ(-200px), opacity 0.5

  /** One call the controller makes into the browser's interval timers. */
  datatype TimerCall = SetInterval(handle: nat) | ClearInterval(handle: nat)

  /** The intervals still running after the calls of `log`, in order. */
  function Live(log: seq<TimerCall>): set<nat>
  {
    if log == [] then {}
    else
      var last := log[|log| - 1];
      if last.SetInterval? then Live(log[..|log| - 1]) + {last.handle}
      else Live(log[..|log| - 1]) - {last.handle}
  }

  lemma LiveAppend(log: seq<TimerCall>, c: TimerCall)
    ensures Live(log + [c]) == if c.SetInterval? then Live(log) + {c.handle} else Live(log) - {c.handle}
  {
  }

  /** The index shown after a click on "next" (or a timer tick). */
  function Next(i: nat, n: nat): (r: nat)
    requires i < n
    ensures r < n
    ensures r == if i + 1 < n then i + 1 else 0
  {
    (i + 1) % n
  }

  /** The index shown after a click on "prev". */
  function Prev(i: nat, n: nat): (r: nat)
    requires i < n
    ensures r < n
    ensures r == if 0 < i then i - 1 else n - 1
  {
    (i - 1 + n) % n
  }

  /** "prev" undoes "next" and "next" undoes "prev". */
  lemma PrevUndoesNext(i: nat, n: nat)
    requires i < n
    ensures Prev(Next(i, n), n) == i
    ensures Next(Prev(i, n), n) == i
  {
  }

  /** The index after `k` consecutive steps of "next" from `i`. */
  function Advance(i: nat, k: nat, n: nat): (r: nat)
    requires i < n
    ensures r < n
  {
    if k == 0 then i else Next(Advance(i, k - 1, n), n)
  }

  /** Within one round, `k` steps of "next" move `k` places forward, wrapping once. */
  lemma {:induction false} AdvanceWraps(i: nat, k: nat, n: nat)
    requires i < n && k <= n
    ensures Advance(i, k, n) == if i + k < n then i + k else i + k - n
  {
    if k > 0 {
      AdvanceWraps(i, k - 1, n);
    }
  }

  /** `n` steps of "next" return to the starting item. */
  lemma FullRoundReturns(i: nat, n: nat)
    requires i < n
    ensures Advance(i, n, n) == i
  {
    AdvanceWraps(i, n, n);
  }

  /** How many steps of "next" lead from item `i` to item `j`. */
  function StepsTo(i: nat, j: nat, n: nat): (k: nat)
    requires i < n && j < n
    ensures k < n
  {
    if i <= j then j - i else j + n - i
  }

  /** During one round of `n` steps every item is shown exactly once: each
      item `j` is reached after StepsTo(i, j, n) steps, and no two steps of
      the round show the same item. */
  lemma RoundVisitsEachOnce(i: nat, n: nat)
    requires i < n
    ensures forall j :: 0 <= j < n ==> Advance(i, StepsTo(i, j, n), n) == j
    ensures forall k1, k2 :: 0 <= k1 < k2 < n ==> Advance(i, k1, n) != Advance(i, k2, n)
  {
    forall j | 0 <= j < n
      ensures Advance(i, StepsTo(i, j, n), n) == j
    {
      AdvanceWraps(i, StepsTo(i, j, n), n);
    }
    forall k1, k2 | 0 <= k1 < k2 < n
      ensures Advance(i, k1, n) != Advance(i, k2, n)
    {
      AdvanceWraps(i, k1, n);
      AdvanceWraps(i, k2, n);
    }
  }

  /** How many places item `i` is from item `j` around the ring of `n` items. */
  function Distance(i: nat, j: nat, n: nat): (d: nat)
    requires i < n && j < n
    ensures d <= n / 2
  {
    var gap := if i >= j then i - j else j - i;
    if gap <= n - gap then gap else n - gap
  }

  /** The look each item should have: by ring distance from the current item,
      except that the first item is pushed off to the right whenever it is
      not the current one. */
  function ItemLook(i: nat, current: nat, n: nat): Look
    requires i < n && current < n
  {
    if i == 0 && current != 0 then OffsetRightFar
    else if Distance(i, current, n) == 0 then Active
    else if Distance(i, current, n) == 1 then Neighbour
    else Far
  }

  /** Ring distance 0 is the item itself; ring distance 1 is exactly the
      predecessor and the successor that "prev" and "next" would show. */
  lemma DistanceMatchesSteps(i: nat, current: nat, n: nat)
    requires i < n && current < n
    ensures Distance(i, current, n) == 0 <==> i == current
    ensures Distance(i, current, n) == 1 <==> i != current && (i == Prev(current, n) || i == Next(current, n))
  {
  }

  /** The treatment every item receives, stated with the neighbours that
      "prev" and "next" would show. */
  lemma LookCases(i: nat, current: nat, n: nat)
    requires i < n && current < n
    ensures ItemLook(i, current, n) == Active <==> i == current
    ensures ItemLook(i, current, n) == Neighbour <==>
              i != current && i != 0 && (i == Prev(current, n) || i == Next(current, n))
    ensures ItemLook(i, current, n) == OffsetRightFar <==> i == 0 && current != 0
    ensures ItemLook(i, current, n) == Far <==>
              i != current && i != 0 && i != Prev(current, n) && i != Next(current, n)
  {
  }

  /** Number of dots carrying the active marker. */
  function ActiveDots(dots: seq<bool>): nat
  {
    if dots == [] then 0 else ActiveDots(dots[..|dots| - 1]) + (if dots[|dots| - 1] then 1 else 0)
  }

  /** When the dots mark exactly the position `k`, exactly one dot is active. */
  lemma {:induction false} OneDotActive(dots: seq<bool>, k: nat)
    requires k < |dots|
    requires forall i :: 0 <= i < |dots| ==> dots[i] == (i == k)
    ensures ActiveDots(dots) == 1
  {
    var prefix := dots[..|dots| - 1];
    if k < |dots| - 1 {
      OneDotActive(prefix, k);
    } else {
      NoDotActive(prefix);
    }
  }

  lemma {:induction false} NoDotActive(dots: seq<bool>)
    requires forall i :: 0 <= i < |dots| ==> !dots[i]
    ensures ActiveDots(dots) == 0
  {
    if dots != [] {
      NoDotActive(dots[..|dots| - 1]);
    }
  }

  class Carousel {
    /** Number of carousel items (fixed by the markup). */
    const totalItems: nat
    /** The look of each item element. */
    const items: array<Look>
    /** The active marker of each paging dot; one dot per item. */
    const dots: array<bool>

    var currentIndex: nat
    /** The inner track's translateX, in percent of an item's width. */
    var trackOffset: int
    /** Whether the track's last move was animated. */
    var trackSmooth: bool
    /** The handle held in `autoSlide`. */
    var autoSlide: nat
    /** Every call made to the browser's interval timers, oldest first. */
    var timerLog: seq<TimerCall>
    /** The handle the browser hands out on the next setInterval. */
    var nextHandle: nat

    /** The shape of the state: index in range, one item look and one dot per item. */
    predicate Shaped()
      reads this
    {
      0 < totalItems && currentIndex < totalItems &&
      items.Length == totalItems && dots.Length == totalItems
    }

    /** What the page shows agrees with `currentIndex`. */
    ghost predicate Rendered()
      reads this, items, dots
      requires Shaped()
    {
      trackOffset == -100 * currentIndex &&
      (forall i :: 0 <= i < totalItems ==> items[i] == ItemLook(i, currentIndex, totalItems)) &&
      (forall i :: 0 <= i < totalItems ==> dots[i] == (i == currentIndex))
    }

    /** Handles already handed out are below `nextHandle`. */
    ghost predicate HandlesIssued()
      reads this
    {
      autoSlide < nextHandle && forall h :: h in Live(timerLog) ==> h < nextHandle
    }

    ghost predicate Valid()
      reads this, items, dots
    {
      Shaped() && Rendered() && HandlesIssued()
    }

    /** The intended invariant: no interval runs except the one in `autoSlide`. */
    ghost predicate SingleTimer()
      reads this
    {
      Live(timerLog) <= {autoSlide}
    }

    /** Start-up: index 0, the first interval installed, one dot per item,
        and a first call of updateCarousel. */
    constructor (n: nat)
      requires 0 < n
      ensures Valid() && SingleTimer()
      ensures totalItems == n && currentIndex == 0
      ensures timerLog == [SetInterval(autoSlide)] && Live(timerLog) == {autoSlide}
      ensures trackSmooth
      ensures fresh(items) && fresh(dots)
    {
      totalItems := n;
      items := new Look[n];
      dots := new bool[n];
      currentIndex := 0;
      trackOffset := 0;
      trackSmooth := false;
      autoSlide := 0;
      timerLog := [SetInterval(0)];
      nextHandle := 1;
      new;
      LiveAppend([], SetInterval(0));
      UpdateCarousel(true);
    }

    /** updateCarousel: moves the track and gives every item and dot the
        treatment that `currentIndex` calls for. */
    method UpdateCarousel(smooth: bool)
      requires Shaped()
      modifies this`trackOffset, this`trackSmooth, items, dots
      ensures Shaped() && Rendered()
      ensures trackSmooth == smooth
      ensures ActiveDots(dots[..]) == 1
    {
      trackOffset := -100 * currentIndex;
      trackSmooth := smooth;
      var n := totalItems;
      var before, after := Prev(currentIndex, n), Next(currentIndex, n);
      for i := 0 to n
        modifies items
        invariant forall k :: 0 <= k < i && (k != 0 || currentIndex == 0) ==>
                    items[k] == ItemLook(k, currentIndex, n)
      {
        DistanceMatchesSteps(i, currentIndex, n);
        if i == currentIndex {
          items[i] := Active;
        } else if i == before {
          items[i] := Neighbour;
        } else if i == after {
          items[i] := Neighbour;
        } else {
          items[i] := Far;
        }
      }
      if currentIndex != 0 {
        items[0] := OffsetRightFar;
      }
      UpdateDots();
    }

    /** updateDots: marks the dot of the current item, and only it. */
    method UpdateDots()
      requires Shaped()
      modifies dots
      ensures forall i :: 0 <= i < dots.Length ==> dots[i] == (i == currentIndex)
      ensures ActiveDots(dots[..]) == 1
    {
      for i := 0 to dots.Length
        modifies dots
        invariant forall k :: 0 <= k < i ==> dots[k] == (k == currentIndex)
      {
        dots[i] := i == currentIndex;
      }
      OneDotActive(dots[..], currentIndex);
    }

    /** showNext (the "next" button and every timer tick); the timers are untouched. */
    method ShowNext()
      requires Valid()
      modifies this, items, dots
      ensures Valid()
      ensures currentIndex == Next(old(currentIndex), totalItems) && trackSmooth
      ensures autoSlide == old(autoSlide) && timerLog == old(timerLog) && nextHandle == old(nextHandle)
    {
      currentIndex := (currentIndex + 1) % totalItems;
      UpdateCarousel(true);
    }

    /** showPrev (the "prev" button); the timers are untouched. */
    method ShowPrev()
      requires Valid()
      modifies this, items, dots
      ensures Valid()
      ensures currentIndex == Prev(old(currentIndex), totalItems) && trackSmooth
      ensures autoSlide == old(autoSlide) && timerLog == old(timerLog) && nextHandle == old(nextHandle)
    {
      currentIndex := (currentIndex - 1 + totalItems) % totalItems;
      UpdateCarousel(true);
    }

    /** clearInterval(autoSlide) */
    method ClearAutoSlide()
      requires HandlesIssued()
      modifies this`timerLog
      ensures HandlesIssued()
      ensures timerLog == old(timerLog) + [ClearInterval(autoSlide)]
      ensures Live(timerLog) == Live(old(timerLog)) - {autoSlide}
    {
      LiveAppend(timerLog, ClearInterval(autoSlide));
      timerLog := timerLog + [ClearInterval(autoSlide)];
    }

    /** autoSlide = setInterval(showNext, 5000), with a handle the browser has
        not handed out before. */
    method InstallAutoSlide()
      requires HandlesIssued()
      modifies this`timerLog, this`autoSlide, this`nextHandle
      ensures HandlesIssued()
      ensures autoSlide == old(nextHandle) && nextHandle == old(nextHandle) + 1
      ensures autoSlide !in Live(old(timerLog))
      ensures timerLog == old(timerLog) + [SetInterval(autoSlide)]
      ensures Live(timerLog) == Live(old(timerLog)) + {autoSlide}
    {
      LiveAppend(timerLog, SetInterval(nextHandle));
      autoSlide := nextHandle;
      nextHandle := nextHandle + 1;
      timerLog := timerLog + [SetInterval(autoSlide)];
    }

    /** A click on the dot of item `index`: jump there, then clear the
        running interval before installing a new one. */
    method DotClick(index: nat)
      requires Valid() && index < totalItems
      modifies this, items, dots
      ensures Valid()
      ensures currentIndex == index && trackSmooth
      ensures autoSlide == old(nextHandle) && autoSlide !in Live(old(timerLog))
      ensures timerLog == old(timerLog) + [ClearInterval(old(autoSlide)), SetInterval(autoSlide)]
      ensures Live(timerLog) == Live(old(timerLog)) - {old(autoSlide)} + {autoSlide}
      ensures old(SingleTimer()) ==> Live(timerLog) == {autoSlide}
    {
      currentIndex := index;
      UpdateCarousel(true);
      ClearAutoSlide();
      InstallAutoSlide();
    }

    /** The pointer enters the carousel: the auto-advance pauses. */
    method MouseEnter()
      requires Valid()
      modifies this`timerLog
      ensures Valid()
      ensures timerLog == old(timerLog) + [ClearInterval(autoSlide)]
      ensures Live(timerLog) == Live(old(timerLog)) - {autoSlide}
      ensures old(SingleTimer()) ==> Live(timerLog) == {}
    {
      ClearAutoSlide();
    }

    /** The pointer leaves the carousel, as the page does it: a new interval
        is installed without clearing the one `autoSlide` holds. */
    method MouseLeaveAsWritten()
      requires Valid()
      modifies this`timerLog, this`autoSlide, this`nextHandle
      ensures Valid()
      ensures autoSlide !in Live(old(timerLog))
      ensures timerLog == old(timerLog) + [SetInterval(autoSlide)]
      ensures Live(timerLog) == Live(old(timerLog)) + {autoSlide}
    {
      InstallAutoSlide();
    }

    /** The pointer leaves the carousel, corrected: the held interval is
        cleared first, so at most one interval runs afterwards. */
    method MouseLeave()
      requires Valid()
      modifies this`timerLog, this`autoSlide, this`nextHandle
      ensures Valid()
      ensures autoSlide == old(nextHandle) && autoSlide !in Live(old(timerLog))
      ensures timerLog == old(timerLog) + [ClearInterval(old(autoSlide)), SetInterval(autoSlide)]
      ensures Live(timerLog) == Live(old(timerLog)) - {old(autoSlide)} + {autoSlide}
      ensures old(SingleTimer()) ==> Live(timerLog) == {autoSlide}
    {
      ClearAutoSlide();
      InstallAutoSlide();
    }
  }

  /** Hover, click a dot (dots sit inside the carousel, so the pointer is
      over it), leave: with the page's handler, two intervals then run. */
  method HoverDotLeaveAsWritten(n: nat, index: nat) returns (running: nat)
    requires index < n
    ensures running == 2
  {
    var c := new Carousel(n);
    c.MouseEnter();
    c.DotClick(index);
    var clicked := c.autoSlide;
    c.MouseLeaveAsWritten();
    assert Live(c.timerLog) == {clicked, c.autoSlide} && clicked != c.autoSlide;
    running := |Live(c.timerLog)|;
  }

  /** The same sequence with the corrected handler leaves one interval running. */
  method HoverDotLeave(n: nat, index: nat) returns (running: nat)
    requires index < n
    ensures running == 1
  {
    var c := new Carousel(n);
    c.MouseEnter();
    c.DotClick(index);
    c.MouseLeave();
    running := |Live(c.timerLog)|;
  }
}
