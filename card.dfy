/**
  The information card a POI opens: its lifecycle (appearing, idle,
  disappearing, then finished), its position on the screen, and the scrolling
  of its description inside a fixed viewport. Scale and opacity easing are
  presentation and are not modelled.
*/
module Card {
  import opened Arith
  import TextWrap

  datatype CardState = Appearing | Idle | Disappearing

  /** final_rect is 500 x 550; the text viewport is Rect(30, 300, 500 - 60, 180). */
  const CardWidth: int := 500
  const CardHeight: int := 550
  const ViewportWidth: int := CardWidth - 60
  const ViewportHeight: int := 180
  /** The card's button: 150 x 50, centred horizontally, its bottom 20 pixels above the card's. */
  const ButtonWidth: int := 150
  const ButtonHeight: int := 50
  const ButtonLeft: int := CardWidth / 2 - ButtonWidth / 2
  const ButtonTop: int := CardHeight - 20 - ButtonHeight
  /** size_anim_duration, in milliseconds. */
  const SizeAnimDuration: int := 200
  /** Pixels scrolled per wheel notch. */
  const ScrollStep: int := 20

  /** The order of the lifecycle; a card never goes back. */
  function Stage(s: CardState): nat {
    match s
    case Appearing => 0
    case Idle => 1
    case Disappearing => 2
  }

  /** max(0, total_height - viewport height): how far the description can scroll. */
  function MaxScroll(totalHeight: int): (m: int)
    ensures m >= 0
    ensures totalHeight <= ViewportHeight ==> m == 0
    ensures totalHeight > ViewportHeight ==> m + ViewportHeight == totalHeight
  {
    Max(0, totalHeight - ViewportHeight)
  }

  /** One wheel event over the card: move by 20 pixels per notch against the wheel, then hold to [0, maxScroll]. */
  function ScrollBy(scroll: int, wheel: int, maxScroll: int): (r: int)
    requires maxScroll >= 0
    ensures 0 <= r <= maxScroll
    ensures 0 <= scroll - wheel * ScrollStep <= maxScroll ==> r == scroll - wheel * ScrollStep
    ensures scroll - wheel * ScrollStep < 0 ==> r == 0
    ensures scroll - wheel * ScrollStep > maxScroll ==> r == maxScroll
  {
    Max(0, Min(scroll - wheel * ScrollStep, maxScroll))
  }

  /**
    A card scenario: 820 pixels of text in a 180 pixel
    viewport scroll 640 pixels at most, and three notches toward the user
    (wheel -3) move the text 60 pixels.
  */
  lemma ScrollScenario()
    ensures MaxScroll(820) == 640
    ensures ScrollBy(0, -3, 640) == 60
    ensures ScrollBy(600, -3, 640) == 640
    ensures ScrollBy(30, 3, 640) == 0
  {
  }

  /** The appearing animation is complete once min(elapsed / 200, 1.0) reaches 1.0, that is after 200 ms. */
  lemma {:induction false} SizeProgressComplete(elapsed: int)
    ensures (if elapsed as real / SizeAnimDuration as real < 1.0 then elapsed as real / SizeAnimDuration as real else 1.0) >= 1.0
            <==> elapsed >= SizeAnimDuration
  {
    var d := SizeAnimDuration as real;
    assert elapsed as real / d * d == elapsed as real;
  }

  class InfoCard {
    /** The POI the card shows, by index. */
    const poi: nat
    var state: CardState
    var animStart: int
    var scrollY: int
    /** The wrapped description (what full_text_surface is rendered from). */
    const lines: seq<string>
    const lineHeight: int
    const maxScroll: int
    /** final_rect's top-left corner on the screen. */
    var left: int
    var top: int

    ghost predicate Valid()
      reads this
    {
      maxScroll >= 0 && 0 <= scrollY <= maxScroll
    }

    /**
      InfoCard.__init__: appearing since now, not scrolled, the description
      wrapped to the viewport width, centred on the screen.
    */
    constructor (poi: nat, description: string, width: string -> int, lineHeight: int,
                 now: int, screenW: int, screenH: int)
      ensures Valid() && this.poi == poi
      ensures state == Appearing && animStart == now && scrollY == 0
      ensures |lines| >= 1 && this.lineHeight == lineHeight
      ensures maxScroll == MaxScroll(|lines| * lineHeight)
      ensures TextWrap.AllClean(TextWrap.Split(description)) ==>
        TextWrap.Join(TextWrap.NonEmpty(lines)) == description
      ensures left == screenW / 2 - CardWidth / 2 && top == screenH / 2 - CardHeight / 2
    {
      var wrapped := TextWrap.WrapText(description, width, ViewportWidth);
      this.poi, this.lines, this.lineHeight := poi, wrapped, lineHeight;
      state, animStart, scrollY := Appearing, now, 0;
      if |wrapped| == 0 {
        maxScroll := 0;
      } else {
        maxScroll := MaxScroll(|wrapped| * lineHeight);
      }
      left, top := screenW / 2 - CardWidth / 2, screenH / 2 - CardHeight / 2;
    }

    /** update_position: final_rect centred on the screen (the button follows it). */
    method UpdatePosition(screenW: int, screenH: int)
      modifies this`left, this`top
      ensures left == screenW / 2 - CardWidth / 2 && top == screenH / 2 - CardHeight / 2
    {
      left, top := screenW / 2 - CardWidth / 2, screenH / 2 - CardHeight / 2;
    }

    /** final_rect.collidepoint: the top-left corner is on the card, the right and bottom edges are not. */
    predicate Contains(px: int, py: int): (r: bool)
      reads this
      ensures px == left && py == top ==> r
      ensures px == left + CardWidth || py == top + CardHeight ==> !r
    {
      left <= px < left + CardWidth && top <= py < top + CardHeight
    }

    /** button_screen_rect.collidepoint: the button lies on the card, so a click on it is a click on the card. */
    predicate ButtonContains(px: int, py: int): (r: bool)
      reads this
      ensures r ==> Contains(px, py)
      ensures px == left + ButtonLeft && py == top + ButtonTop ==> r
    {
      left + ButtonLeft <= px < left + ButtonLeft + ButtonWidth &&
      top + ButtonTop <= py < top + ButtonTop + ButtonHeight
    }

    /** The state change inside InfoCard.draw: appearing becomes idle when the size animation is complete. */
    method AdvanceAppearing(now: int)
      modifies this`state
      ensures state == (if old(state) == Appearing && now - animStart >= SizeAnimDuration then Idle else old(state))
      ensures Stage(old(state)) <= Stage(state) <= Stage(old(state)) + 1
    {
      if state == Appearing {
        var elapsed := now - animStart;
        var sizeProgress := if elapsed as real / SizeAnimDuration as real < 1.0
                            then elapsed as real / SizeAnimDuration as real else 1.0;
        SizeProgressComplete(elapsed);
        if sizeProgress >= 1.0 {
          state := Idle;
        }
      }
    }

    /** start_disappearing: only an idle card starts to disappear, and its clock restarts. */
    method StartDisappearing(now: int)
      modifies this`state, this`animStart
      ensures old(state) == Idle ==> state == Disappearing && animStart == now
      ensures old(state) != Idle ==> state == old(state) && animStart == old(animStart)
      ensures Stage(old(state)) <= Stage(state) <= Stage(old(state)) + 1
    {
      if state == Idle {
        state := Disappearing;
        animStart := now;
      }
    }

    /**
      is_finished: the disappearing animation has run for more than its
      duration; an appearing or idle card is never finished.
    */
    predicate IsFinished(now: int): (r: bool)
      reads this
      ensures r ==> state == Disappearing && now >= animStart + SizeAnimDuration + 1
      ensures state != Disappearing ==> !r
    {
      state == Disappearing && now - animStart > SizeAnimDuration
    }

    /** handle_scroll: only with the pointer over the card; the offset stays within [0, maxScroll]. */
    method HandleScroll(wheel: int, mouseX: int, mouseY: int)
      requires Valid()
      modifies this`scrollY
      ensures Valid()
      ensures scrollY == if Contains(mouseX, mouseY) then ScrollBy(old(scrollY), wheel, maxScroll) else old(scrollY)
    {
      if Contains(mouseX, mouseY) {
        scrollY := scrollY - wheel * ScrollStep;
        scrollY := Max(0, Min(scrollY, maxScroll));
      }
    }
  }

  /** A card that is finished at some time stays finished at every later time, while its state is unchanged. */
  lemma StaysFinished(c: InfoCard, now: int, later: int)
    requires c.IsFinished(now) && now <= later
    ensures c.IsFinished(later)
  {
  }
}
