/** The carousel's geometry: the width of each card and the horizontal
    offset of the row of cards, recomputed from the shared state on every
    render. The screen width is a parameter; lengths are exact reals. */
module CarouselLayout {
  import opened CarouselState

  /** The constants the screen's `CarouselView` passes down. */
  const DefaultSpacing: real := 8.0
  const DefaultHiddenWidth: real := 18.0

  /** The configuration a `Carousel` computes once, at construction. */
  datatype Carousel = Carousel(
    numberOfItems: real,
    spacing: real,
    widthOfHiddenCards: real,
    totalSpacing: real,
    cardWidth: real)

  /** One card of the carousel: its index and the width it is framed to. */
  datatype Item = Item(id: int, cardWidth: real)

  /** `Carousel.init`. Neither the card width nor the total spacing is
      clamped: a screen too narrow gives a negative width, and a carousel of
      zero cards a negative total spacing. */
  function NewCarousel(n: int, spacing: real, hidden: real, screenWidth: real): (c: Carousel)
    ensures c.cardWidth + 2.0 * hidden + 2.0 * spacing == screenWidth
    ensures c.numberOfItems == n as real
    ensures c.spacing == spacing && c.widthOfHiddenCards == hidden
    ensures c.totalSpacing + spacing == n as real * spacing
  {
    Carousel(n as real, spacing, hidden, (n as real - 1.0) * spacing,
             screenWidth - hidden * 2.0 - spacing * 2.0)
  }

  /** `Item.init`: the card width is computed again, from the same inputs. */
  function NewItem(id: int, spacing: real, hidden: real, screenWidth: real): (it: Item)
    ensures it.id == id
    ensures it.cardWidth + 2.0 * hidden + 2.0 * spacing == screenWidth
  {
    Item(id, screenWidth - hidden * 2.0 - spacing * 2.0)
  }

  /** Every item is framed exactly as wide as the carousel advances per card. */
  lemma ItemWidthMatchesCarousel(id: int, n: int, spacing: real, hidden: real, screenWidth: real)
    ensures NewItem(id, spacing, hidden, screenWidth).cardWidth
         == NewCarousel(n, spacing, hidden, screenWidth).cardWidth
  {
  }

  /** The width of the row of all cards and the gaps between them. */
  function TotalCanvasWidth(c: Carousel): real
  {
    c.cardWidth * c.numberOfItems + c.totalSpacing
  }

  /** The shift that moves the left edge of the (centred) row to the left
      edge of the screen. */
  function XOffsetToShift(c: Carousel, screenWidth: real): real
  {
    (TotalCanvasWidth(c) - screenWidth) / 2.0
  }

  /** How far the row moves per card. */
  function TotalMovement(c: Carousel): real
  {
    c.cardWidth + c.spacing
  }

  /** The resting offset for the active card. */
  function ActiveOffset(c: Carousel, screenWidth: real, activeCard: int): real
  {
    XOffsetToShift(c, screenWidth) - TotalMovement(c) * activeCard as real
  }

  /** The offset the render compares against (the `+ 1` is inside the
      parentheses, so it subtracts one point rather than one card). */
  function NextOffset(c: Carousel, screenWidth: real, activeCard: int): real
  {
    XOffsetToShift(c, screenWidth) + (c.widthOfHiddenCards + c.spacing)
      - (TotalMovement(c) * activeCard as real + 1.0)
  }

  /** The offset the row of cards is rendered at: the resting offset, plus
      the live drag unless the hidden width and the spacing add up to one point. */
  function RenderedOffset(c: Carousel, screenWidth: real, s: UIState): (x: real)
    ensures x == ActiveOffset(c, screenWidth, s.activeCard)
                 + (if c.widthOfHiddenCards + c.spacing != 1.0 then s.screenDrag else 0.0)
  {
    var active := ActiveOffset(c, screenWidth, s.activeCard);
    if active != NextOffset(c, screenWidth, s.activeCard) then active + s.screenDrag
    else active
  }

  /** Left inset of the carousel's container on the screen. */
  const LeadingPadding: real := 16.0

  /** Left edge, on screen, of card `i` when the row is centred in a
      container that starts at `containerX` and is `containerWidth` wide, and
      is then shifted by `offset`. */
  function CardLeftEdge(c: Carousel, containerX: real, containerWidth: real, offset: real, i: int): real
  {
    containerX + (containerWidth - TotalCanvasWidth(c)) / 2.0 + offset + TotalMovement(c) * i as real
  }

  /** The resting offset in closed form, in terms of the constructor's inputs. */
  lemma ActiveOffsetClosedForm(n: int, spacing: real, hidden: real, screenWidth: real, k: int)
    ensures var w := screenWidth - 2.0 * hidden - 2.0 * spacing;
            ActiveOffset(NewCarousel(n, spacing, hidden, screenWidth), screenWidth, k)
              == (w * n as real + (n as real - 1.0) * spacing - screenWidth) / 2.0
                 - (w + spacing) * k as real
  {
  }

  /** Moving to the next card shifts the resting offset by one card and one gap. */
  lemma OffsetPerCard(c: Carousel, screenWidth: real, k: int)
    ensures ActiveOffset(c, screenWidth, k + 1)
         == ActiveOffset(c, screenWidth, k) - (c.cardWidth + c.spacing)
  {
  }

  /** The render adds the live drag exactly when the hidden width and the
      spacing do not add up to one point (or there is no drag to add). */
  lemma RenderedOffsetFollowsDrag(c: Carousel, screenWidth: real, s: UIState)
    ensures RenderedOffset(c, screenWidth, s)
              == ActiveOffset(c, screenWidth, s.activeCard) + s.screenDrag
            <==> (c.widthOfHiddenCards + c.spacing != 1.0 || s.screenDrag == 0.0)
  {
  }

  /** With the screen's constants the drag is always followed. */
  lemma DefaultsFollowDrag(n: int, screenWidth: real, s: UIState)
    ensures var c := NewCarousel(n, DefaultSpacing, DefaultHiddenWidth, screenWidth);
            RenderedOffset(c, screenWidth, s)
              == ActiveOffset(c, screenWidth, s.activeCard) + s.screenDrag
  {
  }

  /** The carousel's container is inset by `inset` on the left, while the
      offset is computed from the full screen width. So at rest the active
      card's left edge sits at half the inset, every other card a whole number
      of card-plus-gap widths away, and a live drag moves every card by the
      drag. */
  lemma CardPositions(c: Carousel, screenWidth: real, inset: real, s: UIState, i: int)
    requires c.widthOfHiddenCards + c.spacing != 1.0
    ensures CardLeftEdge(c, inset, screenWidth - inset, RenderedOffset(c, screenWidth, s), i)
         == inset / 2.0 + (i - s.activeCard) as real * (c.cardWidth + c.spacing) + s.screenDrag
  {
  }

  /** On the screen (16-point leading padding, default constants) the
      resting active card starts 8 points from the screen's left edge. */
  lemma ActiveCardAtRest(n: int, screenWidth: real, s: UIState)
    requires s.screenDrag == 0.0
    ensures var c := NewCarousel(n, DefaultSpacing, DefaultHiddenWidth, screenWidth);
            CardLeftEdge(c, LeadingPadding, screenWidth - LeadingPadding,
                         RenderedOffset(c, screenWidth, s), s.activeCard) == 8.0
  {
  }

  /** The layout after a drag end is the resting layout of the new card. */
  lemma RestAfterDragEnd(c: Carousel, screenWidth: real, s: UIState, n: int, translation: real)
    ensures var r := DragEnd(s, n, translation).state;
            RenderedOffset(c, screenWidth, r) == ActiveOffset(c, screenWidth, r.activeCard)
  {
  }

  /** Five cards on a 375-point screen with the default constants: cards are
      323 points wide and the first card rests at offset 636. */
  lemma FiveCardExample()
    ensures var c := NewCarousel(5, DefaultSpacing, DefaultHiddenWidth, 375.0);
            c.cardWidth == 323.0 && ActiveOffset(c, 375.0, 0) == 636.0
              && ActiveOffset(c, 375.0, 4) == 636.0 - 4.0 * 331.0
  {
  }
}
