# Carousel screen model

A Dafny model of the behaviour behind a small iOS screen. The screen shows a
swipeable image carousel, a page indicator, a search bar and a filtered list.
Five modules follow the source's structure:

- `CarouselState` (`carousel_state.dfy`) models the shared `UIStateModel`
  (`activeCard`, `screenDrag`) and the carousel's drag gesture. A drag update
  replaces the drag offset. A drag end resets the drag offset and may move the
  card by one, using two sequential `if`s with the strict thresholds -50 and 50.
  A cancelled drag does not reach the end handler and changes nothing. The
  haptic impact is counted, not performed. `Run` folds any sequence of
  gesture events.
- `CarouselLayout` (`carousel_layout.dfy`) models `Carousel.init`,
  `Item.init` and the offset the row of cards is rendered at. The screen width
  is a parameter. All lengths are exact reals.
- `PageIndicator` (`page_indicator.dfy`) models `ForEach(0..<count)` over
  `trackedView(currentIndex:)`, which gives one marker per card.
- `Search` (`search.dfy`) models `ListModel`, the substring test and
  `searchResults`.
- `MainScreen` (`main_screen.dfy`) models the screen state, `populate()`, the
  scroll threshold, the opacities of the two search bars, the clear button and
  the `imagesCount > 0` guard. It also proves that the indicator always
  highlights exactly one marker.

Notes on the code:

- A negative card width is not clamped to 0.
- The total spacing is `(n - 1) * spacing` for every `n`, including one card
  or none.
- The drag end is written as two independent `if`s, not as an `else if`.
  `DragEndIsDecision` proves that the two readings agree.
- A drag that is cancelled rather than ended (for example when the enclosing
  scroll view takes over) never runs the end handler. `screenDrag` then keeps
  the last translation, so the row stays displaced until the next drag.
- The carousel's container is inset 16 points on the left, while the offset
  is computed from the full screen width. At rest the active card therefore
  starts 8 points from the screen's left edge.

The render compares `activeOffset` with `nextOffset` before it adds the live
drag. The `+ 1` in `nextOffset` sits inside the parentheses, so with exact
arithmetic the drag is added exactly when `widthOfHiddenCards + spacing != 1`.
The screen's constants 18 and 8 always meet that condition.

## Model

| member | source | states |
|---|---|---|
| CarouselState.DragUpdate | iOS-Test/Views/Common/CarouselView.swift:119-128 | a drag update sets `screenDrag` to the current translation, so it replaces rather than accumulates, and leaves `activeCard` unchanged |
| CarouselState.DragEnd | iOS-Test/Views/Common/CarouselView.swift:129-146 | after a drag end `screenDrag` is 0. A translation below -50 with a later card moves forward by one and fires one haptic. A translation above 50 with an earlier card moves back by one and fires one haptic. A translation in [-50, 50], or a swipe in the blocked direction at the first or last card, changes nothing and fires no haptic. A haptic fires exactly when the index changes. The bounds `[0, n)` are preserved |
| CarouselState.DragEndIsDecision | iOS-Test/Views/Common/CarouselView.swift:133-145 | the two sequential `if`s never both fire, so the drag end equals a single three-way decision that moves the card by at most one |
| CarouselState.Step | iOS-Test/Views/Common/CarouselView.swift:117-146 | after an update `screenDrag` is the translation, after an end it is 0, and a cancellation changes nothing. At most one haptic fires, and only on an end. The card moves by at most the number of haptics, and the bounds `[0, n)` are preserved |
| CarouselState.Run | iOS-Test/Views/Common/CarouselView.swift:119-146 | over any sequence of events the bounds `[0, n)` are preserved. There are at most as many haptics as drag ends. The index moves by at most the number of haptics |
| CarouselState.RunAppend | iOS-Test/Views/Common/CarouselView.swift:119-146 | processing two event sequences one after the other equals processing their concatenation, and the haptic counts add up |
| CarouselState.BoundsInvariant | iOS-Test/Views/Common/CarouselView.swift:61-62 | for `n >= 1`, starting from `activeCard = 0`, `0 <= activeCard < n` holds after every sequence of drag updates and drag ends |
| CarouselState.RunLastDrag | iOS-Test/Views/Common/CarouselView.swift:119-131 | after a sequence of events, `screenDrag` is 0 if the last event was an end and that event's translation if it was an update. If it was a cancellation, the state is the one before it |
| CarouselState.UpdatesKeepCard | iOS-Test/Views/Common/CarouselView.swift:119-128 | any number of drag updates and cancellations leaves the card unchanged and fires no haptic |
| CarouselLayout.NewCarousel | iOS-Test/Views/Common/CarouselView.swift:82-94 | the given count, spacing and hidden width are stored. A card plus two hidden slivers and two gaps fill the screen width exactly. `n` cards have `n - 1` gaps of the given spacing, with no clamping |
| CarouselLayout.NewItem | iOS-Test/Views/Common/CarouselView.swift:187-196 | an item keeps its index. Its width plus two hidden slivers and two gaps fill the screen width exactly |
| CarouselLayout.ItemWidthMatchesCarousel | iOS-Test/Views/Common/CarouselView.swift:187-196 | every item is framed to the same card width the carousel computes |
| CarouselLayout.ActiveOffsetClosedForm | iOS-Test/Views/Common/CarouselView.swift:92-104 | the resting offset is `(w*n + (n-1)*spacing - W)/2 - (w+spacing)*activeCard`, where `w = W - 2*hidden - 2*spacing` |
| CarouselLayout.OffsetPerCard | iOS-Test/Views/Common/CarouselView.swift:102-104 | moving to the next card shifts the resting offset by exactly `-(cardWidth + spacing)` |
| CarouselLayout.RenderedOffset | iOS-Test/Views/Common/CarouselView.swift:99-111 | the row is drawn at the resting offset of the active card, plus the live drag unless `hidden + spacing == 1` |
| CarouselLayout.RenderedOffsetFollowsDrag | iOS-Test/Views/Common/CarouselView.swift:104-111 | the rendered offset is the resting offset plus the drag exactly when `hidden + spacing != 1` or the drag is 0 |
| CarouselLayout.DefaultsFollowDrag | iOS-Test/Views/Common/CarouselView.swift:12-13 | with the screen's constants (spacing 8, hidden width 18) the rendered offset always includes the drag |
| CarouselLayout.CardPositions | iOS-Test/Views/Common/CarouselView.swift:53-116 | when the row is centred in a container inset by `inset` on the left, card `i`'s left edge is `inset/2 + (i - activeCard)*(cardWidth + spacing)` plus the drag |
| CarouselLayout.ActiveCardAtRest | iOS-Test/Views/Common/CarouselView.swift:12-116 | with the screen's 16-point leading padding and default constants, the resting active card starts 8 points from the screen's left edge |
| CarouselLayout.RestAfterDragEnd | iOS-Test/Views/Common/CarouselView.swift:107-131 | after a drag end the row is drawn at the resting offset of the new card |
| CarouselLayout.FiveCardExample | iOS-Test/Views/Common/CarouselView.swift:92-104 | five cards on a 375-point screen are 323 wide, the first rests at offset 636 and the last at 636 - 4*331 |
| PageIndicator.TrackedView | iOS-Test/Views/Common/PageIndicatorView.swift:27-52 | the marker for index `i` is the highlighted variant iff `i == activeCard`, and plain otherwise |
| PageIndicator.Markers | iOS-Test/Views/Common/PageIndicatorView.swift:19-21 | exactly `count` markers are produced, for indices `0..count-1` in order. Each is highlighted iff its index is the active card |
| PageIndicator.HighlightedCountIsMembership | iOS-Test/Views/Common/PageIndicatorView.swift:19-29 | the number of highlighted markers is 1 when `0 <= activeCard < count` and 0 otherwise |
| PageIndicator.ExactlyOneHighlighted | iOS-Test/Views/Common/PageIndicatorView.swift:19-29 | with the active card in range, exactly one marker is highlighted |
| PageIndicator.NoneHighlighted | iOS-Test/Views/Common/PageIndicatorView.swift:19-29 | with `activeCard >= count`, a negative active card or `count == 0`, no marker is highlighted |
| Search.Contains | iOS-Test/Views/Main/MainView.swift:161 | the left-to-right substring scan answers true exactly when the query occurs as a contiguous run in the title |
| Search.OccursStep | iOS-Test/Views/Main/MainView.swift:161 | when the query is not a prefix of the title, it occurs in the title iff it occurs in the title's tail |
| Search.FilterByTitle | iOS-Test/Views/Main/MainView.swift:161 | the filter is no longer than its input. It is sound: every returned item is an input item whose title contains the query. It is complete: every such input item is returned |
| Search.FilterIsSubsequence | iOS-Test/Views/Main/MainView.swift:161 | the filtered list is a subsequence of the input, so order is preserved |
| Search.FilterIdempotent | iOS-Test/Views/Main/MainView.swift:161 | filtering the result again with the same query gives the result back |
| Search.SearchResults | iOS-Test/Views/Main/MainView.swift:157-163 | an empty query returns `searchData` unchanged. Otherwise an item is returned iff it is in `searchData` and its title contains the query, and the result is no longer than `searchData` |
| Search.SearchResultsSpec | iOS-Test/Views/Main/MainView.swift:157-163 | an empty query returns `searchData` unchanged. Any result is a subsequence of `searchData`. For a non-empty query an item is returned iff it is in `searchData` and its title contains the query. Searching the results again changes nothing |
| Search.KeepsAll | iOS-Test/Views/Main/MainView.swift:161 | if every title contains the query, the filter returns the whole list |
| Search.KeepsNone | iOS-Test/Views/Main/MainView.swift:161 | if no title contains the query, the filter returns nothing |
| Search.FilterAppend | iOS-Test/Views/Main/MainView.swift:161 | filtering a concatenation is the concatenation of the filtered parts |
| MainScreen.Populate | iOS-Test/Views/Main/MainView.swift:165-183 | `populate()` installs 15 items with image `photo.fill`. Each title starts with `Item `, and the titles are pairwise distinct |
| MainScreen.OnAppear | iOS-Test/Views/Main/MainView.swift:44-46 | appearing installs exactly the list `populate()` builds and changes nothing else |
| MainScreen.OnScroll | iOS-Test/Views/Main/MainView.swift:47-55 | `scrollViewIsOnTop` becomes true iff the new offset is strictly below -270. Nothing else changes |
| MainScreen.ExactlyOneSearchBar | iOS-Test/Views/Main/MainView.swift:35-61 | the header's search bar and the pinned search bar have opacities 0 or 1 summing to 1, so exactly one is shown |
| MainScreen.PinnedAfterScroll | iOS-Test/Views/Main/MainView.swift:36-61 | after a scroll the pinned bar is shown iff the offset is below -270. At -270 or above, the header's bar is shown |
| MainScreen.ClearSearch | iOS-Test/Views/Main/MainView.swift:111-114 | the clear button empties the query, so the search results are the full list again. Nothing else in the modelled state changes |
| MainScreen.HandleGesture | iOS-Test/Views/Main/MainView.swift:24-30 | a gesture reaches the carousel only when `imagesCount > 0`. It changes only the carousel state and keeps it in bounds |
| MainScreen.HandleGestures | iOS-Test/Views/Main/MainView.swift:24-30 | a sequence of gestures changes only the carousel state and keeps a shown carousel in bounds |
| MainScreen.HandleGesturesIsRun | iOS-Test/Views/Main/MainView.swift:24-30 | while the carousel is shown, the screen follows the carousel's state machine with `imagesCount` cards |
| MainScreen.IndicatorHighlightsOne | iOS-Test/Views/Main/MainView.swift:25-29 | whatever the user swipes, a shown carousel's page indicator highlights exactly one marker |
| MainScreen.ScreenAfterGestures | iOS-Test/Views/Main/MainView.swift:13-46 | on the screen as it starts (10 images, list populated on appearance), after any gestures exactly one of the ten indicator markers is highlighted, and with the query empty all 15 items are listed |
| MainScreen.SearchItemListsAll | iOS-Test/Views/Main/MainView.swift:157-183 | on the populated list the query `Item` returns all 15 items |
| MainScreen.SearchItemOneExample | iOS-Test/Views/Main/MainView.swift:157-183 | on the populated list the query `Item 1` returns `Item 1` and `Item 10` to `Item 15`, in order |

## Left out

- SwiftUI view construction is not modelled because it is declarative rendering, not behaviour. This covers styling, frames, corner radii, transitions, animations, and the rendering of `Canvas`, the `HStack` and its `ForEach` of carousel items. Only the card positions the `HStack`'s spacing implies are modelled. For those, the row is assumed to be centred in its container, which is how a frame with `.center` alignment places oversized content.
- The `DispatchQueue.main.async` hop in the drag update is not modelled. The update is a synchronous step, because the hop is UI threading.
- `UIImpactFeedbackGenerator` is a foreign UIKit call. It appears only as a haptic count in each step's result.
- `UIScreen.main.bounds.width` is read from the device, so it is a parameter.
- `Float`/`CGFloat` arithmetic, conversions and rounding are not modelled. All lengths are exact reals. `Int(numberOfItems)` is therefore the card count itself.
- `ScrollViewWithScrollOffset`, `GeometryReader` and the preference-key plumbing are layout callbacks of the framework and are not modelled. The scroll offset they report is the input to `OnScroll`.
- `UUID()` generation is not modelled, because it is random. The identifiers are supplied by the caller of `Populate`. `CarouselModel` holds only an image name and an identifier and is not used by the modelled logic.
- `FocusState` keyboard focus is not modelled. This covers the tap handlers and the clear button's `isFocused = false`.
- Swift `String.contains` compares grapheme clusters. The model compares characters of a `seq<char>`. An empty query never reaches the substring test, because `searchResults` returns the full list first.
- `ForEach(0..<count)` traps on a negative count, so the model's `Markers` takes a `nat` count.
- Gestures on a screen whose carousel is hidden (`imagesCount <= 0`) are dropped, because no carousel view exists to receive them.
