/** The screen that composes the carousel, its page indicator, the search
    bar and the filtered list. Scroll positions are exact reals and the
    fresh identifiers of list items are supplied by the caller. */
module MainScreen {
  import opened CarouselState
  import opened PageIndicator
  import opened Search

  /** Scrolling the content above this offset pins the search bar. */
  const OnTopThreshold: real := -270.0

  /** The number of carousel images the screen starts with. */
  const DefaultImagesCount: int := 10

  /** The screen's state. */
  datatype Screen = Screen(
    searchData: seq<ListModel>,
    searchText: string,
    imagesCount: int,
    scrollOffset: real,
    scrollViewIsOnTop: bool,
    ui: UIState)

  /** The screen as first created, before it appears. */
  function InitialScreen(): Screen
  {
    Screen([], "", DefaultImagesCount, 0.0, false, Initial())
  }

  /** The static list `populate()` installs. */
  function Populate(ids: seq<nat>): (items: seq<ListModel>)
    requires |ids| == 15
    ensures |items| == 15
    ensures forall i :: 0 <= i < 15 ==> items[i].id == ids[i] && items[i].imageName == "photo.fill"
    ensures forall i :: 0 <= i < 15 ==> |items[i].title| > 5 && items[i].title[..5] == "Item "
    ensures forall i, j :: 0 <= i < j < 15 ==> items[i].title != items[j].title
  {
    var titles := ["Item 1", "Item 2", "Item 3", "Item 4", "Item 5",
                   "Item 6", "Item 7", "Item 8", "Item 9", "Item 10",
                   "Item 11", "Item 12", "Item 13", "Item 14", "Item 15"];
    seq(15, i requires 0 <= i < 15 => ListModel("photo.fill", titles[i], ids[i]))
  }

  /** `onAppear`: the list is populated; nothing else changes. */
  function OnAppear(s: Screen, ids: seq<nat>): (r: Screen)
    requires |ids| == 15
    ensures r.searchData == Populate(ids)
    ensures r.(searchData := s.searchData) == s
  {
    s.(searchData := Populate(ids))
  }

  /** `onChange(of: scrollOffset)`: a new scroll offset arrives and the
      search bar is pinned exactly when it is strictly above the threshold. */
  function OnScroll(s: Screen, newValue: real): (r: Screen)
    ensures r.scrollOffset == newValue
    ensures r.scrollViewIsOnTop <==> newValue < OnTopThreshold
    ensures r.(scrollOffset := s.scrollOffset, scrollViewIsOnTop := s.scrollViewIsOnTop) == s
  {
    s.(scrollOffset := newValue, scrollViewIsOnTop := newValue < OnTopThreshold)
  }

  /** Opacity of the search bar in the list's section header. */
  function HeaderSearchBarOpacity(s: Screen): real
  {
    if s.scrollViewIsOnTop then 0.0 else 1.0
  }

  /** Opacity of the search bar pinned over the scroll view. */
  function PinnedSearchBarOpacity(s: Screen): real
  {
    if s.scrollViewIsOnTop then 1.0 else 0.0
  }

  /** Exactly one of the two search bars is shown, the other fully hidden. */
  lemma ExactlyOneSearchBar(s: Screen)
    ensures (HeaderSearchBarOpacity(s) == 1.0) != (PinnedSearchBarOpacity(s) == 1.0)
    ensures HeaderSearchBarOpacity(s) + PinnedSearchBarOpacity(s) == 1.0
    ensures HeaderSearchBarOpacity(s) in {0.0, 1.0} && PinnedSearchBarOpacity(s) in {0.0, 1.0}
  {
  }

  /** After a scroll the pinned bar is the one shown iff the offset is below
      -270; at exactly -270 the header's bar is shown. */
  lemma PinnedAfterScroll(s: Screen, newValue: real)
    ensures PinnedSearchBarOpacity(OnScroll(s, newValue)) == 1.0 <==> newValue < -270.0
    ensures HeaderSearchBarOpacity(OnScroll(s, newValue)) == 1.0 <==> newValue >= -270.0
  {
  }

  /** The carousel and its indicator are laid out only when there are images. */
  function ShowsCarousel(s: Screen): bool
  {
    s.imagesCount > 0
  }

  /** The clear button: the query is emptied, so the full list is shown again. */
  function ClearSearch(s: Screen): (r: Screen)
    ensures r.searchText == ""
    ensures SearchResults(r.searchData, r.searchText) == s.searchData
    ensures r.(searchText := s.searchText) == s
  {
    s.(searchText := "")
  }

  /** A gesture reaches the carousel only while it is shown; the haptics
      it fires are not part of the screen's state. */
  function HandleGesture(s: Screen, g: Gesture): (r: Screen)
    ensures r.(ui := s.ui) == s
    ensures ShowsCarousel(s) && InBounds(s.ui, s.imagesCount) ==> InBounds(r.ui, r.imagesCount)
    ensures !ShowsCarousel(s) ==> r == s
  {
    if ShowsCarousel(s) then s.(ui := Step(s.ui, s.imagesCount, g).state) else s
  }

  /** The page indicator's markers for the current state. */
  function IndicatorMarkers(s: Screen): seq<Marker>
    requires ShowsCarousel(s)
  {
    Markers(s.imagesCount, s.ui.activeCard)
  }

  /** A sequence of gestures delivered to the screen. */
  function HandleGestures(s: Screen, gs: seq<Gesture>): (r: Screen)
    ensures r.(ui := s.ui) == s
    ensures ShowsCarousel(s) && InBounds(s.ui, s.imagesCount) ==> InBounds(r.ui, r.imagesCount)
    decreases |gs|
  {
    if |gs| == 0 then s else HandleGestures(HandleGesture(s, gs[0]), gs[1..])
  }

  /** While the carousel is shown, the screen follows the carousel's own
      state machine with `imagesCount` cards. */
  lemma {:induction false} HandleGesturesIsRun(s: Screen, gs: seq<Gesture>)
    requires ShowsCarousel(s)
    ensures HandleGestures(s, gs) == s.(ui := Run(s.ui, s.imagesCount, gs).state)
    decreases |gs|
  {
    if |gs| > 0 {
      HandleGesturesIsRun(HandleGesture(s, gs[0]), gs[1..]);
    }
  }

  /** Whatever the user swipes, a shown carousel's indicator highlights
      exactly one marker. */
  lemma IndicatorHighlightsOne(s: Screen, gs: seq<Gesture>)
    requires ShowsCarousel(s) && s.ui == Initial()
    ensures HighlightedCount(IndicatorMarkers(HandleGestures(s, gs))) == 1
  {
    HandleGesturesIsRun(s, gs);
    BoundsInvariant(s.imagesCount, gs);
    ExactlyOneHighlighted(s.imagesCount, Run(Initial(), s.imagesCount, gs).state.activeCard);
  }

  /** The screen as it runs: ten images, the list populated on appearance,
      then any gestures. The indicator highlights exactly one of the ten
      markers and, with the query still empty, all fifteen items are listed. */
  lemma ScreenAfterGestures(ids: seq<nat>, gs: seq<Gesture>)
    requires |ids| == 15
    ensures var s := HandleGestures(OnAppear(InitialScreen(), ids), gs);
            s.imagesCount == 10
              && HighlightedCount(IndicatorMarkers(s)) == 1
              && SearchResults(s.searchData, s.searchText) == Populate(ids)
  {
    IndicatorHighlightsOne(OnAppear(InitialScreen(), ids), gs);
  }

  /** Every populated title contains "Item", so that query lists everything. */
  lemma SearchItemListsAll(ids: seq<nat>)
    requires |ids| == 15
    ensures SearchResults(Populate(ids), "Item") == Populate(ids)
  {
    var items := Populate(ids);
    forall i | 0 <= i < 15
      ensures Contains(items[i].title, "Item")
    {
      assert OccursAt(items[i].title, "Item", 0);
    }
    KeepsAll(items, "Item");
  }

  /** The query "Item 1" lists "Item 1" and "Item 10" to "Item 15", in order. */
  lemma SearchItemOneExample(ids: seq<nat>)
    requires |ids| == 15
    ensures var items := Populate(ids);
            SearchResults(items, "Item 1") == [items[0]] + items[9..]
  {
    var items := Populate(ids);
    forall i | 0 <= i < 15
      ensures Contains(items[i].title, "Item 1") <==> (i == 0 || i >= 9)
    {
      if i == 0 || i >= 9 {
        assert OccursAt(items[i].title, "Item 1", 0);
      } else {
        assert items[i].title != items[0].title;
        forall k ensures !OccursAt(items[i].title, "Item 1", k) {
          if 0 <= k <= |items[i].title| - 6 {
            assert items[i].title[0..6] == items[i].title;
          }
        }
      }
    }
    assert items == items[..1] + items[1..9] + items[9..];
    FilterAppend(items[..1] + items[1..9], items[9..], "Item 1");
    FilterAppend(items[..1], items[1..9], "Item 1");
    KeepsAll(items[..1], "Item 1");
    KeepsNone(items[1..9], "Item 1");
    KeepsAll(items[9..], "Item 1");
  }
}
