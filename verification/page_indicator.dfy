/** The page indicator under the carousel: one marker per card, the marker
    of the active card drawn in its highlighted variant. */
module PageIndicator {

  /** A rendered marker, with the index it was built for. */
  datatype Marker = Highlighted(index: int) | Plain(index: int)

  /** `trackedView(currentIndex:)`: the highlighted variant for the active card. */
  function TrackedView(currentIndex: int, activeCard: int): (m: Marker)
    ensures m.index == currentIndex
    ensures m.Highlighted? <==> currentIndex == activeCard
  {
    if currentIndex == activeCard then Highlighted(currentIndex) else Plain(currentIndex)
  }

  /** The body's `ForEach(0..<count)`. A negative count is a range error in
      the source, so the count is a `nat`. */
  function Markers(count: nat, activeCard: int): (ms: seq<Marker>)
    ensures |ms| == count
    ensures forall i :: 0 <= i < count ==> ms[i].index == i
    ensures forall i :: 0 <= i < count ==> (ms[i].Highlighted? <==> i == activeCard)
  {
    seq(count, i requires 0 <= i => TrackedView(i, activeCard))
  }

  /** How many markers of a row are highlighted. */
  function HighlightedCount(ms: seq<Marker>): nat
  {
    if |ms| == 0 then 0
    else HighlightedCount(ms[..|ms| - 1]) + (if ms[|ms| - 1].Highlighted? then 1 else 0)
  }

  /** The number of highlighted markers: one when the active card is among
      the first `count`, none otherwise. */
  lemma {:induction false} HighlightedCountIsMembership(count: nat, activeCard: int)
    ensures HighlightedCount(Markers(count, activeCard))
         == (if 0 <= activeCard < count then 1 else 0)
  {
    if count > 0 {
      var ms := Markers(count, activeCard);
      assert ms[..count - 1] == Markers(count - 1, activeCard);
      HighlightedCountIsMembership(count - 1, activeCard);
    }
  }

  /** With the active card in range exactly one marker is highlighted. */
  lemma ExactlyOneHighlighted(count: nat, activeCard: int)
    requires 0 <= activeCard < count
    ensures HighlightedCount(Markers(count, activeCard)) == 1
  {
    HighlightedCountIsMembership(count, activeCard);
  }

  /** With the active card out of range (or no cards) nothing is highlighted. */
  lemma NoneHighlighted(count: nat, activeCard: int)
    requires activeCard < 0 || activeCard >= count
    ensures HighlightedCount(Markers(count, activeCard)) == 0
  {
    HighlightedCountIsMembership(count, activeCard);
  }
}
