/** Map markers: one per widget, placed at the widget's coordinates and
    coloured by its position in the list. */
module Markers {
  import opened Widgets

  /** The marker palette, cycled through by list position. */
  const MARKER_COLORS: seq<string> :=
    ["#9b87f5", "#6d5fd3", "#ff6b6b", "#4ecdc4", "#45b7d1", "#ffa726", "#7e57c2", "#26a69a"]

  /** A placed marker: the widget it opens, where it stands, its colour. */
  datatype Marker = Marker(widgetId: int, latitude: real, longitude: real, color: string)

  /** The colour of the marker at position `index`. */
  function MarkerColor(index: nat): (c: string)
    ensures c in MARKER_COLORS
  {
    MARKER_COLORS[index % |MARKER_COLORS|]
  }

  /** Colours repeat every eight positions. */
  lemma ColorsCycle(index: nat)
    ensures MarkerColor(index + 8) == MarkerColor(index)
  {
  }

  /** Markers fewer than eight positions apart have different colours. */
  lemma NearbyMarkersDiffer(i: nat, j: nat)
    requires i < j < i + 8
    ensures MarkerColor(i) != MarkerColor(j)
  {
  }

  /** The marker for the widget at position `index`. */
  function MarkerFor(w: Widget, index: nat): (m: Marker)
    ensures m.widgetId == w.id && m.latitude == w.latitude && m.longitude == w.longitude
    ensures m.color in MARKER_COLORS
  {
    Marker(w.id, w.latitude, w.longitude, MarkerColor(index))
  }

  /** Marker `i` belongs to widget `i`, for every position. */
  ghost predicate AlignedWith(markers: seq<Marker>, ws: seq<Widget>)
  {
    |markers| == |ws| && forall i :: 0 <= i < |ws| ==> markers[i] == MarkerFor(ws[i], i)
  }

  /** Markers depend only on the pins, so updating weather keeps them aligned. */
  lemma SamePinsKeepAlignment(markers: seq<Marker>, a: seq<Widget>, b: seq<Widget>)
    requires AlignedWith(markers, a) && SamePins(a, b)
    ensures AlignedWith(markers, b)
  {
  }
}
