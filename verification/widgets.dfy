/** The widget records and the pure rules over the ordered widget list:
    cache freshness, coordinate validation, duplicate detection, the
    write-back of a fetch outcome, deletion by filter and the coercion
    applied when the list is loaded from local storage. */
module Widgets {
  import opened Wrappers
  import opened Weather

  /** A pinned coordinate with its cached weather. `lastUpdated` is an epoch
      timestamp in milliseconds. */
  datatype Widget = Widget(
    id: int,
    latitude: real,
    longitude: real,
    weatherData: Option<Snapshot>,
    lastUpdated: Option<int>)

  /** Cached data is reused for one hour, in milliseconds. */
  const CACHE_DURATION: int := 60 * 60 * 1000

  /** Two pins closer than this on both axes are the same place. */
  const DUPLICATE_TOLERANCE: real := 0.001

  function Abs(x: real): real
  {
    if x < 0.0 then -x else x
  }

  // ---------------------------------------------------------------------------
  // Cache freshness

  /** Whether the widget's weather must be fetched again at time `now`. The
      timestamp 0 is falsy in the source and counts as never updated. */
  predicate NeedsRefresh(w: Widget, now: int)
  {
    match w.lastUpdated
    case None => true
    case Some(t) => t == 0 || now - t > CACHE_DURATION
  }

  /** A refresh is due exactly when the widget was never updated (or at time
      0), or more than one hour (3600000 ms) has passed; at exactly one hour
      the cache is still fresh. */
  lemma NeedsRefreshMeaning(w: Widget, now: int)
    ensures NeedsRefresh(w, now) <==>
              w.lastUpdated.None? || w.lastUpdated == Some(0) || now - w.lastUpdated.value > 3600000
    ensures w.lastUpdated.Some? && w.lastUpdated.value != 0 && now == w.lastUpdated.value + 3600000 ==>
              !NeedsRefresh(w, now)
  {
  }

  /** A widget that has never been updated always needs a refresh. */
  lemma NeverUpdatedNeedsRefresh(w: Widget, now: int)
    requires w.lastUpdated.None?
    ensures NeedsRefresh(w, now)
  {
  }

  /** Once stale, a widget stays stale as the clock moves forward. */
  lemma StalenessPersists(w: Widget, now: int, later: int)
    requires NeedsRefresh(w, now) && now <= later
    ensures NeedsRefresh(w, later)
  {
  }

  // ---------------------------------------------------------------------------
  // Coordinate validation and duplicates

  /** Latitude in [-90, 90] and longitude in [-180, 180], bounds included. */
  predicate InRange(lat: real, lon: real)
  {
    -90.0 <= lat <= 90.0 && -180.0 <= lon <= 180.0
  }

  /** Validation of the two parsed inputs; `None` is a value that parsed to
      `NaN`. */
  predicate ValidateCoordinates(lat: Option<real>, lon: Option<real>)
  {
    if lat.None? || lon.None? then false
    else lat.value >= -90.0 && lat.value <= 90.0 && lon.value >= -180.0 && lon.value <= 180.0
  }

  /** A pair is accepted exactly when neither value is `NaN` and both lie in
      their ranges, the bounds themselves included. */
  lemma ValidateCoordinatesMeaning(lat: Option<real>, lon: Option<real>)
    ensures ValidateCoordinates(lat, lon) <==> lat.Some? && lon.Some? && InRange(lat.value, lon.value)
    ensures ValidateCoordinates(Some(-90.0), Some(180.0)) && ValidateCoordinates(Some(90.0), Some(-180.0))
    ensures !ValidateCoordinates(Some(90.0001), Some(0.0)) && !ValidateCoordinates(Some(0.0), Some(-180.0001))
  {
  }

  /** The widget lies within the duplicate tolerance of the pair on both axes. */
  predicate Near(w: Widget, lat: real, lon: real)
  {
    Abs(w.latitude - lat) < DUPLICATE_TOLERANCE && Abs(w.longitude - lon) < DUPLICATE_TOLERANCE
  }

  /** The first stored widget near the pair, as `Array.prototype.find` gives it. */
  function FindNear(ws: seq<Widget>, lat: real, lon: real): (r: Option<Widget>)
    ensures r.Some? ==> r.value in ws && Near(r.value, lat, lon)
    ensures r.None? ==> forall i :: 0 <= i < |ws| ==> !Near(ws[i], lat, lon)
  {
    if ws == [] then None
    else if Near(ws[0], lat, lon) then Some(ws[0])
    else FindNear(ws[1..], lat, lon)
  }

  /** Some stored widget is within the tolerance of the pair on both axes. */
  function IsDuplicateWidget(ws: seq<Widget>, lat: real, lon: real): (dup: bool)
    ensures dup <==> exists i :: 0 <= i < |ws| && Near(ws[i], lat, lon)
  {
    FindNear(ws, lat, lon).Some?
  }

  /** No two stored widgets are within the tolerance of each other on both
      axes. */
  ghost predicate Separated(ws: seq<Widget>)
  {
    forall i, j :: 0 <= i < j < |ws| ==> !Near(ws[i], ws[j].latitude, ws[j].longitude)
  }

  /** Every stored widget has coordinates that pass validation. */
  ghost predicate AllInRange(ws: seq<Widget>)
  {
    forall i :: 0 <= i < |ws| ==> InRange(ws[i].latitude, ws[i].longitude)
  }

  /** A widget holding weather data also holds a timestamp. (The converse does
      not hold: a failed refresh leaves a timestamp without data.) */
  ghost predicate WeatherIsTimestamped(ws: seq<Widget>)
  {
    forall i :: 0 <= i < |ws| ==> ws[i].weatherData.Some? ==> ws[i].lastUpdated.Some?
  }

  /** Appending a pair that is not a duplicate keeps the list separated. */
  lemma AppendKeepsSeparation(ws: seq<Widget>, w: Widget)
    requires Separated(ws)
    requires !IsDuplicateWidget(ws, w.latitude, w.longitude)
    ensures Separated(ws + [w])
  {
  }

  datatype ValidationError = InvalidCoordinates | DuplicateWidget

  /** The checks run before a widget is created: the coordinates first, then
      duplicates against the stored list. */
  function ValidateWidgetInputs(ws: seq<Widget>, lat: Option<real>, lon: Option<real>)
    : (r: Result<(real, real), ValidationError>)
    ensures r == Failure(InvalidCoordinates) <==> !ValidateCoordinates(lat, lon)
    ensures r == Failure(DuplicateWidget) ==> exists i :: 0 <= i < |ws| && Near(ws[i], lat.value, lon.value)
    ensures r.Success? ==> lat == Some(r.value.0) && lon == Some(r.value.1) && InRange(r.value.0, r.value.1)
    ensures r.Success? ==> forall i :: 0 <= i < |ws| ==> !Near(ws[i], r.value.0, r.value.1)
  {
    if !ValidateCoordinates(lat, lon) then
      Failure(InvalidCoordinates)
    else if IsDuplicateWidget(ws, lat.value, lon.value) then
      Failure(DuplicateWidget)
    else
      Success((lat.value, lon.value))
  }

  // ---------------------------------------------------------------------------
  // Creation and write-back

  /** A new widget: no weather yet, so it needs a refresh at any time. */
  function CreateNewWidget(id: int, lat: real, lon: real): (w: Widget)
    ensures w.id == id && w.latitude == lat && w.longitude == lon
    ensures forall now :: NeedsRefresh(w, now)
    ensures w.weatherData.None? && w.lastUpdated.None?
  {
    Widget(id, lat, lon, None, None)
  }

  /** Two widgets are the same pin: id and coordinates agree. */
  predicate SamePin(a: Widget, b: Widget)
  {
    a.id == b.id && a.latitude == b.latitude && a.longitude == b.longitude
  }

  /** Two lists hold the same pins in the same order. */
  ghost predicate SamePins(a: seq<Widget>, b: seq<Widget>)
  {
    |a| == |b| && forall i :: 0 <= i < |a| ==> SamePin(a[i], b[i])
  }

  /** The write-back of one fetch outcome at time `at`: a snapshot replaces
      the weather wholesale and stamps the time; a failed fetch changes
      nothing. */
  function WrittenBack(w: Widget, fetched: Option<Snapshot>, at: int): (r: Widget)
    ensures SamePin(w, r)
    ensures fetched.None? ==> r == w
    ensures fetched.Some? ==> r.weatherData == fetched && r.lastUpdated == Some(at)
  {
    if fetched.Some? then w.(weatherData := fetched, lastUpdated := Some(at)) else w
  }

  /** After a successful write-back at a nonzero time the widget is fresh for
      exactly one hour: fresh at `at + CACHE_DURATION`, stale one millisecond
      later. */
  lemma WrittenBackIsFreshForAnHour(w: Widget, s: Snapshot, at: int, now: int)
    requires at != 0 && at <= now <= at + CACHE_DURATION
    ensures !NeedsRefresh(WrittenBack(w, Some(s), at), now)
    ensures NeedsRefresh(WrittenBack(w, Some(s), at), at + CACHE_DURATION + 1)
  {
  }

  /** Replacing one entry by a write-back keeps the pins, and so separation,
      range and the timestamp invariant. */
  lemma WriteBackKeepsInvariants(ws: seq<Widget>, k: nat, fetched: Option<Snapshot>, at: int)
    requires k < |ws|
    ensures SamePins(ws, ws[k := WrittenBack(ws[k], fetched, at)])
    ensures Separated(ws) ==> Separated(ws[k := WrittenBack(ws[k], fetched, at)])
    ensures AllInRange(ws) ==> AllInRange(ws[k := WrittenBack(ws[k], fetched, at)])
    ensures WeatherIsTimestamped(ws) ==> WeatherIsTimestamped(ws[k := WrittenBack(ws[k], fetched, at)])
  {
  }

  /** Replacing one entry by a copy without weather keeps the pins and the
      invariants. */
  lemma ClearWeatherKeepsInvariants(ws: seq<Widget>, k: nat)
    requires k < |ws|
    ensures SamePins(ws, ws[k := ws[k].(weatherData := None)])
    ensures Separated(ws) ==> Separated(ws[k := ws[k].(weatherData := None)])
    ensures AllInRange(ws) ==> AllInRange(ws[k := ws[k].(weatherData := None)])
    ensures WeatherIsTimestamped(ws) ==> WeatherIsTimestamped(ws[k := ws[k].(weatherData := None)])
  {
  }

  // ---------------------------------------------------------------------------
  // Lookup by id

  /** The index of the first widget with the id, as `find`/`findIndex` see it. */
  function IndexOfId(ws: seq<Widget>, id: int): (r: Option<nat>)
    ensures r.Some? ==> r.value < |ws| && ws[r.value].id == id
    ensures r.Some? ==> forall j :: 0 <= j < r.value ==> ws[j].id != id
    ensures r.None? ==> forall j :: 0 <= j < |ws| ==> ws[j].id != id
  {
    if ws == [] then None
    else if ws[0].id == id then Some(0)
    else match IndexOfId(ws[1..], id)
      case None => None
      case Some(k) => Some(k + 1)
  }

  /** The index of the last widget with the id. */
  function LastIndexOfId(ws: seq<Widget>, id: int): (r: Option<nat>)
    ensures r.Some? ==> r.value < |ws| && ws[r.value].id == id
    ensures r.Some? ==> forall j :: r.value < j < |ws| ==> ws[j].id != id
    ensures r.None? ==> forall j :: 0 <= j < |ws| ==> ws[j].id != id
  {
    if ws == [] then None
    else if ws[|ws| - 1].id == id then Some(|ws| - 1)
    else LastIndexOfId(ws[..|ws| - 1], id)
  }

  /** The pin `p` is the last entry with its id, if any entry has that id.
      This is how the widget a pending creation refers to is found again. */
  ghost predicate LastWithIdIs(ws: seq<Widget>, p: Widget)
  {
    var k := LastIndexOfId(ws, p.id);
    k.Some? ==> SamePin(ws[k.value], p)
  }

  /** Lists with the same pins find the same last index for every id. */
  lemma {:induction false} SamePinsSameLastIndex(a: seq<Widget>, b: seq<Widget>, id: int)
    requires SamePins(a, b)
    ensures LastIndexOfId(a, id) == LastIndexOfId(b, id)
  {
    if a != [] {
      var n := |a| - 1;
      assert SamePin(a[n], b[n]);
      if a[n].id != id {
        assert SamePins(a[..n], b[..n]) by {
          forall i | 0 <= i < n
            ensures SamePin(a[..n][i], b[..n][i])
          {
            assert SamePin(a[i], b[i]);
          }
        }
        SamePinsSameLastIndex(a[..n], b[..n], id);
      }
    }
  }

  /** Changing weather only keeps the last entry with a pin's id that pin. */
  lemma SamePinsKeepLastWithId(a: seq<Widget>, b: seq<Widget>, p: Widget)
    requires SamePins(a, b) && LastWithIdIs(a, p)
    ensures LastWithIdIs(b, p)
  {
    SamePinsSameLastIndex(a, b, p.id);
    var k := LastIndexOfId(a, p.id);
    if k.Some? {
      assert SamePin(a[k.value], b[k.value]);
    }
  }

  /** A widget just appended is the last entry with its id. */
  lemma AppendedIsLastWithId(ws: seq<Widget>, p: Widget)
    ensures LastWithIdIs(ws + [p], p)
  {
  }

  // ---------------------------------------------------------------------------
  // Deletion by filter

  /** `widgets.filter(w => w.id !== id)`: the widgets with a different id. */
  function WithoutId(ws: seq<Widget>, id: int): (r: seq<Widget>)
    ensures |r| <= |ws|
    ensures forall w :: w in r <==> w in ws && w.id != id
  {
    if ws == [] then []
    else (if ws[0].id != id then [ws[0]] else []) + WithoutId(ws[1..], id)
  }

  /** Filtering distributes over concatenation: the kept widgets keep their
      relative order. */
  lemma {:induction false} WithoutIdAppend(a: seq<Widget>, b: seq<Widget>, id: int)
    ensures WithoutId(a + b, id) == WithoutId(a, id) + WithoutId(b, id)
  {
    if a == [] {
      assert a + b == b;
    } else {
      assert (a + b)[0] == a[0];
      assert (a + b)[1..] == a[1..] + b;
      WithoutIdAppend(a[1..], b, id);
    }
  }

  /** Filtering a list none of whose widgets has the id changes nothing. */
  lemma {:induction false} WithoutAbsentId(ws: seq<Widget>, id: int)
    requires forall i :: 0 <= i < |ws| ==> ws[i].id != id
    ensures WithoutId(ws, id) == ws
  {
    if ws != [] {
      WithoutAbsentId(ws[1..], id);
      assert [ws[0]] + ws[1..] == ws;
    }
  }

  /** Deleting twice is deleting once. */
  lemma WithoutIdIdempotent(ws: seq<Widget>, id: int)
    ensures WithoutId(WithoutId(ws, id), id) == WithoutId(ws, id)
  {
    var r := WithoutId(ws, id);
    forall i | 0 <= i < |r|
      ensures r[i].id != id
    {
      assert r[i] in r;
    }
    WithoutAbsentId(r, id);
  }

  /** Deletion keeps the stored list separated. */
  lemma {:induction false} WithoutIdKeepsSeparation(ws: seq<Widget>, id: int)
    requires Separated(ws)
    ensures Separated(WithoutId(ws, id))
  {
    if ws != [] {
      var tail := ws[1..];
      assert Separated(tail) by {
        forall i, j | 0 <= i < j < |tail|
          ensures !Near(tail[i], tail[j].latitude, tail[j].longitude)
        {
          assert tail[i] == ws[i + 1] && tail[j] == ws[j + 1];
        }
      }
      WithoutIdKeepsSeparation(tail, id);
      var rest := WithoutId(tail, id);
      if ws[0].id != id {
        var r := [ws[0]] + rest;
        forall i, j | 0 <= i < j < |r|
          ensures !Near(r[i], r[j].latitude, r[j].longitude)
        {
          if i == 0 {
            assert r[j] == rest[j - 1] && r[j] in tail;
            var k :| 0 <= k < |tail| && tail[k] == r[j];
            assert ws[k + 1] == r[j];
          } else {
            assert r[i] == rest[i - 1] && r[j] == rest[j - 1];
          }
        }
      }
    }
  }

  /** Deletion keeps every stored widget's coordinates in range and the
      timestamp invariant. */
  lemma WithoutIdKeepsPointwise(ws: seq<Widget>, id: int)
    ensures AllInRange(ws) ==> AllInRange(WithoutId(ws, id))
    ensures WeatherIsTimestamped(ws) ==> WeatherIsTimestamped(WithoutId(ws, id))
  {
  }

  /** The last index of an id in a list extended by one widget. */
  lemma LastIndexOfIdSnoc(a: seq<Widget>, x: Widget, p: int)
    ensures LastIndexOfId(a + [x], p) == if x.id == p then Some(|a|) else LastIndexOfId(a, p)
  {
    assert (a + [x])[..|a|] == a;
  }

  /** Filtering out another id keeps the last entry with id `p`: it is the
      same widget before and after, or absent from both. */
  lemma {:induction false} WithoutOtherIdKeepsLast(ws: seq<Widget>, d: int, p: int)
    requires d != p
    ensures LastIndexOfId(WithoutId(ws, d), p).None? <==> LastIndexOfId(ws, p).None?
    ensures LastIndexOfId(ws, p).Some? ==>
              WithoutId(ws, d)[LastIndexOfId(WithoutId(ws, d), p).value] == ws[LastIndexOfId(ws, p).value]
  {
    if ws != [] {
      var n := |ws| - 1;
      var init, x := ws[..n], ws[n];
      assert ws == init + [x];
      WithoutIdAppend(init, [x], d);
      assert WithoutId([x], d) == if x.id != d then [x] else [] by {
        assert [x][1..] == [];
      }
      var fi := WithoutId(init, d);
      LastIndexOfIdSnoc(init, x, p);
      if x.id != d {
        LastIndexOfIdSnoc(fi, x, p);
      } else {
        assert fi + [] == fi;
      }
      if x.id != p {
        WithoutOtherIdKeepsLast(init, d, p);
      }
    }
  }

  /** Deletion keeps the last entry with a pin's id that pin, or removes every
      entry with that id. */
  lemma WithoutIdKeepsLastWithId(ws: seq<Widget>, d: int, p: Widget)
    requires LastWithIdIs(ws, p)
    ensures LastWithIdIs(WithoutId(ws, d), p)
  {
    if d == p.id {
      var r := WithoutId(ws, d);
      forall j | 0 <= j < |r|
        ensures r[j].id != p.id
      {
        assert r[j] in r;
      }
    } else {
      WithoutOtherIdKeepsLast(ws, d, p.id);
    }
  }

  // ---------------------------------------------------------------------------
  // Loading from local storage

  /** What local storage holds under the widgets key: nothing (or an empty
      string), something that does not parse as a list of widgets, or a
      parsed list. */
  datatype SavedBlob = Absent | Malformed | Saved(entries: seq<Widget>)

  /** `lastUpdated || null`: a missing timestamp and the timestamp 0 both
      become null. */
  function CoerceEntry(w: Widget): (r: Widget)
    ensures SamePin(w, r) && r.weatherData == w.weatherData
    ensures r.lastUpdated.None? <==> w.lastUpdated.None? || w.lastUpdated == Some(0)
    ensures r.lastUpdated.Some? ==> r.lastUpdated == w.lastUpdated
  {
    if w.lastUpdated == Some(0) then w.(lastUpdated := None) else w
  }

  /** The list after loading: unchanged when nothing is stored, empty when
      what is stored is malformed, otherwise the stored entries coerced one
      by one. */
  function LoadWidgets(blob: SavedBlob, current: seq<Widget>): (r: seq<Widget>)
    ensures blob.Absent? ==> r == current
    ensures blob.Malformed? ==> r == []
    ensures blob.Saved? ==> |r| == |blob.entries|
    ensures blob.Saved? ==> forall i :: 0 <= i < |r| ==> r[i] == CoerceEntry(blob.entries[i])
  {
    match blob
    case Absent => current
    case Malformed => []
    case Saved(entries) => seq(|entries|, i requires 0 <= i < |entries| => CoerceEntry(entries[i]))
  }

  /** Saving a list and loading it back gives the same list, provided no
      timestamp is 0 (the one value the coercion changes). */
  lemma SaveLoadRoundTrip(ws: seq<Widget>, current: seq<Widget>)
    requires forall i :: 0 <= i < |ws| ==> ws[i].lastUpdated != Some(0)
    ensures LoadWidgets(Saved(ws), current) == ws
  {
  }
}
