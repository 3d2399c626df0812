/** The application object: the ordered widget list, the markers shown on the
    map, the single-flight flag of widget creation and whether a map exists.
    Every operation that changes the list ends by rebuilding the markers, so
    that marker `i` always belongs to widget `i` while a map is present. */
module App {
  import opened Wrappers
  import opened Weather
  import opened Widgets
  import opened Markers

  /** What an attempt to add a widget did: nothing because a creation is in
      flight, nothing because the inputs were rejected, or it appended the
      widget and is now waiting for its weather. */
  datatype AddOutcome = Busy | Rejected(reason: ValidationError) | Started(widget: Widget)

  /** The weather fetched at startup for one widget and when it arrived. */
  datatype Arrival = Arrival(fetched: Option<Snapshot>, at: int)

  /** A widget after the startup refresh checked at `checkedAt`: refreshed from
      its arrival when stale, untouched when fresh. */
  function StartupRefreshed(w: Widget, checkedAt: int, arrival: Arrival): (r: Widget)
    ensures SamePin(w, r)
    ensures !NeedsRefresh(w, checkedAt) ==> r == w
    ensures NeedsRefresh(w, checkedAt) && arrival.fetched.Some? ==>
              r.weatherData == arrival.fetched && r.lastUpdated == Some(arrival.at)
    ensures arrival.fetched.None? ==> r == w
  {
    if NeedsRefresh(w, checkedAt) then WrittenBack(w, arrival.fetched, arrival.at) else w
  }

  class WeatherApp {
    var widgets: seq<Widget>
    var markers: seq<Marker>
    var isAddingWidget: bool
    var mapPresent: bool
    /** The widget whose creation waits for its weather: the object the
        suspended creation holds on to. */
    ghost var pending: Option<Widget>

    /** With a map, the markers are the projection of the list; without one
        there are none. The flag is up exactly while a creation is pending,
        and the pending widget, unless deleted, is the last entry with its
        id. */
    ghost predicate Valid()
      reads this
    {
      && (mapPresent ==> AlignedWith(markers, widgets))
      && (!mapPresent ==> markers == [])
      && (isAddingWidget <==> pending.Some?)
      && (pending.Some? ==> LastWithIdIs(widgets, pending.value))
    }

    /** Starts with the list loaded from local storage and no map yet. */
    constructor (saved: SavedBlob)
      ensures Valid()
      ensures widgets == LoadWidgets(saved, [])
      ensures markers == [] && !isAddingWidget && !mapPresent && pending.None?
    {
      widgets := LoadWidgets(saved, []);
      markers := [];
      isAddingWidget := false;
      mapPresent := false;
      pending := None;
    }

    /** The map became available: markers are built for the whole list. */
    method InitMap()
      requires Valid()
      modifies this
      ensures Valid() && mapPresent
      ensures widgets == old(widgets) && isAddingWidget == old(isAddingWidget) && pending == old(pending)
    {
      mapPresent := true;
      RenderMarkers();
    }

    // -------------------------------------------------------------------------
    // Markers

    /** Places the marker for the widget at position `index`, when there is a
        map. */
    method AddMarkerToMap(w: Widget, index: nat)
      modifies this`markers
      ensures markers == old(markers) + (if mapPresent then [MarkerFor(w, index)] else [])
    {
      if !mapPresent {
        return;
      }
      markers := markers + [MarkerFor(w, index)];
    }

    /** Full marker rebuild: without a map nothing happens; with one, all
        markers are removed and one is added per widget, in list order. */
    method RenderMarkers()
      modifies this`markers
      ensures mapPresent ==> AlignedWith(markers, widgets)
      ensures !mapPresent ==> markers == old(markers)
    {
      if !mapPresent {
        return;
      }
      markers := [];
      var i := 0;
      while i < |widgets|
        invariant 0 <= i <= |widgets|
        invariant |markers| == i
        invariant forall k :: 0 <= k < i ==> markers[k] == MarkerFor(widgets[k], k)
      {
        AddMarkerToMap(widgets[i], i);
        i := i + 1;
      }
    }

    /** The marker whose balloon "show on map" opens: the one at the position
        of the first widget with the id, when there is a map. */
    function ShowOnMap(id: int): (balloon: Option<Marker>)
      reads this
      ensures balloon.Some? ==> mapPresent && balloon.value in markers
    {
      var k := IndexOfId(widgets, id);
      if k.None? || !mapPresent then None
      else if k.value < |markers| then Some(markers[k.value])
      else None
    }

    /** Because the markers are aligned with the list, "show on map" opens the
        marker of the very widget asked for, at that widget's coordinates. */
    lemma ShowOnMapOpensOwnMarker(id: int)
      requires Valid() && mapPresent
      ensures IndexOfId(widgets, id).Some? <==> ShowOnMap(id).Some?
      ensures ShowOnMap(id).Some? ==>
                var w := widgets[IndexOfId(widgets, id).value];
                && ShowOnMap(id).value.widgetId == id
                && ShowOnMap(id).value.latitude == w.latitude
                && ShowOnMap(id).value.longitude == w.longitude
    {
    }

    // -------------------------------------------------------------------------
    // Creation

    /** The add button: ignored while a creation is in flight; otherwise the
        inputs are validated and, when they pass, the widget is appended and
        its weather requested. The request's completion is
        CompleteWidgetCreation. */
    method AddNewWidget(latInput: Option<real>, lonInput: Option<real>, id: int) returns (outcome: AddOutcome)
      requires Valid()
      modifies this
      ensures Valid() && mapPresent == old(mapPresent)
      ensures old(isAddingWidget) ==>
                && outcome == Busy && isAddingWidget && pending == old(pending)
                && widgets == old(widgets) && markers == old(markers)
      ensures !old(isAddingWidget) ==>
                var v := ValidateWidgetInputs(old(widgets), latInput, lonInput);
                && (v.Failure? ==>
                      && outcome == Rejected(v.error) && !isAddingWidget
                      && widgets == old(widgets) && markers == old(markers))
                && (v.Success? ==>
                      && outcome == Started(CreateNewWidget(id, v.value.0, v.value.1))
                      && isAddingWidget && pending == Some(outcome.widget)
                      && widgets == old(widgets) + [outcome.widget])
      ensures Separated(old(widgets)) ==> Separated(widgets)
      ensures AllInRange(old(widgets)) ==> AllInRange(widgets)
      ensures WeatherIsTimestamped(old(widgets)) ==> WeatherIsTimestamped(widgets)
    {
      if isAddingWidget {
        return Busy;
      }
      var validation := ValidateWidgetInputs(widgets, latInput, lonInput);
      if validation.Failure? {
        return Rejected(validation.error);
      }
      var (lat, lon) := validation.value;
      outcome := ProcessNewWidget(lat, lon, id);
    }

    /** Raises the single-flight flag and runs the creation up to the point
        where it waits for the weather. */
    method ProcessNewWidget(lat: real, lon: real, id: int) returns (outcome: AddOutcome)
      requires Valid()
      modifies this
      ensures Valid() && mapPresent == old(mapPresent) && isAddingWidget
      ensures outcome == Started(CreateNewWidget(id, lat, lon)) && pending == Some(outcome.widget)
      ensures widgets == old(widgets) + [outcome.widget]
      ensures Separated(old(widgets)) && !IsDuplicateWidget(old(widgets), lat, lon) ==> Separated(widgets)
    {
      isAddingWidget := true;
      var w := ExecuteWidgetCreation(lat, lon, id);
      pending := Some(w);
      AppendedIsLastWithId(old(widgets), w);
      outcome := Started(w);
      if Separated(old(widgets)) && !IsDuplicateWidget(old(widgets), lat, lon) {
        AppendKeepsSeparation(old(widgets), w);
      }
    }

    /** Builds the widget, appends it and redraws the markers. */
    method ExecuteWidgetCreation(lat: real, lon: real, id: int) returns (w: Widget)
      modifies this`widgets, this`markers
      ensures w == CreateNewWidget(id, lat, lon)
      ensures widgets == old(widgets) + [w]
      ensures mapPresent ==> AlignedWith(markers, widgets)
      ensures !mapPresent ==> markers == old(markers)
    {
      w := CreateNewWidget(id, lat, lon);
      AddWidgetToStorage(w);
      RenderMarkers();
    }

    /** Appends the widget to the list (persisting it is not modelled). */
    method AddWidgetToStorage(w: Widget)
      modifies this`widgets
      ensures widgets == old(widgets) + [w]
    {
      widgets := widgets + [w];
    }

    /** The pending creation of widget `id` resumes once its weather request
        settled at time `now`: the outcome is written back to the widget
        created (the last one with the id, if it was not deleted meanwhile),
        the markers are redrawn and the single-flight flag is lowered, whatever
        the outcome. The widget stays listed when the fetch failed. */
    method CompleteWidgetCreation(id: int, fetched: Option<Snapshot>, now: int)
      requires Valid()
      requires isAddingWidget && pending.Some? && pending.value.id == id
      modifies this
      ensures Valid() && !isAddingWidget && pending.None? && mapPresent == old(mapPresent)
      ensures SamePins(old(widgets), widgets)
      ensures LastIndexOfId(old(widgets), id).None? ==> widgets == old(widgets)
      ensures LastIndexOfId(old(widgets), id).Some? ==>
                var k := LastIndexOfId(old(widgets), id).value;
                && SamePin(old(widgets)[k], old(pending).value)
                && widgets == old(widgets)[k := WrittenBack(old(widgets)[k], fetched, now)]
      ensures Separated(old(widgets)) ==> Separated(widgets)
      ensures AllInRange(old(widgets)) ==> AllInRange(widgets)
      ensures WeatherIsTimestamped(old(widgets)) ==> WeatherIsTimestamped(widgets)
    {
      var k := LastIndexOfId(widgets, id);
      if k.Some? {
        UpdateWidgetWeather(k.value, fetched, now);
      }
      RenderMarkers();
      pending := None;
      ResetAddButton();
    }

    /** Lowers the single-flight flag. */
    method ResetAddButton()
      modifies this`isAddingWidget
      ensures !isAddingWidget
    {
      isAddingWidget := false;
    }

    // -------------------------------------------------------------------------
    // Refresh

    /** Writes one fetch outcome, obtained at time `now`, back to the widget at
        position `k`: nothing else in the list changes, and a failed fetch
        changes nothing at all. */
    method UpdateWidgetWeather(k: nat, fetched: Option<Snapshot>, now: int)
      requires k < |widgets|
      requires Valid()
      modifies this`widgets
      ensures Valid()
      ensures widgets == old(widgets)[k := WrittenBack(old(widgets)[k], fetched, now)]
      ensures SamePins(old(widgets), widgets)
      ensures Separated(old(widgets)) ==> Separated(widgets)
      ensures AllInRange(old(widgets)) ==> AllInRange(widgets)
      ensures WeatherIsTimestamped(old(widgets)) ==> WeatherIsTimestamped(widgets)
    {
      WriteBackKeepsInvariants(widgets, k, fetched, now);
      widgets := widgets[k := WrittenBack(widgets[k], fetched, now)];
      if mapPresent {
        SamePinsKeepAlignment(markers, old(widgets), widgets);
      }
      if pending.Some? {
        SamePinsKeepLastWithId(old(widgets), widgets, pending.value);
      }
    }

    /** The refresh button: an unknown id changes nothing; otherwise the first
        widget with the id loses its weather, then gets the fetched one and a
        new timestamp on success, or keeps no weather and its old timestamp on
        failure. The list keeps its length and every other widget. */
    method RefreshWidget(id: int, fetched: Option<Snapshot>, now: int)
      requires Valid()
      modifies this
      ensures Valid() && isAddingWidget == old(isAddingWidget) && mapPresent == old(mapPresent)
      ensures pending == old(pending)
      ensures IndexOfId(old(widgets), id).None? ==> widgets == old(widgets) && markers == old(markers)
      ensures IndexOfId(old(widgets), id).Some? ==>
                var k := IndexOfId(old(widgets), id).value;
                && |widgets| == |old(widgets)|
                && (forall j :: 0 <= j < |widgets| && j != k ==> widgets[j] == old(widgets)[j])
                && SamePin(widgets[k], old(widgets)[k])
                && widgets[k].weatherData == fetched
                && widgets[k].lastUpdated == (if fetched.Some? then Some(now) else old(widgets)[k].lastUpdated)
      ensures Separated(old(widgets)) ==> Separated(widgets)
      ensures AllInRange(old(widgets)) ==> AllInRange(widgets)
      ensures WeatherIsTimestamped(old(widgets)) ==> WeatherIsTimestamped(widgets)
    {
      var k := IndexOfId(widgets, id);
      if k.None? {
        return;
      }
      ClearWeatherKeepsInvariants(widgets, k.value);
      widgets := widgets[k.value := widgets[k.value].(weatherData := None)];
      if mapPresent {
        SamePinsKeepAlignment(markers, old(widgets), widgets);
      }
      if pending.Some? {
        SamePinsKeepLastWithId(old(widgets), widgets, pending.value);
      }
      UpdateWidgetWeather(k.value, fetched, now);
      RenderMarkers();
    }

    /** The startup refresh: every widget stale at `checkedAt` is refreshed
        from its own arrival, each independently of the others; fresh widgets
        keep their cached weather. The markers are rebuilt once at the end. */
    method LoadInitialWeatherData(checkedAt: int, arrivals: seq<Arrival>)
      requires Valid()
      requires |arrivals| == |widgets|
      modifies this
      ensures Valid() && isAddingWidget == old(isAddingWidget) && mapPresent == old(mapPresent)
      ensures pending == old(pending)
      ensures |widgets| == |old(widgets)|
      ensures forall k :: 0 <= k < |widgets| ==>
                widgets[k] == StartupRefreshed(old(widgets)[k], checkedAt, arrivals[k])
      ensures Separated(old(widgets)) ==> Separated(widgets)
      ensures AllInRange(old(widgets)) ==> AllInRange(widgets)
      ensures WeatherIsTimestamped(old(widgets)) ==> WeatherIsTimestamped(widgets)
    {
      var i := 0;
      while i < |widgets|
        invariant 0 <= i <= |widgets| == |old(widgets)|
        invariant Valid()
        invariant isAddingWidget == old(isAddingWidget) && mapPresent == old(mapPresent)
        invariant pending == old(pending)
        invariant forall k :: 0 <= k < i ==>
                    widgets[k] == StartupRefreshed(old(widgets)[k], checkedAt, arrivals[k])
        invariant forall k :: i <= k < |widgets| ==> widgets[k] == old(widgets)[k]
        invariant SamePins(old(widgets), widgets)
        invariant Separated(old(widgets)) ==> Separated(widgets)
        invariant AllInRange(old(widgets)) ==> AllInRange(widgets)
        invariant WeatherIsTimestamped(old(widgets)) ==> WeatherIsTimestamped(widgets)
      {
        if NeedsRefresh(widgets[i], checkedAt) {
          UpdateWidgetWeather(i, arrivals[i].fetched, arrivals[i].at);
        }
        i := i + 1;
      }
      RenderMarkers();
    }

    // -------------------------------------------------------------------------
    // Deletion

    /** Removes every widget with the id, keeping the others in order, and
        rebuilds the markers for the new positions. */
    method DeleteWidget(id: int)
      requires Valid()
      modifies this
      ensures Valid() && isAddingWidget == old(isAddingWidget) && mapPresent == old(mapPresent)
      ensures pending == old(pending)
      ensures widgets == WithoutId(old(widgets), id)
      ensures Separated(old(widgets)) ==> Separated(widgets)
      ensures AllInRange(old(widgets)) ==> AllInRange(widgets)
      ensures WeatherIsTimestamped(old(widgets)) ==> WeatherIsTimestamped(widgets)
    {
      if Separated(widgets) {
        WithoutIdKeepsSeparation(widgets, id);
      }
      WithoutIdKeepsPointwise(widgets, id);
      if pending.Some? {
        WithoutIdKeepsLastWithId(widgets, id, pending.value);
      }
      widgets := WithoutId(widgets, id);
      RenderMarkers();
    }

    /** Empties the list when the user confirmed, and otherwise changes
        nothing. */
    method ClearAllWidgets(confirmed: bool)
      requires Valid()
      modifies this
      ensures Valid() && isAddingWidget == old(isAddingWidget) && mapPresent == old(mapPresent)
      ensures pending == old(pending)
      ensures confirmed ==> widgets == [] && markers == []
      ensures !confirmed ==> widgets == old(widgets) && markers == old(markers)
    {
      if confirmed {
        widgets := [];
        RenderMarkers();
      }
    }
  }
}
