/** Call sequences on a freshly constructed application object, each stating
    one documented behaviour end to end as a postcondition. The clock and the
    provider's answers are fixed values. */
module Scenarios {
  import opened Wrappers
  import opened Weather
  import opened Widgets
  import opened App

  /** Creating a widget at (56.8389, 60.6057) while the provider reports code 0
      and 21.4 degrees stores clear sky, 21 degrees and the arrival time, which
      is not before the creation time used as the id. */
  method ClearSkyCreation() returns (count: nat, w: Widget)
    ensures count == 1
    ensures w.weatherData.Some? && w.weatherData.value.description == "Ясно"
    ensures w.weatherData.value.temperature == 21
    ensures w.lastUpdated.Some? && w.lastUpdated.value >= w.id
  {
    var app := new WeatherApp(Absent);
    var started := app.AddNewWidget(Some(56.8389), Some(60.6057), 1000);
    var snapshot := FormatWeatherData(Current(21.4, 40.0, 3.0, 0));
    app.CompleteWidgetCreation(1000, Some(snapshot), 1500);
    count := |app.widgets|;
    w := app.widgets[0];
  }

  /** A second pin within 0.001 degrees on both axes of a stored one is
      rejected as a duplicate, and the list still holds one widget. */
  method DuplicateRejected() returns (second: AddOutcome, count: nat)
    ensures second == Rejected(DuplicateWidget)
    ensures count == 1
  {
    var app := new WeatherApp(Absent);
    var first := app.AddNewWidget(Some(56.8389), Some(60.6057), 1000);
    app.CompleteWidgetCreation(1000, None, 1500);
    second := app.AddNewWidget(Some(56.8390), Some(60.6058), 2000);
    count := |app.widgets|;
  }

  /** While the first creation waits for its weather, a second add, even of a
      valid and distinct pin, does nothing; once the first settles (here with a
      failed fetch) the flag is down and the first widget is still listed. */
  method SecondAddWhileInFlight() returns (second: AddOutcome, countDuring: nat, countAfter: nat, adding: bool)
    ensures second == Busy
    ensures countDuring == 1 && countAfter == 1
    ensures !adding
  {
    var app := new WeatherApp(Absent);
    var first := app.AddNewWidget(Some(56.8389), Some(60.6057), 1000);
    second := app.AddNewWidget(Some(55.7558), Some(37.6173), 1001);
    countDuring := |app.widgets|;
    app.CompleteWidgetCreation(1000, None, 1500);
    countAfter := |app.widgets|;
    adding := app.isAddingWidget;
  }

  /** A refresh whose fetch fails leaves the widget without weather but with
      its previous timestamp: the two fields are not kept in lock-step. */
  method FailedRefreshKeepsTimestamp() returns (count: nat, w: Widget)
    ensures count == 1
    ensures w.weatherData.None? && w.lastUpdated == Some(1500)
  {
    var app := new WeatherApp(Absent);
    var first := app.AddNewWidget(Some(56.8389), Some(60.6057), 1000);
    var snapshot := FormatWeatherData(Current(21.4, 40.0, 3.0, 0));
    app.CompleteWidgetCreation(1000, Some(snapshot), 1500);
    app.RefreshWidget(1000, None, 9000);
    count := |app.widgets|;
    w := app.widgets[0];
  }

  /** At startup three stale widgets are refreshed and the second fetch fails:
      the other two still get their weather, and the list keeps all three. */
  method StartupWithOneFailure() returns (count: nat, a: Widget, b: Widget, c: Widget)
    ensures count == 3
    ensures a.weatherData.Some? && b.weatherData.None? && c.weatherData.Some?
  {
    var stored := [
      Widget(1, 56.8389, 60.6057, None, None),
      Widget(2, 55.7558, 37.6173, None, Some(0)),
      Widget(3, 59.9343, 30.3351, None, None)];
    var app := new WeatherApp(Saved(stored));
    var snapshot := FormatWeatherData(Current(5.0, 80.0, 2.0, 61));
    app.LoadInitialWeatherData(5000, [Arrival(Some(snapshot), 5100), Arrival(None, 5200), Arrival(Some(snapshot), 5300)]);
    count := |app.widgets|;
    a, b, c := app.widgets[0], app.widgets[1], app.widgets[2];
  }
}
