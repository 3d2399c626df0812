/** The weather provider adapter: the fixed condition-code table, the icon
    file table and the formatting of the provider's `current` block into the
    snapshot a widget stores. The HTTP request itself is not modelled: its
    outcome reaches the application as an `Option<Snapshot>`. */
module Weather {

  /** The formatted reading a widget stores as its `weatherData`. */
  datatype Snapshot = Snapshot(
    temperature: int,
    description: string,
    humidity: real,
    windSpeed: real,
    icon: string)

  /** The `current` block of the provider's answer, already decoded. */
  datatype Current = Current(
    temperature2m: real,
    relativeHumidity2m: real,
    windSpeed10m: real,
    weatherCode: int)

  /** One entry of the condition-code table. */
  datatype Info = Info(description: string, icon: string)

  /** The entry for every code the table does not list. */
  const UNKNOWN_INFO: Info := Info("Неизвестно", "wind")

  /** The 18 condition codes the table lists. */
  const KNOWN_CODES: set<int> :=
    {0, 1, 2, 3, 45, 48, 51, 61, 63, 71, 73, 75, 82, 85, 86, 95, 96, 99}

  /** The icon categories that have an image file of their own. */
  const ICON_TYPES: set<string> :=
    {"clear", "partly_cloudy", "cloudy", "fog", "light_rain", "rain", "snow", "thunderstorm"}

  /** The icon file table, with its `default` entry. */
  const ICON_FILES: map<string, string> := map[
    "clear" := "clear.png",
    "partly_cloudy" := "partly_cloudy.png",
    "cloudy" := "cloudy.png",
    "fog" := "fog.png",
    "light_rain" := "light_rain.png",
    "rain" := "rain.png",
    "snow" := "snow.png",
    "thunderstorm" := "thunderstorm.png",
    "default" := "wind.png"]

  /** The condition-code table: a listed code gets its own entry, whose icon
      category has an image file; any other code gets the unknown entry. */
  function WeatherInfo(code: int): (info: Info)
    ensures code in KNOWN_CODES ==> info.icon in ICON_TYPES
    ensures code !in KNOWN_CODES ==> info == UNKNOWN_INFO
  {
    match code
    case 0 => Info("Ясно", "clear")
    case 1 => Info("Преимущественно ясно", "clear")
    case 2 => Info("Переменная облачность", "partly_cloudy")
    case 3 => Info("Пасмурно", "cloudy")
    case 45 => Info("Туман", "fog")
    case 48 => Info("Туман с изморозью", "fog")
    case 51 => Info("Легкая морось", "light_rain")
    case 61 => Info("Небольшой дождь", "light_rain")
    case 63 => Info("Умеренный дождь", "rain")
    case 71 => Info("Небольшой снег", "snow")
    case 73 => Info("Умеренный снег", "snow")
    case 75 => Info("Сильный снег", "snow")
    case 82 => Info("Сильный ливень", "rain")
    case 85 => Info("Небольшой снегопад", "snow")
    case 86 => Info("Сильный снегопад", "snow")
    case 95 => Info("Гроза", "thunderstorm")
    case 96 => Info("Гроза с небольшим градом", "thunderstorm")
    case 99 => Info("Гроза с сильным градом", "thunderstorm")
    case _ => UNKNOWN_INFO
  }

  /** The icon file for an icon category: a category with a file of its own
      is shown by the file named after it, anything else by `wind.png`. */
  function WeatherIcon(weatherType: string): (file: string)
    ensures weatherType in ICON_TYPES ==> file == weatherType + ".png"
    ensures weatherType !in ICON_TYPES ==> file == "wind.png"
  {
    if weatherType in ICON_FILES then ICON_FILES[weatherType] else ICON_FILES["default"]
  }

  /** `Math.round`: the nearest integer, ties rounded towards +infinity. */
  function Round(x: real): (n: int)
    ensures x - 0.5 < n as real <= x + 0.5
  {
    (x + 0.5).Floor
  }

  /** Turns the provider's `current` block into a snapshot. The temperature is
      rounded to the nearest degree, humidity and wind pass through unrounded,
      and the description and icon come from the condition-code table: a known
      code shows an icon of its own, an unknown one the wind icon. */
  function FormatWeatherData(current: Current): (s: Snapshot)
    ensures current.temperature2m - 0.5 < s.temperature as real <= current.temperature2m + 0.5
    ensures s.humidity == current.relativeHumidity2m && s.windSpeed == current.windSpeed10m
    ensures Info(s.description, s.icon) == WeatherInfo(current.weatherCode)
    ensures current.weatherCode in KNOWN_CODES <==> WeatherIcon(s.icon) != "wind.png"
  {
    var info := WeatherInfo(current.weatherCode);
    Snapshot(
      Round(current.temperature2m),
      info.description,
      current.relativeHumidity2m,
      current.windSpeed10m,
      info.icon)
  }

  /** Code 0 is clear sky, shown with the clear icon. */
  lemma ClearSkyEntry()
    ensures WeatherInfo(0) == Info("Ясно", "clear")
    ensures WeatherIcon(WeatherInfo(0).icon) == "clear.png"
  {
  }

  /** The table groups the codes by icon category: each category is shown for
      exactly these codes. */
  lemma IconCategoryOfCode(code: int)
    ensures WeatherInfo(code).icon == "clear" <==> code in {0, 1}
    ensures WeatherInfo(code).icon == "partly_cloudy" <==> code == 2
    ensures WeatherInfo(code).icon == "cloudy" <==> code == 3
    ensures WeatherInfo(code).icon == "fog" <==> code in {45, 48}
    ensures WeatherInfo(code).icon == "light_rain" <==> code in {51, 61}
    ensures WeatherInfo(code).icon == "rain" <==> code in {63, 82}
    ensures WeatherInfo(code).icon == "snow" <==> code in {71, 73, 75, 85, 86}
    ensures WeatherInfo(code).icon == "thunderstorm" <==> code in {95, 96, 99}
    ensures WeatherInfo(code).icon == "wind" <==> code !in KNOWN_CODES
  {
  }

  /** A reading of 21.4 degrees is stored as 21, and -2.5 as -2. */
  lemma RoundingExamples()
    ensures Round(21.4) == 21
    ensures Round(-2.5) == -2
  {
  }
}
