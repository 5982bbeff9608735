/** The weather card of src/components/Weather.jsx: the OpenWeatherMap icon table
    and the `search` handler that turns one API reply into the card's `weatherData`. */
module WeatherCard {
  import opened Wrappers

  /** The local image assets the table can point to. */
  datatype Icon = ClearIcon | CloudIcon | DrizzleIcon | RainIcon | SnowIcon

  /** `allIcons`: fourteen OpenWeatherMap icon codes and their local images. */
  const AllIcons: map<string, Icon> := map[
    "01d" := ClearIcon, "01n" := ClearIcon,
    "02d" := CloudIcon, "02n" := CloudIcon,
    "03d" := CloudIcon, "03n" := CloudIcon,
    "04d" := DrizzleIcon, "04n" := DrizzleIcon,
    "09d" := RainIcon, "09n" := RainIcon,
    "10d" := RainIcon, "10n" := RainIcon,
    "13d" := SnowIcon, "13n" := SnowIcon
  ]

  /** `allIcons[code] || clear_icon`: the listed image, or the clear image for any
      other code. */
  function IconFor(code: string): Icon {
    if code in AllIcons then AllIcons[code] else ClearIcon
  }

  // ---------------------------------------------------------------------------
  // An independent reading of the table: a code is a two-digit condition family
  // followed by 'd' (day) or 'n' (night).

  /** The image of each family the table lists, by the family's two digits. */
  function FamilyIcon(tens: char, units: char): Option<Icon> {
    match (tens, units)
    case ('0', '1') => Some(ClearIcon)
    case ('0', '2') => Some(CloudIcon)
    case ('0', '3') => Some(CloudIcon)
    case ('0', '4') => Some(DrizzleIcon)
    case ('0', '9') => Some(RainIcon)
    case ('1', '0') => Some(RainIcon)
    case ('1', '3') => Some(SnowIcon)
    case _ => None
  }

  /** The code is a listed family with a day or night suffix. */
  predicate IsListedCode(code: string) {
    |code| == 3 && (code[2] == 'd' || code[2] == 'n') && FamilyIcon(code[0], code[1]).Some?
  }

  /** The table holds exactly the listed family codes, each with its family's image;
      every other code, of any length, gets the clear image. */
  lemma IconForByFamily(code: string)
    ensures code in AllIcons <==> IsListedCode(code)
    ensures IconFor(code) == if IsListedCode(code) then FamilyIcon(code[0], code[1]).value else ClearIcon
  {
    if IsListedCode(code) {
      assert code == [code[0], code[1], code[2]];
    }
  }

  /** Day and night codes of one family always show the same image. */
  lemma DayNightAgree(family: string)
    ensures IconFor(family + "d") == IconFor(family + "n")
  {
    IconForByFamily(family + "d");
    IconForByFamily(family + "n");
    if |family| == 2 {
      assert (family + "d")[0] == family[0] == (family + "n")[0];
      assert (family + "d")[1] == family[1] == (family + "n")[1];
    }
  }

  /** The thunderstorm ("11") and mist ("50") codes are not in the table and fall back
      to the clear image. */
  lemma UnlistedFamilies()
    ensures IconFor("11d") == ClearIcon && IconFor("11n") == ClearIcon
    ensures IconFor("50d") == ClearIcon && IconFor("50n") == ClearIcon
  {
    IconForByFamily("11d");
    IconForByFamily("11n");
    IconForByFamily("50d");
    IconForByFamily("50n");
  }

  // ---------------------------------------------------------------------------
  // The `search` handler.

  /** The fields of the parsed JSON reply that `search` reads. `weather` lists the
      `icon` of each element of `data.weather`. */
  datatype Reply = Reply(cod: int, humidity: int, windSpeed: real, temp: real,
                         name: string, weather: seq<string>)

  /** What `fetch` and `response.json()` yield: a thrown error, or a parsed reply. */
  datatype Outcome = Failed | Resp(reply: Reply)

  /** The object `setWeatherData` receives on success. */
  datatype WeatherData = WeatherData(humidity: int, windSpeed: real, temperature: int,
                                     location: string, icon: Icon)

  /** The message a call raises: none, an `alert`, or a `console.error` line. */
  datatype Notice = Quiet | EnterCityAlert | CityNotFoundAlert | ErrorLogged

  /** The effect of one `search` call: whether a request went out, the new
      `weatherData` (`None` stands for `false`), and the message raised. */
  datatype Step = Step(requested: bool, data: Option<WeatherData>, notice: Notice)

  /** The card built from a successful reply; `Math.floor` on the temperature. */
  function Shape(r: Reply): (w: WeatherData)
    requires |r.weather| > 0
    ensures w.humidity == r.humidity && w.windSpeed == r.windSpeed && w.location == r.name
    ensures w.temperature as real <= r.temp < w.temperature as real + 1.0
    ensures w.icon == IconFor(r.weather[0])
  {
    WeatherData(r.humidity, r.windSpeed, r.temp.Floor, r.name, IconFor(r.weather[0]))
  }

  /** `search(city)` on the outcome of its request, from the previous `weatherData`.
      Reading `data.weather[0].icon` when `weather` is empty throws, which lands in
      the `catch` branch. */
  function Search(city: string, outcome: Outcome, prev: Option<WeatherData>): (s: Step)
    ensures s.requested <==> city != ""
    ensures city == "" ==> s.data == prev && s.notice == EnterCityAlert
    ensures city != "" ==> (s.data.Some? <==>
      outcome.Resp? && outcome.reply.cod == 200 && |outcome.reply.weather| > 0)
  {
    if city == "" then Step(false, prev, EnterCityAlert)
    else match outcome
      case Failed => Step(true, None, ErrorLogged)
      case Resp(r) =>
        if r.cod != 200 then Step(true, None, CityNotFoundAlert)
        else if |r.weather| == 0 then Step(true, None, ErrorLogged)
        else Step(true, Some(Shape(r)), Quiet)
  }

  /** A request that goes out never keeps anything of the previous card: the new
      `weatherData` is the same whatever was shown before. */
  lemma SearchReplacesWholesale(city: string, outcome: Outcome,
                                prev1: Option<WeatherData>, prev2: Option<WeatherData>)
    requires city != ""
    ensures Search(city, outcome, prev1).data == Search(city, outcome, prev2).data
  {
  }

  /** The three ways a request can fail, each clearing the card with its own message. */
  lemma SearchFailures(city: string, outcome: Outcome, prev: Option<WeatherData>)
    requires city != ""
    ensures outcome.Failed? ==> Search(city, outcome, prev) == Step(true, None, ErrorLogged)
    ensures outcome.Resp? && outcome.reply.cod != 200 ==>
      Search(city, outcome, prev) == Step(true, None, CityNotFoundAlert)
    ensures outcome.Resp? && outcome.reply.cod == 200 && outcome.reply.weather == [] ==>
      Search(city, outcome, prev) == Step(true, None, ErrorLogged)
  {
  }

  /** A successful search shows exactly the reply's fields, its floored temperature
      and the table image of its first condition code. */
  lemma SearchSuccess(city: string, r: Reply, prev: Option<WeatherData>)
    requires city != "" && r.cod == 200 && |r.weather| > 0
    ensures var s := Search(city, Resp(r), prev);
      s.notice == Quiet && s.data.Some? &&
      s.data.value.humidity == r.humidity && s.data.value.windSpeed == r.windSpeed &&
      s.data.value.location == r.name && s.data.value.icon == IconFor(r.weather[0]) &&
      s.data.value.temperature as real <= r.temp < s.data.value.temperature as real + 1.0
  {
  }

  /** The card component with its `weatherData` state. */
  class Card {
    var weatherData: Option<WeatherData>

    /** `useState(false)`: no card before the first search. */
    constructor ()
      ensures weatherData == None
    {
      weatherData := None;
    }

    /** `search`: an empty city raises an alert and returns before any request;
        otherwise the outcome of the request decides the new state. */
    method SearchCity(city: string, outcome: Outcome) returns (requested: bool, notice: Notice)
      modifies this
      ensures Step(requested, weatherData, notice) == Search(city, outcome, old(weatherData))
    {
      if city == "" {
        return false, EnterCityAlert;
      }
      requested := true;
      if outcome.Failed? {
        weatherData := None;
        return requested, ErrorLogged;
      }
      var data := outcome.reply;
      if data.cod != 200 {
        weatherData := None;
        return requested, CityNotFoundAlert;
      }
      if |data.weather| == 0 {
        weatherData := None;
        return requested, ErrorLogged;
      }
      var icon := IconFor(data.weather[0]);
      weatherData := Some(WeatherData(data.humidity, data.windSpeed, data.temp.Floor, data.name, icon));
      notice := Quiet;
    }
  }
}
