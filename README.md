# Weather widget: icon lookup, search state and background theme

A model of the two pieces of logic in a small React weather widget.

- **The weather card** (`src/components/Weather.jsx`). It has a fourteen-entry
  table from OpenWeatherMap icon codes to local images. Any other code falls back
  to the clear image. Its `search(city)` handler moves the card's `weatherData`
  state:
  - an empty city raises an alert and returns before any request;
  - a reply whose `cod` is not 200 raises "City not found" and clears the card;
  - a thrown error is logged and clears the card;
  - a good reply replaces the card with a five-field record.
- **The page background** (`src/App.jsx`). `handleWeatherChange` lower-cases an
  icon code. It then runs a priority chain of substring tests that picks one of
  seven Tailwind gradient classes for `bgClass`. A missing or empty code leaves
  `bgClass` alone.

`App` hands `handleWeatherChange` to `Weather` as `onWeatherLoad`, but `Weather`
takes no props and never calls it. So in the program as written the background
never leaves its initial gradient. The two pieces are modelled independently.

Files:

- `wrappers.dfy`: `Option`.
- `strings.dfy`: `includes` as `Strings.Contains` and the ASCII part of
  `toLowerCase` as `Strings.ToLower`.
- `weather.dfy` (module `WeatherCard`): the icon table and `search`.
  - `WeatherCard.Search` is the transition as a function.
  - `WeatherCard.Card.SearchCity` is the stateful method on the `weatherData`
    field. It is proved against that function.
- `app.dfy` (module `AppTheme`): the chain as `AppTheme.Classify`, plus the
  `AppTheme.App` class with its `bgClass` field.

The network is a parameter. `fetch` plus `response.json()` is a value of type
`Outcome`: `Failed` for anything that throws, or `Resp(reply)` with the fields
`search` reads. Each partner of an operation is an independent definition:

- the icon table is proved equal to a table of condition families with a day or
  night suffix (`FamilyIcon`);
- the `if / else if` chain is proved equal to an ordered rule table read
  first-match-wins (`Rules`, `FirstMatch`);
- `includes` is proved equal to an explicit "occurs at index i" definition.

Facts about the code that the model keeps as written:

- The icon table has fourteen entries. It has no "11" (thunderstorm) or "50"
  (mist) codes, so those get the clear image.
- The theme chain tests for substrings anywhere in the code, in priority order.
  So "010" is clear, and "x13" is snow.
- `search` rejects only the exact empty string. A city of spaces still sends a
  request.
- Every reply whose `cod` is not 200 is reported as "City not found". Only thrown
  errors are logged, including `data.weather[0]` on an empty `weather` array.
- "04d"/"04n" get the drizzle image in the table but the clouds gradient in the
  theme chain.

## Model

| member | source | states |
|---|---|---|
| `WeatherCard.IconFor` | src/components/Weather.jsx:49 | The lookup of `code` in the fourteen-entry table `AllIcons` (Weather.jsx:16-31), with `clear_icon` as the fallback: the listed image, or the clear image. Its properties are stated by `IconForByFamily`, `DayNightAgree` and `UnlistedFamilies`. |
| `WeatherCard.IconForByFamily` | src/components/Weather.jsx:16-31 | A code is in the table exactly when it is one of the seven families 01, 02, 03, 04, 09, 10, 13 followed by 'd' or 'n'. Such a code gets its family's image: 01 clear, 02/03 cloud, 04 drizzle, 09/10 rain, 13 snow. Every other string gets the clear image. |
| `WeatherCard.DayNightAgree` | src/components/Weather.jsx:16-31 | For any family, the day code and the night code give the same image. |
| `WeatherCard.UnlistedFamilies` | src/components/Weather.jsx:49 | "11d", "11n", "50d" and "50n" are not in the table and fall back to the clear image. |
| `WeatherCard.Shape` | src/components/Weather.jsx:50-56 | The record built from a good reply copies humidity, wind speed and name. Its temperature is the integer t with t <= temp < t + 1. Its icon is the table lookup of the first weather entry's code. |
| `WeatherCard.Search` | src/components/Weather.jsx:33-61 | A request goes out exactly when the city is not the empty string. An empty city keeps the previous `weatherData` and raises the enter-a-city alert. Otherwise a record is shown exactly when the reply parsed, its `cod` is 200 and its `weather` list is non-empty. |
| `WeatherCard.SearchReplacesWholesale` | src/components/Weather.jsx:43-60 | Once a request goes out, the new `weatherData` does not depend on the previous one. Nothing of the old card is merged. |
| `WeatherCard.SearchFailures` | src/components/Weather.jsx:43-60 | A thrown error clears the card and logs. A `cod` other than 200 clears it and raises "City not found". An empty `weather` list throws in the lookup, so it clears the card and logs. |
| `WeatherCard.SearchSuccess` | src/components/Weather.jsx:49-56 | A reply with `cod` 200 and a weather entry raises nothing. It yields a card with the reply's humidity, wind speed and name, the floor of its temperature, and the table image of its first condition code. |
| `WeatherCard.Card.constructor` | src/components/Weather.jsx:14 | The card starts with no weather data (`false`). |
| `WeatherCard.Card.SearchCity` | src/components/Weather.jsx:33-61 | The method's early returns and state writes yield exactly the request flag, new `weatherData` and message that `Search` gives from the old state. |
| `Strings.Contains` | src/App.jsx:15-25 | The `includes` test used by every branch of the chain: the pattern is a prefix of the code or of one of its tails. `ContainsIffOccurs` states what it means. |
| `Strings.ContainsIffOccurs` | src/App.jsx:15-25 | `includes` holds exactly when the pattern occurs at some index of the code, not only at its start. |
| `Strings.ToLower` | src/App.jsx:11 | Lower-casing keeps the length, and maps each character through the ASCII upper-to-lower case mapping. |
| `Strings.ContainsToLower` | src/App.jsx:11-25 | For a pattern without letters, searching the lower-cased string gives the same answer as searching the original. |
| `AppTheme.Classify` | src/App.jsx:15-29 | The `if / else if` chain of `includes` tests, returning one of seven themes. `ClassifyIsFirstMatch`, `ClassifyPriority`, `ClassifyDefaultIff` and `ClassifyCaseInsensitive` state its properties. |
| `AppTheme.Gradient` | src/App.jsx:16-28 | The class string each branch passes to `setBgClass`; the default one equals the initial value `InitialBgClass` (App.jsx:6). `GradientInjective` states that the seven strings are distinct. |
| `AppTheme.ClassifyIsFirstMatch` | src/App.jsx:15-29 | The `if / else if` chain equals the first-match reading of the ordered rule table (clear 01; clouds 02/03/04; rain 09/10; thunderstorm 11; snow 13; mist 50; otherwise default). |
| `AppTheme.ClassifyPriority` | src/App.jsx:15-26 | Rule j decides the theme exactly when the code contains one of rule j's substrings and none of an earlier rule's. |
| `AppTheme.ClassifyDefaultIff` | src/App.jsx:27-29 | The default theme is chosen exactly when the code contains none of the ten substrings. |
| `AppTheme.ClassifyCaseInsensitive` | src/App.jsx:11 | The theme of the lower-cased code equals the theme of the code as given. |
| `AppTheme.GradientInjective` | src/App.jsx:15-29 | The seven themes have seven distinct gradient classes, so each `bgClass` value names exactly one theme. |
| `AppTheme.ClearWinsExample` | src/App.jsx:15-20 | "010" gets the clear gradient although it also contains "10". |
| `AppTheme.SubstringExample` | src/App.jsx:23-24 | "x13" gets the snow gradient: matching is not by prefix. |
| `AppTheme.CloudsExample` | src/App.jsx:17-18 | "04n" gets the clouds gradient. |
| `AppTheme.RainExample` | src/App.jsx:19-20 | "10d" gets the rain gradient. |
| `AppTheme.ThunderstormExample` | src/App.jsx:21-22 | "11d" passes the three earlier rules and gets the thunderstorm gradient. |
| `AppTheme.MistExample` | src/App.jsx:25-26 | "50n" gets the mist gradient from the last rule. |
| `AppTheme.DefaultExample` | src/App.jsx:27-29 | "abc" contains none of the substrings and gets the default gradient. |
| `AppTheme.App.constructor` | src/App.jsx:6 | `bgClass` starts as one of the seven gradients: the default one. |
| `AppTheme.App.HandleWeatherChange` | src/App.jsx:8-30 | A missing or empty code leaves `bgClass` unchanged. Any other code sets `bgClass` to the gradient of the theme of the code as given, whatever its letter case. It keeps `bgClass` one of the seven gradients. |

## Left out

- `fetch`, the request URL, the API key from the environment and
  `response.json()` are not modelled. Their combined result is the `Outcome`
  parameter of `Search`, so the reply does not depend on the city in the model.
- `alert` and `console.error` are recorded only as the kind of message raised
  (`Notice`).
- React plumbing is not modelled: `useState`, `useRef`, `useEffect`, the
  `search("Pune")` call on mount, and all rendering.
- `search` is `async`. Two overlapping calls could finish out of order, and the
  later-finishing one would win. The model runs each call to completion.
- The `Reply` fields are a simplification of JavaScript values:
  - `humidity` is an integer, `windSpeed` a real copied through, and `temp` a
    real floored with `.Floor`;
  - IEEE floating point is not modelled;
  - a reply missing `main` or `wind` throws in the source and is represented by
    `Failed`.
- `cod` is an integer in the model. The source compares it with `!==`, so a
  string `"200"` would count as "City not found"; that case is not represented.
- A `weather` entry without an `icon` field is not modelled. The source would
  look up the key `"undefined"` and show the clear image.
- The table is a finite map. Inherited object keys such as `"toString"` would
  be truthy in the source lookup, and that quirk is not modelled.
- `toLowerCase` is modelled on ASCII letters only. Every pattern the chain
  searches for is a pair of digits, and no case mapping produces or removes a
  digit, so the choice cannot change a theme.
- `weatherCode?.toString()` on a non-string value is not modelled. The input is
  an `Option<string>`.
- `Footer.jsx` holds static markup and the current year; it is not modelled.
- Recent searches, air quality, forecasts, unit toggling and geolocation are not
  part of this model. None of them exists in the source files.
