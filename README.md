# OpenWeatherMap client, modelled in Dafny

This project models the core of a small Go client for the OpenWeatherMap
web API. The client checks its arguments, builds request URLs for three
endpoints, and post-processes the decoded responses. The model covers the
following endpoints and steps:

- current weather (`/data/2.5/weather`);
- geocoding (`/geo/1.0/direct`);
- the one-call forecast (`/data/2.5/onecall`), including its `exclude` filter
  of time frames;
- the one-line summary that `Conditions` prints, for example
  `overcast clouds, 9.21 C, humidity 46%`.

Files:

- `calls.dfy` (module `Calls`) holds the values that cross the client's
  boundary:
  - the client's errors and their texts;
  - `Result`;
  - the HTTP transport and the JSON decoder, as plain function types;
  - `Exchange`, a result paired with the list of URLs that the HTTP
    client's `Get` was called with, in order. An empty list means `Get` was
    never called, so nothing went out on the network.
- `text.dfy` (module `Text`) holds the string functions the client uses from
  Go's standard library:
  - `strings.ToLower`, for every character whose lower-case form is ASCII,
    with an explicit description of the spellings it maps to each letter;
  - `strings.TrimSpace`, with `unicode.IsSpace`'s set of white-space
    characters;
  - `strings.Join` on one separator character, with splitting as its inverse;
  - `%d` formatting of an integer, with parsing as its inverse.
- `openweather.dfy` (module `OpenWeather`) models `openweather.go`:
  - `NewClient` and `validUnit`;
  - `Current`, `GeocodeData` and `OneCallData`, with their argument checks in
    the source's order and their URLs built by plain concatenation with no
    escaping;
  - the time-frame filter, written as a loop in `OneCallData` and proved equal
    to the function `TimeFramesToExclude`;
  - the post-parse rules of `DecodeCurrent`, `DecodeGeoData` and
    `DecodeOneCallDailyData`.

  It also defines `QueryParams`, which gives the parameters a server reads
  from a URL: the fragment from the first `#` on is not sent, and the rest
  of the query is cut at `&`. It is used to prove that each request carries
  exactly the intended parameters.
- `weather.dfy` (module `Weather`) models `weather.go`:
  - the unit-letter map;
  - the choice and trimming of the description;
  - the layout of the summary line;
  - `Conditions` as a pipeline that returns the first error it meets
    unchanged.

## Model

| member | source | states |
|---|---|---|
| Calls.FixedMessagesDistinct | openweather.go:14-30 | The fixed errors are told apart by their texts: two of them have the same text only when they are the same error. This covers the texts at lines 14, 15 and 30, and also at openweather.go:189 and openweather.go:228. |
| OpenWeather.NewClient | openweather.go:28-39 | Fails exactly when the key is empty, with the fixed error. Otherwise it returns a client with that key and the public base URL. |
| OpenWeather.ValidUnit | openweather.go:241-244 | A valid unit is as long as one of the unit names, 6 or 8 characters. |
| OpenWeather.ValidUnitIsCaseInsensitive | openweather.go:241-244 | A unit is valid exactly when it spells `standard`, `metric` or `imperial` with each letter in any of its spellings: the letter, its ASCII capital, or U+0130 for `i`. Both directions are proved. |
| OpenWeather.ValidUnitAcceptsAnyCase | openweather.go:241-244 | `METRIC`, `Metric`, `imperial` and `İmperial` are accepted. |
| OpenWeather.ValidUnitRefusesOthers | openweather.go:241-244 | An unknown word, a phrase and the empty string are refused. |
| OpenWeather.UnitNameIsLower | openweather.go:243 | The three unit names are lower-case letters only, and their own lower-case form. |
| OpenWeather.ValidUnitHasNoDelimiter | openweather.go:241-244 | A valid unit contains no `&`, `?` or `#`, so it always stays one query parameter. |
| OpenWeather.Kept | openweather.go:110-113 | One token contributes at most one entry, and that entry is a time frame as long as the token. |
| OpenWeather.TimeFramesToExclude | openweather.go:108-114 | The filtered list is never longer than the requested one. |
| OpenWeather.TimeFramesToExcludeAreTimeFrames | openweather.go:108-114 | Every kept entry is one of `current`, `minutely`, `hourly`, `daily` or `alerts`. |
| OpenWeather.TimeFramesToExcludeAppend | openweather.go:108-114 | Filtering a concatenation is the concatenation of the filtered parts, so input order is kept and every token is treated on its own. |
| OpenWeather.TimeFramesToExcludeSingle | openweather.go:109-113 | A single token is kept in lower case exactly when its lower-case form is a time frame. Otherwise it is dropped. |
| OpenWeather.TimeFramesToExcludeCons | openweather.go:108-114 | Filtering a token followed by a list gives that token's contribution followed by the filtered list. |
| OpenWeather.TimeFramesToExcludeMembers | openweather.go:108-114 | A string is on the list exactly when it is a time frame and the lower-cased form of some requested token. |
| OpenWeather.TimeFramesToExcludeIdempotent | openweather.go:108-114 | Filtering an already filtered list changes nothing. Duplicates are kept. |
| OpenWeather.TimeFrameNamesAreLower | openweather.go:111 | The time-frame names are lower-case letters only, and their own lower-case form. |
| OpenWeather.KeptTimeFrame | openweather.go:110-113 | A time frame written in lower case is kept as it is. |
| OpenWeather.KeptIffSpelledAlike | openweather.go:110-113 | A token is kept as a given time frame exactly when it spells that frame, each letter in any of its spellings. |
| OpenWeather.KeptCapitals | openweather.go:110-113 | `DAİLY` is kept as `daily`, and `Minutely` as `minutely`. |
| OpenWeather.KeptDropsOthers | openweather.go:110-113 | `week` is dropped. |
| OpenWeather.TimeFramesToExcludeExample | openweather.go:108-114 | The tokens `ignored`, `current`, `ignored`, `minutely`, `hourly`, `alerts`, `yearly-ignored` filter to `current`, `minutely`, `hourly`, `alerts`: unknown words are dropped and the order is kept. |
| OpenWeather.TimeFramesToExcludeOfSeven | openweather.go:108-114 | Filtering seven tokens gives each token's contribution in turn, in request order. |
| OpenWeather.KeptIgnored | openweather.go:110-113 | `ignored` is dropped. |
| OpenWeather.KeptYearly | openweather.go:110-113 | `yearly-ignored` is dropped. |
| OpenWeather.ExcludeSuffix | openweather.go:115-118 | The suffix is empty exactly when no time frame is left. Otherwise it starts with `&exclude=`. |
| OpenWeather.BytesText | openweather.go:162 | The `%+v` text of a byte slice is bracketed, and it is `[]` for no bytes. |
| OpenWeather.DecodeCurrent | openweather.go:157-166 | Succeeds exactly when decoding succeeds, with the decoded value. Otherwise the error text has the input bytes printed in `%+v` form and the decoder's message. |
| OpenWeather.DecodeGeoData | openweather.go:182-193 | Succeeds exactly when decoding yields a non-empty list, and returns its first element unchanged. An empty list gives the fixed no-location error, and a decoding failure is wrapped. |
| OpenWeather.DecodeOneCallDailyData | openweather.go:226-237 | Empty input is refused before decoding. Otherwise it succeeds exactly when decoding does, and returns the daily list unchanged, even when that list is empty. |
| OpenWeather.Get | openweather.go:58-68 | The HTTP client's `Get` is called exactly once, with the given URL. A body becomes the result. A failed GET is reported with its URL, and a failed read with its own prefix. |
| OpenWeather.Client.CurrentURL | openweather.go:57 | The URL starts with the base URL, the current-weather path and `?`, and ends with `appid=` and the key. |
| OpenWeather.Client.Current | openweather.go:49-69 | An empty location is refused first, even when the units are also invalid. Invalid units are refused next. Neither refusal calls the HTTP client. Otherwise its `Get` is called once, with the current-weather URL. |
| OpenWeather.Client.GeocodeURL | openweather.go:81 | The URL starts with the base URL, the geocoding path and `?`, and ends with `appid=` and the key. |
| OpenWeather.Client.GeocodeData | openweather.go:76-93 | An empty location is refused with no request. Otherwise there is one GET of the geocoding URL. |
| OpenWeather.Client.OneCallBaseURL | openweather.go:120-121 | The URL starts with the base URL, the one-call path and `?`, and ends with `appid=` and the key. |
| OpenWeather.Client.OneCallURL | openweather.go:115-121 | The one-call URL extends the URL up to the key, and equals it exactly when there is nothing to exclude. |
| OpenWeather.Client.OneCallData | openweather.go:103-133 | Invalid units are refused with no request. Otherwise the loop builds exactly `TimeFramesToExclude(exclude)`, and one GET of the one-call URL for that list is made. |
| OpenWeather.CurrentQuery | openweather.go:57 | The current-weather URL carries exactly `q=location`, `units=units` and `appid=key`, in that order. This holds when neither the location nor the key contains `&` or `#`. |
| OpenWeather.CurrentURLJoin | openweather.go:57 | The current-weather URL is its path, `?`, and `q=location`, `units=units` and `appid=key` joined by `&`. |
| OpenWeather.GeocodeURLJoin | openweather.go:81 | The geocoding URL is its path, `?`, and `q=location`, `limit=1` and `appid=key` joined by `&`. |
| OpenWeather.CurrentQueryCutAtFragment | openweather.go:57-58 | When the location contains `#`, the query part of the URL before the fragment is only `q=` and the location up to the `#`. The units and the key are in the fragment, which is never sent. |
| OpenWeather.GeocodeQuery | openweather.go:81 | The geocoding URL carries exactly `q=location`, `limit=1` and `appid=key`. This holds when neither the location nor the key contains `&` or `#`. |
| OpenWeather.OneCallBaseURLShape | openweather.go:120-121 | Up to the key, the one-call URL is its path, `?`, and the coordinates, the units and the key joined by `&`. |
| OpenWeather.TimeFrameHasNoDelimiter | openweather.go:111 | A time-frame name contains no `,`, `&` or `#`. |
| OpenWeather.TimeFramesHaveNoDelimiter | openweather.go:108-117 | No entry of the filtered list contains `,`, `&` or `#`. |
| OpenWeather.ExcludeParamHasNoDelimiter | openweather.go:117 | The `exclude=` parameter contains no `&` and no `#` as long as no time frame does. |
| OpenWeather.OneCallQueryNoExclude | openweather.go:115-121 | With nothing to exclude, the one-call URL carries exactly the four fixed parameters. |
| OpenWeather.OneCallQueryWithExclude | openweather.go:115-121 | With time frames to exclude, the four fixed parameters come first, followed by `exclude=` and the frames joined by commas. |
| OpenWeather.OneCallQuery | openweather.go:104-121 | For valid units, the `exclude` parameter appears only when the filtered list is non-empty and comes last. Its comma-separated value splits back into exactly that list. |
| Text.ToLowerIffSpelledAs | openweather.go:242 | A string lower-cases to a lower-case word exactly when it spells that word, each letter as itself, its ASCII capital, or U+0130 for `i` and U+212A for `k`. |
| Text.LowerCharToLetter | openweather.go:242 | The characters that lower-case to a given letter are exactly its spellings. |
| Text.TrimSpaceSplits | weather.go:43 | Every string is white space, then its trimmed form, then white space. |
| Text.TrimSpaceOfPadded | weather.go:43 | Trimming a string with no white space at either end, padded with white space, gives that string back. This makes the trimmed form unique. |
| Text.TrimSpaceIdempotent | weather.go:43 | Trimming twice is trimming once. |
| Text.TrimSpaceIgnoresTrailingSpace | weather.go:39-43 | Appending white space before trimming changes nothing, so the space added after the description disappears. |
| Text.SplitJoin | openweather.go:117 | Splitting at the separator undoes joining, provided there is at least one piece and none contains the separator. |
| Text.JoinSplit | openweather.go:117 | Joining undoes splitting, for every string. |
| Text.ItoaRoundTrip | weather.go:42-45 | The decimal text of any integer parses back to that integer, negative values included. |
| Weather.TemperatureInitial | weather.go:41 | The letter is empty exactly when the units string is not a key of the map. |
| Weather.TemperatureInitialFound | weather.go:10-14 | A letter is found exactly for valid units written without capitals. `standard` gives `K`, `metric` gives `C` and `imperial` gives `F`. |
| Weather.MixedCaseUnitHasNoInitial | weather.go:41 | `Metric` passes unit validation but gets no letter. |
| Weather.Description | weather.go:37-43 | The description has no white space at either end. |
| Weather.DescriptionOf | weather.go:37-43 | The description is the first summary trimmed, and empty when there is no summary. |
| Weather.Report | weather.go:42-45 | The summary line adds exactly 15 characters of fixed text to the description, the temperature, the letter and the humidity. |
| Weather.ReportSplits | weather.go:42-45 | Cut at its commas, the line gives back three pieces: the description, the temperature with its letter, and the humidity with `%`. This holds when the description, the temperature text and the letter contain no comma. |
| Weather.ReportReadsBack | weather.go:42-45 | The line starts with the description and `, `, ends with `%`, and the humidity parses back from just before the `%`. |
| Weather.Conditions | weather.go:24-46 | An empty key fails before any request. Otherwise the requests are those of `Current`, and an error from `Current` or from decoding is returned unchanged. A success is the summary line of the decoded response. |
| Weather.ConditionsRequests | weather.go:25-32 | The HTTP client is not called exactly when the key or the location is empty or the units are invalid. Otherwise its `Get` is called exactly once, with the current-weather URL at the public API. |
| Weather.ConditionsCheckOrder | weather.go:25-32 | The key is checked first, then the location, then the units. |
| Weather.ConditionsWithoutSummary | weather.go:37-43 | With no summary in the response, the line starts with `, `. |
| Weather.ConditionsSucceeds | weather.go:29-45 | When the checks pass, the request returns a body and the body decodes, the result is the summary line of the decoded response. |
| Weather.ConditionsExample | weather.go:37-45 | `overcast clouds` at 9.21 with 46% humidity, in metric units, reads `overcast clouds, 9.21 C, humidity 46%`. |

## Left out

- The HTTP transport is a function parameter, `Transport`, from a URL to a body or a failure. This covers `HTTPClient.Get`, `ioutil.ReadAll` and `resp.Body.Close`. Time-outs, retries and connection reuse are not modelled.
- `json.Unmarshal` is a function parameter, `Decoder`, from bytes to a value or an error message. The JSON field names and the decoding itself are not modelled.
- Go's `%.2f` formatting of float64 values is a function parameter, `fixed2`. Float64 values are modelled as `real`, and rounding is not reasoned about.
- `NewClient` sets a 10-second timeout on the shared `http.DefaultClient`. This global side effect is not modelled. The client has no HTTP-client field, and each call receives the transport instead.
- `cli.go` and `cmd/weather/main.go` are not part of this model. They handle environment lookup, flag parsing, printing and the process entry point.
- Text.ToLower: only characters whose lower-case form is ASCII are lowered: the ASCII capitals, U+0130 (to `i`) and U+212A (to `k`). Other characters, such as `À`, keep their case, while Go lowers them. Every use compares the result with an ASCII name, and a character whose lower-case form is not ASCII can never match one. So which units are valid and which time frames are kept is the same as in Go.
- OpenWeather.Get: Go's `HTTPClient.Get` parses the URL before anything is sent. A URL it cannot parse, such as one with a control character or a malformed `%`-escape, fails inside the call and nothing reaches the network. In the model that case arrives from the transport as `GetFailed`, and the URL is still listed in `requests`, which records the calls of `Get`, not what was sent.
- Strings: Go strings are bytes, while the model's strings are sequences of Unicode characters. Invalid UTF-8 cannot be written, and lengths count characters, not bytes. So the lengths in the contracts of `OpenWeather.Kept` and `OpenWeather.ValidUnit` are character counts: `DAİLY` has 5 characters but 6 bytes.
- OpenWeather.QueryParams: only the fragment cut at `#`, the `?` and the `&` separators are modelled. Percent-decoding, `+` as a space and the other rules of URL parsing are not.
- OpenWeather.CurrentQuery: stated only when the location and the key contain no `&` and no `#`, and the base URL no `?` and no `#`. A `#` in the location is covered by CurrentQueryCutAtFragment. An `&` anywhere, or a `#` in the key, is not stated.
- OpenWeather.GeocodeQuery: stated only when the location and the key contain no `&` and no `#`, and the base URL no `?` and no `#`.
- OpenWeather.OneCallQuery: stated only when the coordinates' text and the key contain no `&` and no `#`, and the base URL no `?` and no `#`.
- OpenWeather.ValidUnit: its own contract gives only the length. Which strings are valid is stated by ValidUnitIsCaseInsensitive.
- Text.Split: only the one-character separators the client uses (`&` and `,`) are modelled, not Go's general `strings.Split`.
- OpenWeather.DecodeCurrent: the bytes are printed the way `%+v` prints a byte slice, and the decoder's message is taken as given.
- OpenWeather.Client.OneCallData: the coordinates enter the URL through the given `fixed2` function. Nothing is proved about their text.
- Weather.Report: Go's `int` is modelled as an unbounded integer, so 64-bit overflow of the humidity is not modelled.
- OpenWeather.OneCallDayForecast: the `dt` field is a `uint64` newtype, but no arithmetic is done on it.
