/** The OpenWeatherMap API client: argument checks, request URLs for the
    current-weather, geocoding and one-call endpoints, and what is done
    with the decoded responses. */
module OpenWeather {
  import opened Text
  import opened Calls

  const DefaultBaseURL: string := "https://api.openweathermap.org"

  // -----------------------------------------------------------------------
  // Units and time frames
  // -----------------------------------------------------------------------

  /** validUnit: the lower-cased argument is one of the three unit names,
      so it is as long as one of them. */
  predicate ValidUnit(u: string): (ok: bool)
    ensures ok ==> |u| == 6 || |u| == 8
  {
    var l := ToLower(u);
    l == "standard" || l == "metric" || l == "imperial"
  }

  /** The unit names are written in lower-case letters. */
  lemma UnitNameIsLower(u: string)
    requires u == "standard" || u == "metric" || u == "imperial"
    ensures LowerLetters(u) && ToLower(u) == u
  {
    assert LowerLetters(u) by {
      if u == "standard" {
      } else if u == "metric" {
      }
    }
    ToLowerFixes(u);
  }

  /** validUnit accepts exactly the strings that spell one of the three
      unit names, each letter in any of its spellings, in both
      directions. */
  lemma ValidUnitIsCaseInsensitive(u: string)
    ensures ValidUnit(u) <==>
      SpelledAs(u, "standard") || SpelledAs(u, "metric") || SpelledAs(u, "imperial")
  {
    assert ValidUnit(u) <==> ToLower(u) == "standard" || ToLower(u) == "metric" || ToLower(u) == "imperial";
    assert ToLower(u) == "standard" <==> SpelledAs(u, "standard") by {
      UnitNameIsLower("standard");
      ToLowerIffSpelledAs(u, "standard");
    }
    assert ToLower(u) == "metric" <==> SpelledAs(u, "metric") by {
      UnitNameIsLower("metric");
      ToLowerIffSpelledAs(u, "metric");
    }
    assert ToLower(u) == "imperial" <==> SpelledAs(u, "imperial") by {
      UnitNameIsLower("imperial");
      ToLowerIffSpelledAs(u, "imperial");
    }
  }

  /** Upper-case and mixed-case spellings are accepted, including a
      capital I with a dot above. */
  lemma ValidUnitAcceptsAnyCase(upper: string, mixed: string, lower: string, dotted: string)
    requires upper == "METRIC" && mixed == "Metric" && lower == "imperial" && dotted == "\U{0130}mperial"
    ensures ValidUnit(upper) && ValidUnit(mixed) && ValidUnit(lower) && ValidUnit(dotted)
  {
    assert ValidUnit(upper) by {
      ValidUnitIsCaseInsensitive(upper);
    }
    assert ValidUnit(mixed) by {
      ValidUnitIsCaseInsensitive(mixed);
    }
    assert ValidUnit(lower) by {
      ValidUnitIsCaseInsensitive(lower);
    }
    assert ValidUnit(dotted) by {
      ValidUnitIsCaseInsensitive(dotted);
    }
  }

  /** Other words, and the empty string, are refused. */
  lemma ValidUnitRefusesOthers()
    ensures !ValidUnit("martian") && !ValidUnit("not a unit") && !ValidUnit("")
  {
    assert !ValidUnit("martian") by {
      ValidUnitIsCaseInsensitive("martian");
    }
    assert !ValidUnit("not a unit") by {
      ValidUnitIsCaseInsensitive("not a unit");
    }
    assert !ValidUnit("") by {
      ValidUnitIsCaseInsensitive("");
    }
  }

  /** A valid unit contains none of the characters that delimit a query
      string, so it always stays one query parameter. */
  lemma ValidUnitHasNoDelimiter(u: string)
    requires ValidUnit(u)
    ensures '&' !in u && '?' !in u && '#' !in u
  {
    if '&' in u {
      var i :| 0 <= i < |u| && u[i] == '&';
      ToLowerAt(u, i);
    }
    if '?' in u {
      var i :| 0 <= i < |u| && u[i] == '?';
      ToLowerAt(u, i);
    }
    if '#' in u {
      var i :| 0 <= i < |u| && u[i] == '#';
      ToLowerAt(u, i);
    }
  }

  /** The time frames the one-call endpoint can leave out of its response. */
  predicate IsTimeFrame(tf: string) {
    tf == "current" || tf == "minutely" || tf == "hourly" || tf == "daily" || tf == "alerts"
  }

  /** What one requested token contributes to the exclude list: its
      lower-case form if that is a time frame, otherwise nothing. */
  function Kept(tf: string): (r: seq<string>)
    ensures |r| <= 1
    ensures r != [] ==> IsTimeFrame(r[0]) && |r[0]| == |tf|
  {
    var l := ToLower(tf);
    if IsTimeFrame(l) then [l] else []
  }

  /** The time frames to exclude, in the order requested, duplicates kept,
      unrecognised tokens dropped. */
  function TimeFramesToExclude(exclude: seq<string>): (r: seq<string>)
    ensures |r| <= |exclude|
  {
    if exclude == [] then []
    else TimeFramesToExclude(exclude[..|exclude| - 1]) + Kept(exclude[|exclude| - 1])
  }

  /** Everything on the exclude list is a time frame. */
  lemma {:induction false} TimeFramesToExcludeAreTimeFrames(exclude: seq<string>)
    ensures forall i :: 0 <= i < |TimeFramesToExclude(exclude)| ==> IsTimeFrame(TimeFramesToExclude(exclude)[i])
    decreases |exclude|
  {
    if exclude != [] {
      TimeFramesToExcludeAreTimeFrames(exclude[..|exclude| - 1]);
    }
  }

  /** Filtering distributes over concatenation: the filter keeps the input
      order and treats every token on its own. */
  lemma {:induction false} TimeFramesToExcludeAppend(a: seq<string>, b: seq<string>)
    ensures TimeFramesToExclude(a + b) == TimeFramesToExclude(a) + TimeFramesToExclude(b)
    decreases |b|
  {
    if b == [] {
      assert a + b == a;
    } else {
      var init, last := b[..|b| - 1], b[|b| - 1];
      assert (a + b)[..|a + b| - 1] == a + init;
      assert (a + b)[|a + b| - 1] == last;
      TimeFramesToExcludeAppend(a, init);
    }
  }

  /** One token on its own is kept, lower-cased, exactly when it names a
      time frame in some spelling. */
  lemma TimeFramesToExcludeSingle(tf: string)
    ensures TimeFramesToExclude([tf]) ==
      if IsTimeFrame(ToLower(tf)) then [ToLower(tf)] else []
  {
    assert [tf][..0] == [];
  }

  lemma TimeFramesToExcludeCons(tf: string, rest: seq<string>)
    ensures TimeFramesToExclude([tf] + rest) == Kept(tf) + TimeFramesToExclude(rest)
  {
    TimeFramesToExcludeAppend([tf], rest);
    TimeFramesToExcludeSingle(tf);
  }

  /** A string is in the exclude list exactly when it is a time frame and
      the lower-cased form of some requested token. */
  lemma {:induction false} TimeFramesToExcludeMembers(exclude: seq<string>, t: string)
    ensures t in TimeFramesToExclude(exclude) <==>
      IsTimeFrame(t) && exists i :: 0 <= i < |exclude| && ToLower(exclude[i]) == t
    decreases |exclude|
  {
    if exclude != [] {
      var init := exclude[..|exclude| - 1];
      TimeFramesToExcludeMembers(init, t);
      if IsTimeFrame(t) && exists i :: 0 <= i < |exclude| && ToLower(exclude[i]) == t {
        var i :| 0 <= i < |exclude| && ToLower(exclude[i]) == t;
        if i < |exclude| - 1 {
          assert ToLower(init[i]) == t;
        }
      }
      if t in TimeFramesToExclude(init) {
        var i :| 0 <= i < |init| && ToLower(init[i]) == t;
        assert ToLower(exclude[i]) == t;
      }
    }
  }

  /** Filtering an already filtered list changes nothing. */
  lemma {:induction false} TimeFramesToExcludeIdempotent(exclude: seq<string>)
    ensures TimeFramesToExclude(TimeFramesToExclude(exclude)) == TimeFramesToExclude(exclude)
    decreases |exclude|
  {
    if exclude != [] {
      var init, last := exclude[..|exclude| - 1], exclude[|exclude| - 1];
      TimeFramesToExcludeIdempotent(init);
      TimeFramesToExcludeAppend(TimeFramesToExclude(init), Kept(last));
      var l := ToLower(last);
      if IsTimeFrame(l) {
        TimeFrameNamesAreLower(l);
        TimeFramesToExcludeSingle(l);
      }
    }
  }

  /** The time-frame names are written in lower-case letters. */
  lemma TimeFrameNamesAreLower(tf: string)
    requires IsTimeFrame(tf)
    ensures LowerLetters(tf) && ToLower(tf) == tf
  {
    assert LowerLetters(tf) by {
      if tf == "current" {
      } else if tf == "minutely" {
      } else if tf == "hourly" {
      } else if tf == "daily" {
      }
    }
    ToLowerFixes(tf);
  }

  /** A time frame named in lower case is kept as it is. */
  lemma KeptTimeFrame(tf: string)
    requires IsTimeFrame(tf)
    ensures Kept(tf) == [tf]
  {
    TimeFrameNamesAreLower(tf);
  }

  /** A token is kept as a given time frame exactly when it spells that
      time frame, each letter in any of its spellings. */
  lemma KeptIffSpelledAlike(tf: string, name: string)
    requires IsTimeFrame(name)
    ensures Kept(tf) == [name] <==> SpelledAs(tf, name)
  {
    TimeFrameNamesAreLower(name);
    ToLowerIffSpelledAs(tf, name);
  }

  /** Capitals, including a capital I with a dot above, are kept in lower
      case. */
  lemma KeptCapitals(dotted: string, capitalised: string)
    requires dotted == "DA\U{0130}LY" && capitalised == "Minutely"
    ensures Kept(dotted) == ["daily"]
    ensures Kept(capitalised) == ["minutely"]
  {
    assert Kept(dotted) == ["daily"] by {
      KeptIffSpelledAlike(dotted, "daily");
    }
    assert Kept(capitalised) == ["minutely"] by {
      KeptIffSpelledAlike(capitalised, "minutely");
    }
  }

  /** A word that is not a time frame is dropped. */
  lemma KeptDropsOthers(word: string)
    requires word == "week"
    ensures Kept(word) == []
  {
    assert |ToLower(word)| == 4;
  }

  /** The filter on a mixed request: unknown words are dropped, time
      frames are kept in their order. */
  lemma TimeFramesToExcludeExample(i1: string, c: string, i2: string, m: string, h: string, a: string, y: string)
    requires i1 == "ignored" && c == "current" && i2 == "ignored" && m == "minutely"
    requires h == "hourly" && a == "alerts" && y == "yearly-ignored"
    ensures TimeFramesToExclude([i1, c, i2, m, h, a, y]) == [c, m, h, a]
  {
    assert Kept(i1) == [] by { KeptIgnored(i1); }
    assert Kept(i2) == [] by { KeptIgnored(i2); }
    assert Kept(y) == [] by { KeptYearly(y); }
    assert Kept(c) == [c] by { KeptTimeFrame(c); }
    assert Kept(m) == [m] by { KeptTimeFrame(m); }
    assert Kept(h) == [h] by { KeptTimeFrame(h); }
    assert Kept(a) == [a] by { KeptTimeFrame(a); }
    TimeFramesToExcludeOfSeven([i1, c, i2, m, h, a, y]);
  }

  /** The filter over seven tokens, written out token by token. */
  lemma TimeFramesToExcludeOfSeven(w: seq<string>)
    requires |w| == 7
    ensures TimeFramesToExclude(w)
      == Kept(w[0]) + Kept(w[1]) + Kept(w[2]) + Kept(w[3]) + Kept(w[4]) + Kept(w[5]) + Kept(w[6])
  {
    assert TimeFramesToExclude(w[..1]) == Kept(w[0]) by {
      assert w[..1] == [w[0]];
      TimeFramesToExcludeSingle(w[0]);
    }
    assert TimeFramesToExclude(w[..2]) == Kept(w[0]) + Kept(w[1]) by {
      assert w[..2][..1] == w[..1];
    }
    assert TimeFramesToExclude(w[..3]) == Kept(w[0]) + Kept(w[1]) + Kept(w[2]) by {
      assert w[..3][..2] == w[..2];
    }
    assert TimeFramesToExclude(w[..4]) == Kept(w[0]) + Kept(w[1]) + Kept(w[2]) + Kept(w[3]) by {
      assert w[..4][..3] == w[..3];
    }
    assert TimeFramesToExclude(w[..5])
      == Kept(w[0]) + Kept(w[1]) + Kept(w[2]) + Kept(w[3]) + Kept(w[4]) by {
      assert w[..5][..4] == w[..4];
    }
    assert TimeFramesToExclude(w[..6])
      == Kept(w[0]) + Kept(w[1]) + Kept(w[2]) + Kept(w[3]) + Kept(w[4]) + Kept(w[5]) by {
      assert w[..6][..5] == w[..5];
    }
    assert w[..7] == w;
    assert w[..7][..6] == w[..6];
  }

  /** "yearly-ignored" is longer than every time frame. */
  lemma KeptYearly(word: string)
    requires word == "yearly-ignored"
    ensures Kept(word) == []
  {
    assert |ToLower(word)| == 14;
  }

  /** "ignored" lower-cases to a word starting with `i`, which no time frame
      of its length does. */
  lemma KeptIgnored(word: string)
    requires word == "ignored"
    ensures Kept(word) == []
  {
    ToLowerAt(word, 0);
  }

  /** The suffix the one-call URL ends with: `&exclude=` and the time frames
      joined with commas, or nothing at all when there are none. */
  function ExcludeSuffix(timeFrames: seq<string>): (suffix: string)
    ensures suffix == "" <==> timeFrames == []
    ensures suffix != "" ==> |suffix| >= 9 && suffix[..9] == "&exclude="
  {
    if |timeFrames| > 0 then "&" + ("exclude=" + Join(timeFrames, ',')) else ""
  }

  // -----------------------------------------------------------------------
  // Reading a URL's query
  // -----------------------------------------------------------------------

  /** The part of a URL that is sent: everything before the first `#`;
      the fragment from there on stays with the client. */
  function SentPart(url: string): (sent: string)
    ensures '#' !in sent
    ensures '#' !in url ==> sent == url
    ensures sent <= url
  {
    if '#' in url then url[..IndexOf(url, '#')] else url
  }

  /** The parameters a server reads from a URL: in the part that is sent,
      the text after the first `?`, cut at every `&`. */
  function QueryParams(url: string): seq<string> {
    var sent := SentPart(url);
    if '?' in sent then Split(sent[IndexOf(sent, '?') + 1..], '&') else []
  }

  /** A URL built as a path without `?` or `#`, then `?`, then parameters
      without `&` or `#` joined by `&`, shows the server exactly those
      parameters. */
  lemma QueryParamsOfJoin(path: string, params: seq<string>)
    requires '?' !in path && '#' !in path
    requires |params| >= 1
    requires forall i :: 0 <= i < |params| ==> '&' !in params[i] && '#' !in params[i]
    ensures QueryParams(path + "?" + Join(params, '&')) == params
  {
    var url := path + "?" + Join(params, '&');
    assert '#' !in url by {
      JoinHasNo(params, '&', '#');
      NotInConcat(path + "?", Join(params, '&'), '#');
    }
    assert url[|path|] == '?';
    assert url[..|path|] == path;
    assert IndexOf(url, '?') == |path|;
    assert url[|path| + 1..] == Join(params, '&');
    SplitJoin(params, '&');
  }

  lemma JoinParams3(p1: string, p2: string, p3: string)
    ensures Join([p1, p2, p3], '&') == p1 + "&" + p2 + "&" + p3
  {
    assert [p1] + [p2] == [p1, p2];
    assert [p1, p2] + [p3] == [p1, p2, p3];
    JoinSnoc([p1], p2, '&');
    JoinSnoc([p1, p2], p3, '&');
  }

  lemma JoinParams4(p1: string, p2: string, p3: string, p4: string)
    ensures Join([p1, p2, p3, p4], '&') == p1 + "&" + p2 + "&" + p3 + "&" + p4
  {
    assert [p1, p2, p3] + [p4] == [p1, p2, p3, p4];
    JoinParams3(p1, p2, p3);
    JoinSnoc([p1, p2, p3], p4, '&');
  }

  // -----------------------------------------------------------------------
  // Decoded responses
  // -----------------------------------------------------------------------

  /** One weather description, like "overcast clouds". */
  datatype Summary = Summary(desc: string)

  /** Temperature (in the requested units) and relative humidity in percent. */
  datatype Metrics = Metrics(temp: real, humidity: int)

  /** A decoded current-weather response. */
  datatype CurrentAPIResp = CurrentAPIResp(summaries: seq<Summary>, metrics: Metrics)

  /** A place as the geocoding endpoint describes it. */
  datatype Location = Location(name: string, country: string, lat: real, lon: real)

  newtype uint64 = n: int | 0 <= n < 0x1_0000_0000_0000_0000

  datatype OneCallDayTemp = OneCallDayTemp(low: real, high: real)

  datatype OneCallDaySummary = OneCallDaySummary(desc: string)

  /** One day of a one-call forecast. */
  datatype OneCallDayForecast = OneCallDayForecast(
    date: uint64, temp: OneCallDayTemp, humidity: int, weather: seq<OneCallDaySummary>)

  /** A decoded one-call response; only its daily forecasts are kept. */
  datatype OneCallAPIResp = OneCallAPIResp(daily: seq<OneCallDayForecast>)

  /** fmt's %+v of a byte slice: the byte values in decimal, separated by
      spaces, in square brackets. */
  function BytesText(data: Bytes): (t: string)
    ensures |t| >= 2 && t[0] == '[' && t[|t| - 1] == ']'
    ensures data == [] ==> t == "[]"
  {
    "[" + Join(seq(|data|, i requires 0 <= i < |data| => Itoa(data[i] as int)), ' ') + "]"
  }

  /** DecodeCurrent: the decoder's value, or its error wrapped with the
      input bytes. */
  function DecodeCurrent(data: Bytes, unmarshal: Decoder<CurrentAPIResp>): (r: Result<CurrentAPIResp>)
    ensures r.Ok? <==> unmarshal(data).Parsed?
    ensures r.Ok? ==> r.value == unmarshal(data).value
    ensures r.Err? ==>
      r.error == Wrapped("got error unmarshaling json " + BytesText(data) + ": " + unmarshal(data).cause)
  {
    match unmarshal(data)
    case Malformed(cause) =>
      Err(Wrapped("got error unmarshaling json " + BytesText(data) + ": " + cause))
    case Parsed(resp) => Ok(resp)
  }

  /** DecodeGeoData: the first location found; an error when the decoder
      fails or finds none. */
  function DecodeGeoData(data: Bytes, unmarshal: Decoder<seq<Location>>): (r: Result<Location>)
    ensures r.Ok? <==> unmarshal(data).Parsed? && |unmarshal(data).value| > 0
    ensures r.Ok? ==> r.value == unmarshal(data).value[0]
    ensures unmarshal(data) == Parsed([]) ==> r == Err(NoLocations)
    ensures unmarshal(data).Malformed? ==>
      r == Err(Wrapped("got error unmarshaling geocode json data: " + unmarshal(data).cause))
  {
    match unmarshal(data)
    case Malformed(cause) => Err(Wrapped("got error unmarshaling geocode json data: " + cause))
    case Parsed(locations) =>
      if |locations| == 0 then Err(NoLocations) else Ok(locations[0])
  }

  /** DecodeOneCallDailyData: empty input is refused before decoding;
      otherwise the daily forecasts are handed back as decoded, an empty
      list included. */
  function DecodeOneCallDailyData(data: Bytes, unmarshal: Decoder<OneCallAPIResp>)
    : (r: Result<seq<OneCallDayForecast>>)
    ensures |data| == 0 ==> r == Err(EmptyOneCallData)
    ensures r.Ok? <==> |data| > 0 && unmarshal(data).Parsed?
    ensures r.Ok? ==> r.value == unmarshal(data).value.daily
    ensures |data| > 0 && unmarshal(data).Malformed? ==>
      r == Err(Wrapped("got error unmarshaling onecall API response: " + unmarshal(data).cause))
  {
    if |data| == 0 then Err(EmptyOneCallData)
    else
      match unmarshal(data)
      case Malformed(cause) => Err(Wrapped("got error unmarshaling onecall API response: " + cause))
      case Parsed(resp) => Ok(resp.daily)
  }

  // -----------------------------------------------------------------------
  // The client
  // -----------------------------------------------------------------------

  /** One GET: the body on success; a failed request is reported with its
      URL, a failed read with `readContext` in front of the cause. */
  function Get(url: string, http: Transport, readContext: string): (x: Exchange<Bytes>)
    ensures x.requests == [url]
    ensures x.result.Ok? <==> http(url).Body?
    ensures x.result.Ok? ==> x.result.value == http(url).data
    ensures http(url).GetFailed? ==>
      x.result == Err(Wrapped("error getting data from " + url + ": " + http(url).cause))
    ensures http(url).ReadFailed? ==> x.result == Err(Wrapped(readContext + http(url).cause))
  {
    match http(url)
    case Body(data) => Exchange(Ok(data), [url])
    case GetFailed(cause) => Exchange(Err(Wrapped("error getting data from " + url + ": " + cause)), [url])
    case ReadFailed(cause) => Exchange(Err(Wrapped(readContext + cause)), [url])
  }

  /** A client: where the API lives and the key that authorises requests.
      The HTTP client it would hold is the Transport each call is given. */
  datatype Client = Client(baseURL: string, apiKey: string) {

    /** URL of the current-weather endpoint; nothing is escaped. */
    function CurrentURL(location: string, units: string): (url: string)
      ensures |url| >= |baseURL| + 18 && url[..|baseURL| + 18] == baseURL + "/data/2.5/weather?"
      ensures |url| >= |apiKey| + 6 && url[|url| - |apiKey| - 6..] == "appid=" + apiKey
    {
      baseURL + "/data/2.5/weather" + "?" + "q=" + location + "&" + "units=" + units + "&" + "appid=" + apiKey
    }

    /** Current: an empty location, then invalid units, are refused before
        any request; otherwise one GET of CurrentURL. */
    function Current(location: string, units: string, http: Transport): (x: Exchange<Bytes>)
      ensures location == "" ==> x == Exchange(Err(EmptyLocation), [])
      ensures location != "" && !ValidUnit(units) ==> x == Exchange(Err(InvalidUnits), [])
      ensures location != "" && ValidUnit(units) ==>
        x == Get(CurrentURL(location, units), http, "got error reading response body: ")
    {
      if location == "" then Exchange(Err(EmptyLocation), [])
      else if !ValidUnit(units) then Exchange(Err(InvalidUnits), [])
      else Get(CurrentURL(location, units), http, "got error reading response body: ")
    }

    /** URL of the geocoding endpoint; nothing is escaped. */
    function GeocodeURL(location: string): (url: string)
      ensures |url| >= |baseURL| + 16 && url[..|baseURL| + 16] == baseURL + "/geo/1.0/direct?"
      ensures |url| >= |apiKey| + 6 && url[|url| - |apiKey| - 6..] == "appid=" + apiKey
    {
      baseURL + "/geo/1.0/direct" + "?" + "q=" + location + "&" + "limit=1" + "&" + "appid=" + apiKey
    }

    /** GeocodeData: an empty location is refused before any request;
        otherwise one GET of GeocodeURL. */
    function GeocodeData(location: string, http: Transport): (x: Exchange<Bytes>)
      ensures location == "" ==> x == Exchange(Err(EmptyLocation), [])
      ensures location != "" ==> x == Get(GeocodeURL(location), http, "error reading response body: ")
    {
      if location == "" then Exchange(Err(EmptyLocation), [])
      else Get(GeocodeURL(location), http, "error reading response body: ")
    }

    /** URL of the one-call endpoint for coordinates already formatted with
        two decimals, up to the key. */
    function OneCallBaseURL(lat: string, lon: string, units: string): (url: string)
      ensures |url| >= |baseURL| + 18 && url[..|baseURL| + 18] == baseURL + "/data/2.5/onecall?"
      ensures |url| >= |apiKey| + 6 && url[|url| - |apiKey| - 6..] == "appid=" + apiKey
    {
      baseURL + "/data/2.5/onecall" + "?" + "lat=" + lat + "&" + "lon=" + lon + "&" + "units=" + units
        + "&" + "appid=" + apiKey
    }

    /** The full one-call URL: the exclude suffix follows the key. */
    function OneCallURL(lat: string, lon: string, units: string, timeFrames: seq<string>): (url: string)
      ensures OneCallBaseURL(lat, lon, units) <= url
      ensures url == OneCallBaseURL(lat, lon, units) <==> timeFrames == []
    {
      OneCallBaseURL(lat, lon, units) + ExcludeSuffix(timeFrames)
    }

    /** OneCallData: invalid units are refused before any request;
        otherwise the requested time frames are filtered and one GET of
        OneCallURL is made. `fixed2` is fmt's %.2f. */
    method OneCallData(lat: real, lon: real, units: string, exclude: seq<string>,
                       fixed2: real -> string, http: Transport)
      returns (x: Exchange<Bytes>)
      ensures !ValidUnit(units) ==> x == Exchange(Err(InvalidUnits), [])
      ensures ValidUnit(units) ==>
        x == Get(OneCallURL(fixed2(lat), fixed2(lon), units, TimeFramesToExclude(exclude)),
                 http, "error reading response body: ")
    {
      if !ValidUnit(units) {
        return Exchange(Err(InvalidUnits), []);
      }
      var timeFrames: seq<string> := [];
      for i := 0 to |exclude|
        invariant timeFrames == TimeFramesToExclude(exclude[..i])
      {
        assert exclude[..i + 1][..i] == exclude[..i];
        var tf := ToLower(exclude[i]);
        if IsTimeFrame(tf) {
          timeFrames := timeFrames + [tf];
        }
      }
      assert exclude[..|exclude|] == exclude;
      var excludes := "";
      if |timeFrames| > 0 {
        excludes := "&" + ("exclude=" + Join(timeFrames, ','));
      }
      var url := baseURL + "/data/2.5/onecall" + "?" + "lat=" + fixed2(lat) + "&" + "lon=" + fixed2(lon)
        + "&" + "units=" + units + "&" + "appid=" + apiKey + excludes;
      x := Get(url, http, "error reading response body: ");
    }
  }

  /** NewClient: refuses an empty key; otherwise a client for the public
      API with that key. */
  function NewClient(apiKey: string): (r: Result<Client>)
    ensures r.Err? <==> apiKey == ""
    ensures r.Err? ==> r.error == EmptyApiKey
    ensures r.Ok? ==> r.value.apiKey == apiKey && r.value.baseURL == DefaultBaseURL
  {
    if apiKey == "" then Err(EmptyApiKey)
    else Ok(Client(DefaultBaseURL, apiKey))
  }

  // -----------------------------------------------------------------------
  // What the server receives
  // -----------------------------------------------------------------------

  /** The current-weather request carries exactly the location, the units
      and the key as its three parameters, as long as neither the location
      nor the key contains `&` or `#` and the base URL contains no `?` or
      `#`. */
  lemma CurrentQuery(c: Client, location: string, units: string)
    requires '?' !in c.baseURL && '#' !in c.baseURL
    requires '&' !in location && '&' !in c.apiKey && '#' !in location && '#' !in c.apiKey
    requires ValidUnit(units)
    ensures QueryParams(c.CurrentURL(location, units)) ==
      ["q=" + location, "units=" + units, "appid=" + c.apiKey]
  {
    var path := c.baseURL + "/data/2.5/weather";
    var p1, p2, p3 := "q=" + location, "units=" + units, "appid=" + c.apiKey;
    assert '?' !in path && '#' !in path by {
      NoDelimiterInPaths();
    }
    assert c.CurrentURL(location, units) == path + "?" + Join([p1, p2, p3], '&') by {
      CurrentURLJoin(c, location, units);
    }
    assert '&' !in p1 && '&' !in p2 && '&' !in p3 by {
      ValidUnitHasNoDelimiter(units);
    }
    assert '#' !in p1 && '#' !in p2 && '#' !in p3 by {
      ValidUnitHasNoDelimiter(units);
    }
    QueryParamsOfJoin(path, [p1, p2, p3]);
  }


  /** A `#` in the location starts the URL's fragment, which is not sent:
      the server reads only the location up to the `#`, and nothing of the
      units or the key. */
  lemma CurrentQueryCutAtFragment(c: Client, location: string, units: string)
    requires '?' !in c.baseURL && '#' !in c.baseURL
    requires '#' in location
    ensures QueryParams(c.CurrentURL(location, units)) ==
      Split("q=" + location[..IndexOf(location, '#')], '&')
  {
    var path := c.baseURL + "/data/2.5/weather";
    var tail := "&" + "units=" + units + "&" + "appid=" + c.apiKey;
    assert '?' !in path && '#' !in path by {
      NoDelimiterInPaths();
    }
    assert c.CurrentURL(location, units) == path + "?" + "q=" + location + tail;
    FirstParamCutAtFragment(path, "q=", location, tail);
  }

  /** In a URL whose first parameter is a name and a value holding `#`,
      the server reads only that name and the value up to the `#`. */
  lemma FirstParamCutAtFragment(path: string, name: string, value: string, tail: string)
    requires '?' !in path && '#' !in path && '#' !in name
    requires '#' in value
    ensures QueryParams(path + "?" + name + value + tail) == Split(name + value[..IndexOf(value, '#')], '&')
  {
    var pre := path + "?" + name;
    var k := IndexOf(value, '#');
    var query := name + value[..k];
    var sent := path + "?" + query;
    assert SentPart(pre + value + tail) == sent by {
      SentPartStopsAtFragment(pre, value, tail);
      ConcatAssoc(path + "?", name, value[..k]);
    }
    assert '?' in sent && sent[IndexOf(sent, '?') + 1..] == query by {
      QueryOfSent(path, query);
    }
  }

  /** What is sent ends right before the first `#`. */
  lemma SentPartStopsAtFragment(pre: string, value: string, tail: string)
    requires '#' !in pre && '#' in value
    ensures SentPart(pre + value + tail) == pre + value[..IndexOf(value, '#')]
  {
    var url := pre + value + tail;
    var k := IndexOf(value, '#');
    assert url[..|pre| + k] == pre + value[..k];
    IndexOfUnique(url, '#', |pre| + k);
  }

  /** A path without `?`, then `?` and a query: the server splits that
      query at `&`. */
  lemma QueryOfSent(path: string, query: string)
    requires '?' !in path
    ensures '?' in path + "?" + query
    ensures var sent := path + "?" + query;
      sent[IndexOf(sent, '?') + 1..] == query
  {
    var sent := path + "?" + query;
    assert sent[..|path|] == path;
    IndexOfUnique(sent, '?', |path|);
    assert sent[|path| + 1..] == query;
  }

  /** The current-weather URL is its path, `?` and its three parameters
      joined by `&`. */
  lemma CurrentURLJoin(c: Client, location: string, units: string)
    ensures c.CurrentURL(location, units) ==
      c.baseURL + "/data/2.5/weather" + "?" + Join(["q=" + location, "units=" + units, "appid=" + c.apiKey], '&')
  {
    JoinParams3("q=" + location, "units=" + units, "appid=" + c.apiKey);
  }

  /** The geocoding URL is its path, `?` and its three parameters joined
      by `&`. */
  lemma GeocodeURLJoin(c: Client, location: string)
    ensures c.GeocodeURL(location) ==
      c.baseURL + "/geo/1.0/direct" + "?" + Join(["q=" + location, "limit=1", "appid=" + c.apiKey], '&')
  {
    JoinParams3("q=" + location, "limit=1", "appid=" + c.apiKey);
  }

  /** The geocoding request carries exactly the location, the limit of one
      result and the key, under the same conditions. */
  lemma GeocodeQuery(c: Client, location: string)
    requires '?' !in c.baseURL && '#' !in c.baseURL
    requires '&' !in location && '&' !in c.apiKey && '#' !in location && '#' !in c.apiKey
    ensures QueryParams(c.GeocodeURL(location)) == ["q=" + location, "limit=1", "appid=" + c.apiKey]
  {
    var path := c.baseURL + "/geo/1.0/direct";
    var p1, p2, p3 := "q=" + location, "limit=1", "appid=" + c.apiKey;
    assert '?' !in path && '#' !in path by {
      NoDelimiterInPaths();
    }
    assert c.GeocodeURL(location) == path + "?" + Join([p1, p2, p3], '&') by {
      GeocodeURLJoin(c, location);
    }
    QueryParamsOfJoin(path, [p1, p2, p3]);
  }


  /** A time-frame name contains neither the comma that separates the
      excluded frames, nor the `&` that ends the parameter, nor the `#`
      that ends the query. */
  lemma TimeFrameHasNoDelimiter(tf: string)
    requires IsTimeFrame(tf)
    ensures ',' !in tf && '&' !in tf && '#' !in tf
  {
  }

  /** So no entry of the exclude list contains either. */
  lemma TimeFramesHaveNoDelimiter(exclude: seq<string>, timeFrames: seq<string>)
    requires timeFrames == TimeFramesToExclude(exclude)
    ensures forall i :: 0 <= i < |timeFrames| ==>
      ',' !in timeFrames[i] && '&' !in timeFrames[i] && '#' !in timeFrames[i]
  {
    TimeFramesToExcludeAreTimeFrames(exclude);
    forall i | 0 <= i < |timeFrames|
      ensures ',' !in timeFrames[i] && '&' !in timeFrames[i] && '#' !in timeFrames[i]
    {
      TimeFrameHasNoDelimiter(timeFrames[i]);
    }
  }

  /** The one-call URL up to the key is its path, `?`, then the four fixed
      parameters joined by `&`. */
  lemma OneCallBaseURLShape(c: Client, lat: string, lon: string, units: string)
    ensures c.OneCallBaseURL(lat, lon, units) ==
      (c.baseURL + "/data/2.5/onecall") + "?"
      + Join(["lat=" + lat, "lon=" + lon, "units=" + units, "appid=" + c.apiKey], '&')
  {
    JoinParams4("lat=" + lat, "lon=" + lon, "units=" + units, "appid=" + c.apiKey);
  }

  /** The exclude parameter carries no `&` or `#` as long as no time
      frame does. */
  lemma ExcludeParamHasNoDelimiter(timeFrames: seq<string>, d: char)
    requires d == '&' || d == '#'
    requires forall i :: 0 <= i < |timeFrames| ==> d !in timeFrames[i]
    ensures d !in "exclude=" + Join(timeFrames, ',')
  {
    var name, joined := "exclude=", Join(timeFrames, ',');
    assert d !in joined by {
      JoinHasNo(timeFrames, ',', d);
    }
    assert d !in name;
    NotInConcat(name, joined, d);
  }

  /** Appending `&` and one more parameter without `&` to such a URL adds
      that parameter to the query. */
  lemma QueryParamsOfJoinSnoc(path: string, params: seq<string>, last: string)
    requires '?' !in path && '#' !in path
    requires |params| >= 1
    requires forall i :: 0 <= i < |params| ==> '&' !in params[i] && '#' !in params[i]
    requires '&' !in last && '#' !in last
    ensures QueryParams(path + "?" + Join(params, '&') + ("&" + last)) == params + [last]
  {
    NoDelimiterSnoc(params, last);
    UrlSnoc(path, params, last);
    QueryParamsOfJoin(path, params + [last]);
  }

  lemma NoDelimiterSnoc(params: seq<string>, last: string)
    requires forall i :: 0 <= i < |params| ==> '&' !in params[i] && '#' !in params[i]
    requires '&' !in last && '#' !in last
    ensures forall i :: 0 <= i < |params + [last]| ==> '&' !in (params + [last])[i] && '#' !in (params + [last])[i]
  {
    var all := params + [last];
    forall i | 0 <= i < |all|
      ensures '&' !in all[i] && '#' !in all[i]
    {
      if i < |params| {
        assert all[i] == params[i];
      }
    }
  }

  lemma UrlSnoc(path: string, params: seq<string>, last: string)
    requires |params| >= 1
    ensures path + "?" + Join(params, '&') + ("&" + last) == path + "?" + Join(params + [last], '&')
  {
    var head, joined := path + "?", Join(params, '&');
    assert Join(params + [last], '&') == joined + "&" + last by {
      JoinSnoc(params, last, '&');
    }
    assert joined + "&" + last == joined + ("&" + last) by {
      ConcatAssoc(joined, "&", last);
    }
    ConcatAssoc(head, joined, "&" + last);
  }

  /** Without time frames to exclude, the one-call query is the four fixed
      parameters. */
  lemma OneCallQueryNoExclude(c: Client, lat: string, lon: string, units: string)
    requires '?' !in c.baseURL && '#' !in c.baseURL
    requires '&' !in lat && '&' !in lon && '&' !in units && '&' !in c.apiKey
    requires '#' !in lat && '#' !in lon && '#' !in units && '#' !in c.apiKey
    ensures QueryParams(c.OneCallURL(lat, lon, units, [])) ==
      ["lat=" + lat, "lon=" + lon, "units=" + units, "appid=" + c.apiKey]
  {
    var path := c.baseURL + "/data/2.5/onecall";
    var params := ["lat=" + lat, "lon=" + lon, "units=" + units, "appid=" + c.apiKey];
    var base := c.OneCallBaseURL(lat, lon, units);
    assert base == path + "?" + Join(params, '&') by {
      OneCallBaseURLShape(c, lat, lon, units);
    }
    assert base + "" == base;
    assert '?' !in path && '#' !in path by {
      NoDelimiterInPaths();
    }
    assert forall i :: 0 <= i < |params| ==> '&' !in params[i] && '#' !in params[i] by {
      FixedParamsHaveNoDelimiter(c, lat, lon, units);
    }
    QueryParamsOfJoin(path, params);
  }

  /** The endpoint paths contain no `?` and no `#`. */
  lemma NoDelimiterInPaths()
    ensures '?' !in "/data/2.5/weather" && '#' !in "/data/2.5/weather"
    ensures '?' !in "/geo/1.0/direct" && '#' !in "/geo/1.0/direct"
    ensures '?' !in "/data/2.5/onecall" && '#' !in "/data/2.5/onecall"
  {
  }

  lemma FixedParamsHaveNoDelimiter(c: Client, lat: string, lon: string, units: string)
    requires '&' !in lat && '&' !in lon && '&' !in units && '&' !in c.apiKey
    requires '#' !in lat && '#' !in lon && '#' !in units && '#' !in c.apiKey
    ensures var params := ["lat=" + lat, "lon=" + lon, "units=" + units, "appid=" + c.apiKey];
      forall i :: 0 <= i < |params| ==> '&' !in params[i] && '#' !in params[i]
  {
  }

  /** With time frames to exclude, the one-call query is the four fixed
      parameters and then `exclude=` with the frames joined by commas. */
  lemma OneCallQueryWithExclude(c: Client, lat: string, lon: string, units: string, timeFrames: seq<string>)
    requires '?' !in c.baseURL && '#' !in c.baseURL
    requires '&' !in lat && '&' !in lon && '&' !in units && '&' !in c.apiKey
    requires '#' !in lat && '#' !in lon && '#' !in units && '#' !in c.apiKey
    requires timeFrames != []
    requires forall i :: 0 <= i < |timeFrames| ==> '&' !in timeFrames[i] && '#' !in timeFrames[i]
    ensures QueryParams(c.OneCallURL(lat, lon, units, timeFrames)) ==
      ["lat=" + lat, "lon=" + lon, "units=" + units, "appid=" + c.apiKey] + ["exclude=" + Join(timeFrames, ',')]
  {
    var path := c.baseURL + "/data/2.5/onecall";
    var params := ["lat=" + lat, "lon=" + lon, "units=" + units, "appid=" + c.apiKey];
    var last := "exclude=" + Join(timeFrames, ',');
    assert '?' !in path && '#' !in path by {
      NoDelimiterInPaths();
    }
    assert c.OneCallBaseURL(lat, lon, units) == path + "?" + Join(params, '&') by {
      OneCallBaseURLShape(c, lat, lon, units);
    }
    assert '&' !in last by {
      ExcludeParamHasNoDelimiter(timeFrames, '&');
    }
    assert '#' !in last by {
      ExcludeParamHasNoDelimiter(timeFrames, '#');
    }
    assert forall i :: 0 <= i < |params| ==> '&' !in params[i] && '#' !in params[i] by {
      FixedParamsHaveNoDelimiter(c, lat, lon, units);
    }
    QueryParamsOfJoinSnoc(path, params, last);
  }

  /** The one-call request carries the coordinates, the units and the key,
      then an `exclude` parameter only when some time frame survived the
      filter; its comma-separated value splits back into exactly that
      list. */
  lemma OneCallQuery(c: Client, lat: string, lon: string, units: string, exclude: seq<string>)
    requires '?' !in c.baseURL && '#' !in c.baseURL
    requires '&' !in lat && '&' !in lon && '&' !in c.apiKey && '#' !in lat && '#' !in lon && '#' !in c.apiKey
    requires ValidUnit(units)
    ensures var timeFrames := TimeFramesToExclude(exclude);
      QueryParams(c.OneCallURL(lat, lon, units, timeFrames)) ==
        ["lat=" + lat, "lon=" + lon, "units=" + units, "appid=" + c.apiKey]
        + (if timeFrames == [] then [] else ["exclude=" + Join(timeFrames, ',')])
    ensures var timeFrames := TimeFramesToExclude(exclude);
      timeFrames != [] ==> Split(Join(timeFrames, ','), ',') == timeFrames
  {
    ValidUnitHasNoDelimiter(units);
    var timeFrames := TimeFramesToExclude(exclude);
    TimeFramesHaveNoDelimiter(exclude, timeFrames);
    if timeFrames == [] {
      OneCallQueryNoExclude(c, lat, lon, units);
    } else {
      OneCallQueryWithExclude(c, lat, lon, units, timeFrames);
      SplitJoin(timeFrames, ',');
    }
  }
}
