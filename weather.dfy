/** The one-line summary of the current weather: a client is made, the
    current-weather endpoint is called, the response decoded, and the
    first description, the temperature with its unit letter and the
    humidity are put on one line. */
module Weather {
  import opened Text
  import opened Calls
  import opened OpenWeather

  /** The letter written after a temperature, for each unit name. */
  const TemperatureInitials: map<string, string> :=
    map["standard" := "K", "metric" := "C", "imperial" := "F"]

  /** The map lookup of the unit letter: a unit that is not a key, in
      particular one spelled with capitals, gets the empty string. */
  function TemperatureInitial(units: string): (ti: string)
    ensures ti == "" <==> units !in TemperatureInitials
  {
    if units in TemperatureInitials then TemperatureInitials[units] else ""
  }

  /** The lookup finds a letter exactly for the three unit names written
      in lower case: K for standard, C for metric, F for imperial. */
  lemma TemperatureInitialFound(units: string)
    ensures TemperatureInitial(units) != "" <==> ValidUnit(units) && NoUpper(units)
    ensures units == "standard" ==> TemperatureInitial(units) == "K"
    ensures units == "metric" ==> TemperatureInitial(units) == "C"
    ensures units == "imperial" ==> TemperatureInitial(units) == "F"
  {
    ToLowerFixes(units);
    if units in TemperatureInitials {
      UnitNameIsLower(units);
    }
  }

  /** A unit that validation accepts can still miss the lookup: "Metric"
      passes the case-insensitive check but gets no letter. */
  lemma MixedCaseUnitHasNoInitial(units: string)
    requires units == "Metric"
    ensures ValidUnit(units)
    ensures TemperatureInitial(units) == ""
  {
    ValidUnitIsCaseInsensitive(units);
  }

  /** The description: the first summary with a space after it, or
      nothing; then surrounding white space is trimmed. */
  function Description(summaries: seq<Summary>): (d: string)
    ensures Trimmed(d)
  {
    var desc := if |summaries| > 0 then summaries[0].desc + " " else "";
    TrimSpace(desc)
  }

  /** The description is the first summary with its surrounding white space
      removed, and empty when there is no summary. */
  lemma DescriptionOf(summaries: seq<Summary>)
    ensures |summaries| == 0 ==> Description(summaries) == ""
    ensures |summaries| > 0 ==> Description(summaries) == TrimSpace(summaries[0].desc)
  {
    if |summaries| > 0 {
      assert AllSpace(" ") by {
        assert ' ' in Spaces;
      }
      TrimSpaceIgnoresTrailingSpace(summaries[0].desc, " ");
    } else {
      assert Trimmed("");
      TrimSpaceOfPadded("", "", "");
    }
  }

  /** The summary line: description, comma, temperature with two decimals,
      the unit letter, then the humidity as a percentage. */
  function Report(desc: string, temp: real, initial: string, humidity: int, fixed2: real -> string): (line: string)
    ensures |line| == |desc| + |fixed2(temp)| + |initial| + |Itoa(humidity)| + 15
  {
    desc + ", " + fixed2(temp) + " " + initial + ", humidity " + Itoa(humidity) + "%"
  }

  /** Cut at its commas, the summary line gives back the description, the
      temperature with its letter, and the humidity, as long as none of
      the description, the formatted temperature and the letter holds a
      comma. */
  lemma ReportSplits(desc: string, temp: real, initial: string, humidity: int, fixed2: real -> string)
    requires ',' !in desc && ',' !in fixed2(temp) && ',' !in initial
    ensures Split(Report(desc, temp, initial, humidity, fixed2), ',') ==
      [desc, " " + fixed2(temp) + " " + initial, " humidity " + Itoa(humidity) + "%"]
  {
    var temperature, digits := fixed2(temp), Itoa(humidity);
    var pieces := [desc, " " + temperature + " " + initial, " humidity " + digits + "%"];
    assert Report(desc, temp, initial, humidity, fixed2) == Join(pieces, ',') by {
      ReportLayout(desc, temperature, initial, digits);
    }
    assert forall i :: 0 <= i < |pieces| ==> ',' !in pieces[i] by {
      HumidityHasNoComma(humidity);
    }
    SplitJoin(pieces, ',');
  }

  /** The summary line is its three comma-separated pieces joined. */
  lemma ReportLayout(desc: string, temperature: string, initial: string, digits: string)
    ensures desc + ", " + temperature + " " + initial + ", humidity " + digits + "%" ==
      Join([desc, " " + temperature + " " + initial, " humidity " + digits + "%"], ',')
  {
    var p2, p3 := " " + temperature + " " + initial, " humidity " + digits + "%";
    JoinThree(desc, p2, p3, ',');
    assert ", " + temperature + " " + initial == [','] + p2;
    assert ", humidity " + digits + "%" == [','] + p3;
  }

  lemma HumidityHasNoComma(humidity: int)
    ensures ',' !in " humidity " + Itoa(humidity) + "%"
  {
    assert ',' !in Itoa(humidity);
  }

  /** The summary line starts with the description and a comma, ends with
      a percent sign, and the humidity reads back from just before it. */
  lemma ReportReadsBack(desc: string, temp: real, initial: string, humidity: int, fixed2: real -> string)
    ensures var r := Report(desc, temp, initial, humidity, fixed2);
      |r| >= |desc| + 2 + |Itoa(humidity)| + 1 &&
      r[..|desc| + 2] == desc + ", " &&
      r[|r| - 1] == '%' &&
      ParseInt(r[|r| - 1 - |Itoa(humidity)|..|r| - 1]) == Some(humidity)
  {
    var digits := Itoa(humidity);
    var middle := fixed2(temp) + " " + initial + ", humidity ";
    var r := Report(desc, temp, initial, humidity, fixed2);
    assert r == (desc + ", ") + middle + digits + "%";
    assert r[..|desc| + 2] == desc + ", ";
    assert r[|r| - 1 - |digits|..|r| - 1] == digits;
    ItoaRoundTrip(humidity);
  }

  /** Conditions: a client for the key, one current-weather call, the
      decoded response turned into the summary line. The first error met
      is returned as it is, with no summary. */
  function Conditions(location: string, units: string, apiKey: string,
                      http: Transport, unmarshal: Decoder<CurrentAPIResp>, fixed2: real -> string)
    : (x: Exchange<string>)
    ensures apiKey == "" ==> x == Exchange(Err(EmptyApiKey), [])
    ensures apiKey != "" ==>
      var current := Client(DefaultBaseURL, apiKey).Current(location, units, http);
      x.requests == current.requests &&
      (current.result.Err? ==> x.result == Err(current.result.error)) &&
      (current.result.Ok? ==>
        (x.result.Err? <==> DecodeCurrent(current.result.value, unmarshal).Err?)) &&
      (current.result.Ok? && DecodeCurrent(current.result.value, unmarshal).Err? ==>
        x.result.error == DecodeCurrent(current.result.value, unmarshal).error)
    ensures x.result.Ok? ==>
      var resp := DecodeCurrent(Client(DefaultBaseURL, apiKey).Current(location, units, http).result.value, unmarshal).value;
      x.result.value == Report(Description(resp.summaries), resp.metrics.temp,
                               TemperatureInitial(units), resp.metrics.humidity, fixed2)
  {
    match NewClient(apiKey)
    case Err(e) => Exchange(Err(e), [])
    case Ok(client) =>
      var current := client.Current(location, units, http);
      if current.result.Err? then Exchange(Err(current.result.error), current.requests)
      else
        match DecodeCurrent(current.result.value, unmarshal)
        case Err(e) => Exchange(Err(e), current.requests)
        case Ok(resp) =>
          var desc := Description(resp.summaries);
          var ti := TemperatureInitial(units);
          Exchange(Ok(Report(desc, resp.metrics.temp, ti, resp.metrics.humidity, fixed2)), current.requests)
  }

  /** Nothing goes out on the network when the key or the location is
      empty, or the units are invalid; otherwise exactly one request, for
      the current weather at the public API. */
  lemma ConditionsRequests(location: string, units: string, apiKey: string,
                           http: Transport, unmarshal: Decoder<CurrentAPIResp>, fixed2: real -> string)
    ensures var x := Conditions(location, units, apiKey, http, unmarshal, fixed2);
      (x.requests == []) == (apiKey == "" || location == "" || !ValidUnit(units))
    ensures var x := Conditions(location, units, apiKey, http, unmarshal, fixed2);
      x.requests != [] ==> x.requests == [Client(DefaultBaseURL, apiKey).CurrentURL(location, units)]
  {
  }

  /** The checks come in a fixed order: the key, then the location, then
      the units. */
  lemma ConditionsCheckOrder(location: string, units: string, apiKey: string,
                             http: Transport, unmarshal: Decoder<CurrentAPIResp>, fixed2: real -> string)
    ensures var x := Conditions(location, units, apiKey, http, unmarshal, fixed2);
      apiKey == "" ==> x.result == Err(EmptyApiKey)
    ensures var x := Conditions(location, units, apiKey, http, unmarshal, fixed2);
      apiKey != "" && location == "" ==> x.result == Err(EmptyLocation)
    ensures var x := Conditions(location, units, apiKey, http, unmarshal, fixed2);
      apiKey != "" && location != "" && !ValidUnit(units) ==> x.result == Err(InvalidUnits)
  {
  }

  /** A response without any summary gives a line starting with a comma. */
  lemma ConditionsWithoutSummary(location: string, units: string, apiKey: string,
                                 http: Transport, unmarshal: Decoder<CurrentAPIResp>, fixed2: real -> string)
    requires Conditions(location, units, apiKey, http, unmarshal, fixed2).result.Ok?
    requires var url := Client(DefaultBaseURL, apiKey).CurrentURL(location, units);
      unmarshal(http(url).data).value.summaries == []
    ensures var line := Conditions(location, units, apiKey, http, unmarshal, fixed2).result.value;
      |line| >= 2 && line[..2] == ", "
  {
    var resp := unmarshal(http(Client(DefaultBaseURL, apiKey).CurrentURL(location, units)).data).value;
    DescriptionOf(resp.summaries);
    ReportReadsBack(Description(resp.summaries), resp.metrics.temp, TemperatureInitial(units),
                    resp.metrics.humidity, fixed2);
  }

  /** When the key, the location and the units pass the checks, the
      request succeeds and its body decodes, the result is the summary line
      of the decoded response. */
  lemma ConditionsSucceeds(location: string, units: string, apiKey: string, http: Transport,
                           unmarshal: Decoder<CurrentAPIResp>, fixed2: real -> string, resp: CurrentAPIResp)
    requires location != "" && apiKey != "" && ValidUnit(units)
    requires var url := Client(DefaultBaseURL, apiKey).CurrentURL(location, units);
      http(url).Body? && unmarshal(http(url).data) == Parsed(resp)
    ensures Conditions(location, units, apiKey, http, unmarshal, fixed2).result ==
      Ok(Report(Description(resp.summaries), resp.metrics.temp, TemperatureInitial(units),
                resp.metrics.humidity, fixed2))
  {
  }

  /** A description that is already trimmed comes out unchanged. */
  lemma DescriptionOfOneWord(desc: string)
    requires desc == "overcast clouds"
    ensures Description([Summary(desc)]) == desc
  {
    DescriptionOf([Summary(desc)]);
    assert Trimmed(desc) by {
      LetterIsNotSpace(desc[0]);
      LetterIsNotSpace(desc[|desc| - 1]);
    }
    TrimSpaceOfPadded("", desc, "");
    assert "" + desc + "" == desc;
  }

  lemma ItoaOfFortySix()
    ensures Itoa(46) == "46"
  {
    assert NatDigits(4) == "4";
    assert NatDigits(46) == NatDigits(4) + "6";
  }

  /** The worked example: "overcast clouds" at 9.21 degrees Celsius and 46%
      humidity, asked for in metric units, reads as
      "overcast clouds, 9.21 C, humidity 46%". */
  lemma ConditionsExample(location: string, units: string, apiKey: string, desc: string,
                          http: Transport, unmarshal: Decoder<CurrentAPIResp>, fixed2: real -> string)
    requires location != "" && apiKey != "" && units == "metric" && desc == "overcast clouds"
    requires var url := Client(DefaultBaseURL, apiKey).CurrentURL(location, units);
      http(url).Body? &&
      unmarshal(http(url).data) == Parsed(CurrentAPIResp([Summary(desc)], Metrics(9.21, 46)))
    requires fixed2(9.21) == "9.21"
    ensures Conditions(location, units, apiKey, http, unmarshal, fixed2).result ==
      Ok(desc + ", " + "9.21" + " " + "C" + ", humidity " + "46" + "%")
  {
    var resp := CurrentAPIResp([Summary(desc)], Metrics(9.21, 46));
    assert ValidUnit(units) by {
      UnitNameIsLower(units);
    }
    assert Conditions(location, units, apiKey, http, unmarshal, fixed2).result ==
      Ok(Report(Description(resp.summaries), 9.21, TemperatureInitial(units), 46, fixed2)) by {
      ConditionsSucceeds(location, units, apiKey, http, unmarshal, fixed2, resp);
    }
    assert Description(resp.summaries) == desc by {
      DescriptionOfOneWord(desc);
    }
    assert TemperatureInitial(units) == "C" by {
      TemperatureInitialFound(units);
    }
    assert Itoa(46) == "46" by {
      ItoaOfFortySix();
    }
    assert Report(desc, 9.21, "C", 46, fixed2) ==
      desc + ", " + "9.21" + " " + "C" + ", humidity " + "46" + "%";
  }
}
