/** The daily weather summary: the forecast samples for today (or the first
    sample when none is for today), their mean temperature, their most common
    description and their highest chance of rain. */
module WeatherClient {
  import opened Wrappers
  import opened Environment

  const API_KEY_VAR := "OPENWEATHER_API_KEY"
  const FORECAST_URL := "https://api.openweathermap.org/data/2.5/forecast"
  const REQUEST_TIMEOUT := 10

  /** The forecast request: URL, query parameters and timeout. */
  datatype Request = Request(url: string, params: map<string, string>, timeout: int)

  /** One forecast sample: `dt_txt` (may be missing), `main.temp`,
      `weather[0].description` and `pop` (may be missing). */
  datatype Sample = Sample(dtTxt: Option<string>, temp: real, description: string, pop: Option<real>)

  /** An HTTP error status, or a JSON body that may lack the "list" key. */
  datatype Reply = HttpFailure(status: int) | Json(samples: Option<seq<Sample>>)

  /** RuntimeError, requests.HTTPError, and the ZeroDivisionError of the mean
      over an empty working set. */
  datatype WeatherError = MissingApiKey | HttpError(status: int) | NoSamples

  datatype Summary = Summary(temperature: real, condition: string, chanceOfRain: real)

  /** entry.get("dt_txt", "").startswith(today) */
  predicate IsToday(s: Sample, today: string) {
    today <= s.dtTxt.GetOr("")
  }

  /** The samples of today, in list order. */
  function TodaysSamples(samples: seq<Sample>, today: string): seq<Sample> {
    if samples == [] then []
    else (if IsToday(samples[0], today) then [samples[0]] else []) + TodaysSamples(samples[1..], today)
  }

  /** Today's samples, or the first sample of the list when there are none. */
  function WorkingSet(samples: seq<Sample>, today: string): seq<Sample> {
    var todays := TodaysSamples(samples, today);
    if todays != [] then todays
    else if samples == [] then []
    else samples[..1]
  }

  function Temperatures(ws: seq<Sample>): (ts: seq<real>)
    ensures |ts| == |ws| && forall i :: 0 <= i < |ws| ==> ts[i] == ws[i].temp
  {
    seq(|ws|, i requires 0 <= i < |ws| => ws[i].temp)
  }

  function Descriptions(ws: seq<Sample>): (ds: seq<string>)
    ensures |ds| == |ws| && forall i :: 0 <= i < |ws| ==> ds[i] == ws[i].description
  {
    seq(|ws|, i requires 0 <= i < |ws| => ws[i].description)
  }

  /** entry.get("pop", 0.0) for each sample. */
  function Pops(ws: seq<Sample>): (ps: seq<real>)
    ensures |ps| == |ws| && forall i :: 0 <= i < |ws| ==> ps[i] == ws[i].pop.GetOr(0.0)
  {
    seq(|ws|, i requires 0 <= i < |ws| => ws[i].pop.GetOr(0.0))
  }

  function Sum(xs: seq<real>): real {
    if xs == [] then 0.0 else xs[0] + Sum(xs[1..])
  }

  /** sum(xs) / len(xs) */
  function Mean(xs: seq<real>): real
    requires xs != []
  {
    Sum(xs) / (|xs| as real)
  }

  /** How often `x` occurs in `xs`. */
  function Count(xs: seq<string>, x: string): nat {
    if xs == [] then 0 else (if xs[0] == x then 1 else 0) + Count(xs[1..], x)
  }

  /** The first element of `cands` whose count in `xs` is largest. */
  function MostCommonOf(xs: seq<string>, cands: seq<string>): string
    requires cands != []
  {
    if |cands| == 1 then cands[0]
    else
      var rest := MostCommonOf(xs, cands[1..]);
      if Count(xs, cands[0]) >= Count(xs, rest) then cands[0] else rest
  }

  /** Counter(xs).most_common(1)[0][0]: a Counter keeps the order in which
      labels are first seen, and most_common(1) takes max() over that order by
      count, which returns the first label with the highest count. */
  function MostCommon(xs: seq<string>): string
    requires xs != []
  {
    MostCommonOf(xs, xs)
  }

  /** max(xs, default=0.0) */
  function MaxOr(xs: seq<real>, default: real): real {
    if xs == [] then default
    else if |xs| == 1 then xs[0]
    else
      var rest := MaxOr(xs[1..], default);
      if rest > xs[0] then rest else xs[0]
  }

  function ForecastRequest(location: string, key: string): Request {
    Request(FORECAST_URL, map["q" := location, "appid" := key, "units" := "metric"], REQUEST_TIMEOUT)
  }

  /** The summary of a reply's working set; the mean fails on an empty one. */
  function Summarize(ws: seq<Sample>): Result<Summary, WeatherError> {
    if ws == [] then Failure(NoSamples)
    else Success(Summary(Mean(Temperatures(ws)), MostCommon(Descriptions(ws)), MaxOr(Pops(ws), 0.0)))
  }

  /** get_daily_weather(location), with the environment, today's UTC date in
      ISO form and the forecast service passed in. */
  function GetDailyWeather(env: Env, location: string, today: string, api: Request -> Reply)
    : Result<Summary, WeatherError>
  {
    var key := Getenv(env, API_KEY_VAR);
    if !Truthy(key) then Failure(MissingApiKey)
    else
      match api(ForecastRequest(location, key.value))
      case HttpFailure(status) => Failure(HttpError(status))
      case Json(samples) => Summarize(WorkingSet(samples.GetOr([]), today))
  }

  // ---------------------------------------------------------------------------
  // Properties
  // ---------------------------------------------------------------------------

  /** Without a key the result is the key error, whatever the service would
      have answered. */
  lemma KeyCheckedFirst(env: Env, location: string, today: string, api: Request -> Reply)
    requires !Truthy(Getenv(env, API_KEY_VAR))
    ensures GetDailyWeather(env, location, today, api) == Failure(MissingApiKey)
  {
  }

  /** A sample is one of today's exactly when it is in the list and its date
      text starts with `today`. */
  lemma {:induction false} TodaysMembers(samples: seq<Sample>, today: string, s: Sample)
    ensures s in TodaysSamples(samples, today) <==> s in samples && IsToday(s, today)
  {
    if samples != [] {
      TodaysMembers(samples[1..], today, s);
      assert samples == [samples[0]] + samples[1..];
    }
  }

  /** ... and today's samples keep their list order. */
  lemma {:induction false} TodaysSubsequence(samples: seq<Sample>, today: string)
    ensures IsSubsequence(TodaysSamples(samples, today), samples)
  {
    if samples != [] {
      TodaysSubsequence(samples[1..], today);
      var t := TodaysSamples(samples, today);
      if IsToday(samples[0], today) {
        assert t[0] == samples[0] && t[1..] == TodaysSamples(samples[1..], today);
      } else {
        assert t == TodaysSamples(samples[1..], today);
      }
    }
  }

  /** The working set: today's samples when there are any, otherwise the first
      sample alone; empty only for an empty list. */
  lemma WorkingSetChoice(samples: seq<Sample>, today: string)
    ensures (exists i :: 0 <= i < |samples| && IsToday(samples[i], today)) ==>
      WorkingSet(samples, today) == TodaysSamples(samples, today)
    ensures (forall i :: 0 <= i < |samples| ==> !IsToday(samples[i], today)) ==>
      WorkingSet(samples, today) == samples[..if samples == [] then 0 else 1]
    ensures WorkingSet(samples, today) == [] <==> samples == []
  {
    if exists i :: 0 <= i < |samples| && IsToday(samples[i], today) {
      var i :| 0 <= i < |samples| && IsToday(samples[i], today);
      TodaysMembers(samples, today, samples[i]);
    } else if samples != [] {
      NoneToday(samples, today);
    }
  }

  lemma NoneToday(samples: seq<Sample>, today: string)
    requires forall i :: 0 <= i < |samples| ==> !IsToday(samples[i], today)
    ensures TodaysSamples(samples, today) == []
  {
    if TodaysSamples(samples, today) != [] {
      var s := TodaysSamples(samples, today)[0];
      TodaysMembers(samples, today, s);
    }
  }

  lemma {:induction false} SumBounds(xs: seq<real>, lo: real, hi: real)
    requires forall i :: 0 <= i < |xs| ==> lo <= xs[i] <= hi
    ensures (|xs| as real) * lo <= Sum(xs) <= (|xs| as real) * hi
  {
    if xs != [] {
      SumBounds(xs[1..], lo, hi);
    }
  }

  /** The mean lies between any lower and upper bound of the values. */
  lemma MeanWithin(xs: seq<real>, lo: real, hi: real)
    requires xs != [] && forall i :: 0 <= i < |xs| ==> lo <= xs[i] <= hi
    ensures lo <= Mean(xs) <= hi
  {
    SumBounds(xs, lo, hi);
    var n := |xs| as real;
    assert Mean(xs) * n == Sum(xs);
  }

  /** The mean of equal values is that value. */
  lemma MeanOfEqual(xs: seq<real>, v: real)
    requires xs != [] && forall i :: 0 <= i < |xs| ==> xs[i] == v
    ensures Mean(xs) == v
  {
    MeanWithin(xs, v, v);
  }

  /** The first index of `x` in `xs`. */
  function IndexOf(xs: seq<string>, x: string): (k: nat)
    requires x in xs
    ensures k < |xs| && xs[k] == x && forall j :: 0 <= j < k ==> xs[j] != x
  {
    if xs[0] == x then 0 else 1 + IndexOf(xs[1..], x)
  }

  /** MostCommonOf picks a candidate with the highest count, and every
      candidate before it has a strictly lower count. */
  lemma {:induction false} MostCommonOfSpec(xs: seq<string>, cands: seq<string>)
    requires cands != []
    ensures MostCommonOf(xs, cands) in cands
    ensures forall j :: 0 <= j < |cands| ==> Count(xs, cands[j]) <= Count(xs, MostCommonOf(xs, cands))
    ensures forall j :: 0 <= j < IndexOf(cands, MostCommonOf(xs, cands)) ==>
      Count(xs, cands[j]) < Count(xs, MostCommonOf(xs, cands))
  {
    var m := MostCommonOf(xs, cands);
    if |cands| > 1 {
      var tail := cands[1..];
      var rest := MostCommonOf(xs, tail);
      MostCommonOfSpec(xs, tail);
      if Count(xs, cands[0]) >= Count(xs, rest) {
        assert m == cands[0];
        forall j | 0 <= j < |cands| ensures Count(xs, cands[j]) <= Count(xs, m) {
          if j > 0 { assert cands[j] == tail[j - 1]; }
        }
      } else {
        assert m == rest;
        forall j | 0 <= j < |cands| ensures Count(xs, cands[j]) <= Count(xs, m) {
          if j > 0 { assert cands[j] == tail[j - 1]; }
        }
        var k := IndexOf(tail, rest);
        assert rest != cands[0];
        assert IndexOf(cands, m) == 1 + k;
        forall j | 0 <= j < 1 + k ensures Count(xs, cands[j]) < Count(xs, m) {
          if j > 0 { assert cands[j] == tail[j - 1]; }
        }
      }
    }
  }

  /** The condition occurs in the descriptions, no description occurs more
      often, and every description seen before its first occurrence occurs
      strictly less often. */
  lemma MostCommonSpec(xs: seq<string>)
    requires xs != []
    ensures MostCommon(xs) in xs
    ensures forall j :: 0 <= j < |xs| ==> Count(xs, xs[j]) <= Count(xs, MostCommon(xs))
    ensures forall j :: 0 <= j < IndexOf(xs, MostCommon(xs)) ==> Count(xs, xs[j]) < Count(xs, MostCommon(xs))
  {
    MostCommonOfSpec(xs, xs);
  }

  /** When every description is the same, that description is the condition. */
  lemma MostCommonOfEqual(xs: seq<string>, d: string)
    requires xs != [] && forall i :: 0 <= i < |xs| ==> xs[i] == d
    ensures MostCommon(xs) == d
  {
    MostCommonSpec(xs);
  }

  /** The chance of rain bounds every value and is one of them, or the
      default when there are none. */
  lemma {:induction false} MaxOrSpec(xs: seq<real>, default: real)
    ensures xs == [] ==> MaxOr(xs, default) == default
    ensures xs != [] ==> MaxOr(xs, default) in xs
    ensures forall i :: 0 <= i < |xs| ==> xs[i] <= MaxOr(xs, default)
  {
    if |xs| > 1 {
      MaxOrSpec(xs[1..], default);
      forall i | 0 < i < |xs| ensures xs[i] <= MaxOr(xs, default) {
        assert xs[i] == xs[1..][i - 1];
      }
    }
  }

  /** What a summary says about its working set: the temperature lies
      between any bounds of the sample temperatures; the condition is a most
      frequent description, seen first among the tied ones; the chance of rain
      is a pop of the working set (0.0 for a missing one) and no pop is higher.
      It fails only for an empty working set. */
  lemma SummarizeSpec(ws: seq<Sample>, lo: real, hi: real)
    ensures Summarize(ws).Failure? <==> ws == []
    ensures var r := Summarize(ws);
      r.Success? ==>
        r.value.temperature == Mean(Temperatures(ws))
        && r.value.condition == MostCommon(Descriptions(ws))
        && r.value.condition in Descriptions(ws)
        && (forall i :: 0 <= i < |ws| ==>
              Count(Descriptions(ws), ws[i].description) <= Count(Descriptions(ws), r.value.condition))
        && r.value.chanceOfRain in Pops(ws)
        && (forall i :: 0 <= i < |ws| ==> ws[i].pop.GetOr(0.0) <= r.value.chanceOfRain)
        && ((forall i :: 0 <= i < |ws| ==> lo <= ws[i].temp <= hi) ==> lo <= r.value.temperature <= hi)
  {
    if ws != [] {
      var ds := Descriptions(ws);
      MostCommonSpec(ds);
      MaxOrSpec(Pops(ws), 0.0);
      if forall i :: 0 <= i < |ws| ==> lo <= ws[i].temp <= hi {
        MeanWithin(Temperatures(ws), lo, hi);
      }
    }
  }

  /** With a key and a good reply, the result is the summary of the working
      set, and it fails exactly when the reply lists no samples. */
  lemma WeatherOfReply(env: Env, location: string, today: string, api: Request -> Reply)
    requires Truthy(Getenv(env, API_KEY_VAR))
    requires api(ForecastRequest(location, env[API_KEY_VAR])).Json?
    ensures var samples := api(ForecastRequest(location, env[API_KEY_VAR])).samples.GetOr([]);
      GetDailyWeather(env, location, today, api) == Summarize(WorkingSet(samples, today))
      && (GetDailyWeather(env, location, today, api).Failure? <==> samples == [])
  {
    var samples := api(ForecastRequest(location, env[API_KEY_VAR])).samples.GetOr([]);
    WorkingSetChoice(samples, today);
    SummarizeSpec(WorkingSet(samples, today), 0.0, 0.0);
  }
}
