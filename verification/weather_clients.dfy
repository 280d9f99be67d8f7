/** The provider adapters and the aggregating client. The network is a parameter: a function
    from the request an adapter makes to the outcome of that HTTP call. */
module WeatherClients {
  import opened Wrappers
  import opened Errors
  import opened Json
  import opened Numbers
  import opened Schemas

  /** What an HTTP call came back with: a transport failure (connection error, timeout) or a
      response with a status and a parsed body. */
  datatype HttpOutcome = TransportError | Response(status: int, body: Json)

  /** The requests the adapters make; endpoints, keys and query parameters are not modelled. */
  datatype Request =
    | AccuWeatherSearch(query: string)
    | AccuWeatherConditions(locationKey: Json)
    | GeocodeSearch(query: string)
    | CurrentWeather(lat: Json, lon: Json)

  type Network = Request -> HttpOutcome

  datatype Provider = AccuWeather | OpenWeatherMap

  function ServiceLabel(p: Provider): string
  {
    match p
    case AccuWeather => "AccuWeather"
    case OpenWeatherMap => "OpenWeatherMap"
  }

  /** The label of the synthetic average record. */
  const AverageService: string := "Среднее на основе всех служб"

  predicate Succeeded(o: HttpOutcome)
  {
    o.Response? && 200 <= o.status < 300
  }

  /** `WeatherClient._request`: a transport error and a non-2xx status both become
      ExternalError, once, without retry; otherwise the body. */
  function Fetch(o: HttpOutcome): (r: Result<Json, Error>)
    ensures r.Ok? <==> Succeeded(o)
    ensures r.Ok? ==> r.value == o.body
    ensures r.Err? ==> r.error == ExternalError
  {
    match o
    case TransportError => Err(ExternalError)
    case Response(status, body) => if 200 <= status < 300 then Ok(body) else Err(ExternalError)
  }

  /** A subscript inside `try: ... except IndexError: raise ExternalError`. */
  function CatchIndexError(r: Result<Json, Crash>): (e: Result<Json, Error>)
  {
    match r
    case Ok(v) => Ok(v)
    case Err(IndexError) => Err(ExternalError)
    case Err(c) => Err(Unhandled(c))
  }

  /** A subscript nothing catches. */
  function Uncaught(r: Result<Json, Crash>): (e: Result<Json, Error>)
  {
    match r
    case Ok(v) => Ok(v)
    case Err(c) => Err(Unhandled(c))
  }

  // ---------------------------------------------------------------------------------------
  // AccuWeather: search the locality, take the first result's "Key", fetch its conditions.

  function AccuWeatherLocationKey(name: string, net: Network): Result<Json, Error>
  {
    var body :- Fetch(net(AccuWeatherSearch(name)));
    var first :- CatchIndexError(Subscript(body, 0));
    CatchIndexError(Item(first, "Key"))
  }

  /** The conditions response is a list; its first element is the reading. An empty list is an
      IndexError that nothing here catches. */
  function AccuWeatherCurrent(key: Json, net: Network): Result<Json, Error>
  {
    var body :- Fetch(net(AccuWeatherConditions(key)));
    Uncaught(Subscript(body, 0))
  }

  function AccuWeatherGet(name: string, net: Network): (r: Result<Json, Error>)
    ensures !Succeeded(net(AccuWeatherSearch(name))) ==> r == Err(ExternalError)
    ensures var o := net(AccuWeatherSearch(name));
            Succeeded(o) && o.body == Arr([]) ==> r == Err(ExternalError)
    ensures r.Ok? ==>
              var o := net(AccuWeatherSearch(name));
              && Succeeded(o) && o.body.Arr? && |o.body.items| > 0
              && o.body.items[0].Obj? && "Key" in o.body.items[0].fields
              && var c := net(AccuWeatherConditions(o.body.items[0].fields["Key"]));
                 Succeeded(c) && Subscript(c.body, 0) == Ok(r.value)
    ensures var o := net(AccuWeatherSearch(name));
            Succeeded(o) && o.body.Arr? && |o.body.items| > 0
            && o.body.items[0].Obj? && "Key" in o.body.items[0].fields ==>
              var c := net(AccuWeatherConditions(o.body.items[0].fields["Key"]));
              && (!Succeeded(c) ==> r == Err(ExternalError))
              && (Succeeded(c) && c.body.Arr? && |c.body.items| > 0 ==> r == Ok(c.body.items[0]))
              && (Succeeded(c) && c.body == Arr([]) ==> r == Err(Unhandled(IndexError)))
    ensures var o := net(AccuWeatherSearch(name));
            Succeeded(o) && o.body.Arr? && |o.body.items| > 0
            && !(o.body.items[0].Obj? && "Key" in o.body.items[0].fields) ==>
              r.Err? && r.error.Unhandled?
  {
    var key :- AccuWeatherLocationKey(name, net);
    AccuWeatherCurrent(key, net)
  }

  // ---------------------------------------------------------------------------------------
  // OpenWeatherMap: geocode the locality, take the first result's coordinates, fetch the weather.

  function OpenWeatherMapCoordinates(name: string, net: Network): Result<(Json, Json), Error>
  {
    var body :- Fetch(net(GeocodeSearch(name)));
    var first :- CatchIndexError(Subscript(body, 0));
    var lat :- Uncaught(Item(first, "lat"));
    var lon :- Uncaught(Item(first, "lon"));
    Ok((lat, lon))
  }

  function OpenWeatherMapGet(name: string, net: Network): (r: Result<Json, Error>)
    ensures !Succeeded(net(GeocodeSearch(name))) ==> r == Err(ExternalError)
    ensures var o := net(GeocodeSearch(name));
            Succeeded(o) && o.body == Arr([]) ==> r == Err(ExternalError)
    ensures r.Ok? ==>
              var o := net(GeocodeSearch(name));
              && Succeeded(o) && o.body.Arr? && |o.body.items| > 0
              && var first := o.body.items[0];
                 && first.Obj? && "lat" in first.fields && "lon" in first.fields
                 && var c := net(CurrentWeather(first.fields["lat"], first.fields["lon"]));
                    Succeeded(c) && r.value == c.body
    ensures var o := net(GeocodeSearch(name));
            Succeeded(o) && o.body.Arr? && |o.body.items| > 0 ==>
              var first := o.body.items[0];
              if first.Obj? && "lat" in first.fields && "lon" in first.fields then
                r == Fetch(net(CurrentWeather(first.fields["lat"], first.fields["lon"])))
              else
                r.Err? && r.error.Unhandled?
  {
    var coordinates :- OpenWeatherMapCoordinates(name, net);
    Fetch(net(CurrentWeather(coordinates.0, coordinates.1)))
  }

  function ProviderGet(p: Provider, name: string, net: Network): Result<Json, Error>
  {
    match p
    case AccuWeather => AccuWeatherGet(name, net)
    case OpenWeatherMap => OpenWeatherMapGet(name, net)
  }

  // ---------------------------------------------------------------------------------------
  // Aggregation

  /** `{"service": label, **weather}`: the label first, overridden by a "service" key of the
      response; unpacking anything but a dict is a TypeError. */
  function Tag(service: string, weather: Json): (r: Result<map<string, Json>, Error>)
    ensures r.Ok? <==> weather.Obj?
    ensures r.Err? ==> r.error == Unhandled(TypeError)
    ensures r.Ok? ==> r.value.Keys == weather.fields.Keys + {"service"}
    ensures r.Ok? ==> forall k :: k in weather.fields ==> r.value[k] == weather.fields[k]
    ensures r.Ok? && "service" !in weather.fields ==> r.value["service"] == Str(service)
  {
    if weather.Obj? then Ok(map["service" := Str(service)] + weather.fields)
    else Err(Unhandled(TypeError))
  }

  /** Tags every response with the label of the client that fetched it, pairing them in order. */
  function TagAll(clients: seq<Provider>, bodies: seq<Json>): (r: Result<seq<map<string, Json>>, Error>)
    requires |clients| == |bodies|
    ensures r.Ok? <==> forall i :: 0 <= i < |bodies| ==> bodies[i].Obj?
    ensures r.Ok? ==> |r.value| == |bodies|
    ensures r.Ok? ==> forall i :: 0 <= i < |bodies| ==> Tag(ServiceLabel(clients[i]), bodies[i]) == Ok(r.value[i])
    ensures r.Err? ==> r.error == Unhandled(TypeError)
  {
    if clients == [] then Ok([])
    else
      var head :- Tag(ServiceLabel(clients[0]), bodies[0]);
      var rest :- TagAll(clients[1..], bodies[1..]);
      Ok([head] + rest)
  }

  /** One client's share of the aggregation: fetch, tag with the client's label, validate. */
  function Validated(p: Provider, name: string, net: Network): (r: Result<Weather, Error>)
    ensures r.Ok? ==> WellFormed(r.value)
    ensures r.Ok? ==> ProviderGet(p, name, net).Ok? && ProviderGet(p, name, net).value.Obj?
    ensures r.Ok? && "service" !in ProviderGet(p, name, net).value.fields ==> r.value.service == ServiceLabel(p)
    ensures ProviderGet(p, name, net).Err? ==> r == Err(ProviderGet(p, name, net).error)
  {
    var body :- ProviderGet(p, name, net);
    var tagged :- Tag(ServiceLabel(p), body);
    Normalize(tagged)
  }

  /** A fetched answer is tagged with the client's label and validated: a dict becomes whatever
      `Normalize` makes of it, anything else is a TypeError. */
  lemma ValidatedFetched(p: Provider, name: string, net: Network)
    requires ProviderGet(p, name, net).Ok?
    ensures var b := ProviderGet(p, name, net).value;
            if b.Obj? then Validated(p, name, net) == Normalize(map["service" := Str(ServiceLabel(p))] + b.fields)
            else Validated(p, name, net) == Err(Unhandled(TypeError))
  {
  }

  /** Every client's fetch for the locality, as one function over clients. */
  function Fetcher(name: string, net: Network): Provider -> Result<Json, Error>
  {
    p => ProviderGet(p, name, net)
  }

  /** A failed fetch is that client's failure. */
  lemma FetchFailureOrigin(clients: seq<Provider>, name: string, net: Network)
    requires Collect(clients, Fetcher(name, net)).Err?
    ensures exists i :: 0 <= i < |clients|
                        && Validated(clients[i], name, net) == Err(Collect(clients, Fetcher(name, net)).error)
  {
    var e := Collect(clients, Fetcher(name, net)).error;
    var i :| 0 <= i < |clients| && Fetcher(name, net)(clients[i]) == Err(e);
    assert ProviderGet(clients[i], name, net) == Err(e);
    assert Validated(clients[i], name, net) == Err(e);
  }

  /** A failed tagging is the failure of a client whose answer is not a dict. */
  lemma TagFailureOrigin(clients: seq<Provider>, name: string, net: Network, bodies: seq<Json>)
    requires Collect(clients, Fetcher(name, net)) == Ok(bodies)
    requires TagAll(clients, bodies).Err?
    ensures exists i :: 0 <= i < |clients| && Validated(clients[i], name, net) == Err(TagAll(clients, bodies).error)
  {
    var i :| 0 <= i < |bodies| && !bodies[i].Obj?;
    assert ProviderGet(clients[i], name, net) == Ok(bodies[i]);
    ValidatedFetched(clients[i], name, net);
  }

  /** A failed validation is the failure of the client whose tagged answer it was. */
  lemma NormalizeFailureOrigin(clients: seq<Provider>, name: string, net: Network, bodies: seq<Json>,
                               dicts: seq<map<string, Json>>)
    requires Collect(clients, Fetcher(name, net)) == Ok(bodies)
    requires TagAll(clients, bodies) == Ok(dicts)
    requires Collect(dicts, Normalize).Err?
    ensures exists i :: 0 <= i < |clients| && Validated(clients[i], name, net) == Err(Collect(dicts, Normalize).error)
  {
    var i :| 0 <= i < |dicts| && Normalize(dicts[i]) == Err(Collect(dicts, Normalize).error);
    assert ProviderGet(clients[i], name, net) == Ok(bodies[i]);
    assert Tag(ServiceLabel(clients[i]), bodies[i]) == Ok(dicts[i]);
    ValidatedFetched(clients[i], name, net);
  }

  /** `_aggregate`: fetch from every client (the fan-out of `asyncio.gather`, in client order),
      tag, then validate each tagged dict (`many_from_dict(PydanticWeather)`). All or nothing;
      a failure is always some client's own failure. */
  function Aggregate(clients: seq<Provider>, locality: Locality, net: Network): (r: Result<seq<Weather>, Error>)
    ensures r.Ok? <==> forall i :: 0 <= i < |clients| ==> Validated(clients[i], locality.name, net).Ok?
    ensures r.Ok? ==> |r.value| == |clients|
    ensures r.Ok? ==> forall i :: 0 <= i < |clients| ==> Validated(clients[i], locality.name, net) == Ok(r.value[i])
    ensures (exists i :: 0 <= i < |clients| && ProviderGet(clients[i], locality.name, net).Err?) ==> r.Err?
    ensures r.Err? ==> exists i :: 0 <= i < |clients| && Validated(clients[i], locality.name, net) == Err(r.error)
  {
    match Collect(clients, Fetcher(locality.name, net))
    case Err(e) =>
      FetchFailureOrigin(clients, locality.name, net);
      Err(e)
    case Ok(bodies) =>
      match TagAll(clients, bodies)
      case Err(e) =>
        TagFailureOrigin(clients, locality.name, net, bodies);
        Err(e)
      case Ok(dicts) =>
        match Collect(dicts, Normalize)
        case Err(e) =>
          NormalizeFailureOrigin(clients, locality.name, net, bodies, dicts);
          Err(e)
        case Ok(ws) => Ok(ws)
  }

  /** The first client, in order, whose fetch fails decides the error. */
  lemma AggregateFetchFailure(clients: seq<Provider>, locality: Locality, net: Network, i: nat)
    requires i < |clients| && ProviderGet(clients[i], locality.name, net).Err?
    requires forall k :: 0 <= k < i ==> ProviderGet(clients[k], locality.name, net).Ok?
    ensures Aggregate(clients, locality, net) == Err(ProviderGet(clients[i], locality.name, net).error)
  {
    CollectFirstFailure(clients, Fetcher(locality.name, net), i);
  }

  /** When every fetch succeeds, an answer that is not a dict fails the whole with a TypeError,
      whatever the other answers are. */
  lemma AggregateTagFailure(clients: seq<Provider>, locality: Locality, net: Network, i: nat)
    requires forall k :: 0 <= k < |clients| ==> ProviderGet(clients[k], locality.name, net).Ok?
    requires i < |clients| && !ProviderGet(clients[i], locality.name, net).value.Obj?
    ensures Aggregate(clients, locality, net) == Err(Unhandled(TypeError))
  {
    var bodies := Collect(clients, Fetcher(locality.name, net)).value;
    assert bodies[i] == ProviderGet(clients[i], locality.name, net).value;
  }

  /** When every fetch succeeds with a dict, the first client, in order, whose answer does not
      validate decides the error. */
  lemma AggregateValidationFailure(clients: seq<Provider>, locality: Locality, net: Network, i: nat)
    requires forall k :: 0 <= k < |clients| ==> ProviderGet(clients[k], locality.name, net).Ok?
    requires forall k :: 0 <= k < |clients| ==> ProviderGet(clients[k], locality.name, net).value.Obj?
    requires i < |clients| && Validated(clients[i], locality.name, net).Err?
    requires forall k :: 0 <= k < i ==> Validated(clients[k], locality.name, net).Ok?
    ensures Aggregate(clients, locality, net) == Err(Validated(clients[i], locality.name, net).error)
  {
    var bodies := Collect(clients, Fetcher(locality.name, net)).value;
    assert forall k :: 0 <= k < |clients| ==> bodies[k] == ProviderGet(clients[k], locality.name, net).value;
    var dicts := TagAll(clients, bodies).value;
    forall k | 0 <= k < |clients|
      ensures Normalize(dicts[k]) == Validated(clients[k], locality.name, net)
    {
      ValidatedFetched(clients[k], locality.name, net);
    }
    CollectFirstFailure(dicts, Normalize, i);
  }

  /** The values of one field across the records, in order. */
  function Column(ws: seq<Weather>, f: Field): (xs: seq<real>)
    ensures |xs| == |ws|
    ensures forall i :: 0 <= i < |ws| ==> xs[i] == Get(ws[i], f)
  {
    seq(|ws|, i requires 0 <= i < |ws| => Get(ws[i], f))
  }

  /** The keyword arguments of the average record: the label and, per averaged field, the mean
      of that field over the records. */
  function AverageArguments(ws: seq<Weather>): (d: map<string, Json>)
    requires |ws| > 0
    ensures d.Keys <= RecordKeys && "summary" !in d
    ensures "service" in d && d["service"] == Str(AverageService)
    ensures "real_temperature" in d && d["real_temperature"] == Num(Mean(Column(ws, RealTemperature)))
    ensures "feels_like_temperature" in d && d["feels_like_temperature"] == Num(Mean(Column(ws, FeelsLikeTemperature)))
    ensures "atmospheric_pressure" in d && d["atmospheric_pressure"] == Num(Mean(Column(ws, AtmosphericPressure)))
    ensures "wind_speed" in d && d["wind_speed"] == Num(Mean(Column(ws, WindSpeed)))
    ensures "cloudiness" in d && d["cloudiness"] == Num(Mean(Column(ws, Cloudiness)))
    ensures "humidity" in d && d["humidity"] == Num(Mean(Column(ws, Humidity)))
  {
    map["service" := Str(AverageService),
        FieldName(RealTemperature) := Num(Mean(Column(ws, RealTemperature))),
        FieldName(FeelsLikeTemperature) := Num(Mean(Column(ws, FeelsLikeTemperature))),
        FieldName(AtmosphericPressure) := Num(Mean(Column(ws, AtmosphericPressure))),
        FieldName(WindSpeed) := Num(Mean(Column(ws, WindSpeed))),
        FieldName(Cloudiness) := Num(Mean(Column(ws, Cloudiness))),
        FieldName(Humidity) := Num(Mean(Column(ws, Humidity)))]
  }

  /** Every averaged field is passed as the mean of its column. */
  lemma AverageArgument(ws: seq<Weather>, f: Field)
    requires |ws| > 0
    ensures FieldName(f) in AverageArguments(ws)
    ensures AverageArguments(ws)[FieldName(f)] == Num(Mean(Column(ws, f)))
  {
    match f
    case RealTemperature =>
    case FeelsLikeTemperature =>
    case AtmosphericPressure =>
    case WindSpeed =>
    case Cloudiness =>
    case Humidity =>
  }

  /** Percentages in range stay in range when averaged. */
  lemma PercentageMeanInRange(ws: seq<Weather>, f: Field)
    requires |ws| > 0 && IsPercentage(f)
    requires forall i :: 0 <= i < |ws| ==> InRange(ws[i])
    ensures 0.0 <= Mean(Column(ws, f)) <= 100.0
  {
    var xs := Column(ws, f);
    assert forall i :: 0 <= i < |xs| ==> 0.0 <= xs[i] <= 100.0 by {
      forall i | 0 <= i < |xs| ensures 0.0 <= xs[i] <= 100.0 {
        assert xs[i] == Get(ws[i], f);
      }
    }
    MeanBounds(xs, 0.0, 100.0);
  }

  /** When every record is in range, each averaged field validates to its rounded mean. */
  lemma AverageNumber(ws: seq<Weather>, f: Field)
    requires |ws| > 0
    requires forall i :: 0 <= i < |ws| ==> InRange(ws[i])
    ensures ValidateNumber(Obj(AverageArguments(ws)), f) == Ok(Round1(Mean(Column(ws, f))))
  {
    RecordKeysAreNotAliasKeys();
    AverageArgument(ws, f);
    if IsPercentage(f) {
      PercentageMeanInRange(ws, f);
    }
    NumberByName(AverageArguments(ws), f, Mean(Column(ws, f)));
  }

  /** When every record is in range, the average validates to the rounded means, with no
      summary. */
  lemma AverageValidates(ws: seq<Weather>)
    requires |ws| > 0
    ensures (forall i :: 0 <= i < |ws| ==> InRange(ws[i])) ==>
              Normalize(AverageArguments(ws)) == Ok(Weather(AverageService, None,
                Round1(Mean(Column(ws, RealTemperature))), Round1(Mean(Column(ws, FeelsLikeTemperature))),
                Round1(Mean(Column(ws, AtmosphericPressure))), Round1(Mean(Column(ws, WindSpeed))),
                Round1(Mean(Column(ws, Cloudiness))), Round1(Mean(Column(ws, Humidity)))))
  {
    RecordKeysAreNotAliasKeys();
    if forall i :: 0 <= i < |ws| ==> InRange(ws[i]) {
      var d := AverageArguments(ws);
      AverageNumber(ws, RealTemperature);
      AverageNumber(ws, FeelsLikeTemperature);
      AverageNumber(ws, AtmosphericPressure);
      AverageNumber(ws, WindSpeed);
      AverageNumber(ws, Cloudiness);
      AverageNumber(ws, Humidity);
      ByName(d, RealTemperature);
      NormalizeFromParts(d, Weather(AverageService, None,
        Round1(Mean(Column(ws, RealTemperature))), Round1(Mean(Column(ws, FeelsLikeTemperature))),
        Round1(Mean(Column(ws, AtmosphericPressure))), Round1(Mean(Column(ws, WindSpeed))),
        Round1(Mean(Column(ws, Cloudiness))), Round1(Mean(Column(ws, Humidity)))));
    }
  }

  /** One averaged field of whatever the average validates to is the rounded mean. */
  lemma AverageField(ws: seq<Weather>, average: Weather, f: Field)
    requires |ws| > 0
    requires Normalize(AverageArguments(ws)) == Ok(average)
    ensures Get(average, f) == Round1(Mean(Column(ws, f)))
  {
    RecordKeysAreNotAliasKeys();
    var d := AverageArguments(ws);
    NormalizeParts(d, average);
    AverageArgument(ws, f);
    NumberByName(d, f, Mean(Column(ws, f)));
  }

  /** Whatever the average validates to carries the label, no summary and the rounded means. */
  lemma AverageFields(ws: seq<Weather>, average: Weather)
    requires |ws| > 0
    requires Normalize(AverageArguments(ws)) == Ok(average)
    ensures average.service == AverageService && average.summary.None?
    ensures forall f :: Get(average, f) == Round1(Mean(Column(ws, f)))
  {
    RecordKeysAreNotAliasKeys();
    var d := AverageArguments(ws);
    NormalizeParts(d, average);
    ByName(d, RealTemperature);
    forall f ensures Get(average, f) == Round1(Mean(Column(ws, f))) {
      AverageField(ws, average, f);
    }
  }

  /** `_compare`: appends the average of the records, leaving them as they are. No records is
      the `statistics.mean` error. */
  function Compare(ws: seq<Weather>): (r: Result<seq<Weather>, Error>)
    ensures |ws| == 0 ==> r == Err(Unhandled(StatisticsError))
    ensures |ws| > 0 && (forall i :: 0 <= i < |ws| ==> InRange(ws[i])) ==> r.Ok?
    ensures r.Ok? ==> |ws| > 0 && |r.value| == |ws| + 1 && r.value[..|ws|] == ws
    ensures r.Ok? ==> r.value[|ws|].service == AverageService && r.value[|ws|].summary.None?
    ensures r.Ok? ==> forall f :: Get(r.value[|ws|], f) == Round1(Mean(Column(ws, f)))
    ensures r.Ok? ==> WellFormed(r.value[|ws|])
  {
    if |ws| == 0 then Err(Unhandled(StatisticsError))
    else
      AverageValidates(ws);
      var average :- Normalize(AverageArguments(ws));
      AverageFields(ws, average);
      assert (ws + [average])[..|ws|] == ws;
      Ok(ws + [average])
  }

  /** Every aggregated record is well formed, hence in range. */
  lemma AggregatedWellFormed(clients: seq<Provider>, locality: Locality, net: Network, ws: seq<Weather>)
    requires Aggregate(clients, locality, net) == Ok(ws)
    ensures forall i :: 0 <= i < |ws| ==> WellFormed(ws[i]) && InRange(ws[i])
  {
    forall i | 0 <= i < |ws| ensures WellFormed(ws[i]) && InRange(ws[i]) {
      assert Validated(clients[i], locality.name, net) == Ok(ws[i]);
    }
  }

  /** `AggregatingWeatherClient.get`: the records of every client, in client order, followed by
      their average. */
  function AggregatedGet(clients: seq<Provider>, locality: Locality, net: Network): (r: Result<seq<Weather>, Error>)
    ensures clients == [] ==> r == Err(Unhandled(StatisticsError))
    ensures r.Ok? <==> |clients| > 0 && Aggregate(clients, locality, net).Ok?
    ensures Aggregate(clients, locality, net).Err? ==> r == Err(Aggregate(clients, locality, net).error)
    ensures r.Ok? ==> |r.value| == |clients| + 1
    ensures r.Ok? ==> r.value[..|clients|] == Aggregate(clients, locality, net).value
    ensures r.Ok? ==> r.value[|clients|].service == AverageService
    ensures r.Ok? ==> forall f :: Get(r.value[|clients|], f) == Round1(Mean(Column(r.value[..|clients|], f)))
    ensures r.Ok? ==> WellFormed(r.value[|clients|])
  {
    var ws :- Aggregate(clients, locality, net);
    AggregatedWellFormed(clients, locality, net, ws);
    Compare(ws)
  }

  /** Every record of a comparison, the average included, is well formed. */
  lemma ComparisonRecordWellFormed(clients: seq<Provider>, locality: Locality, net: Network, i: nat)
    requires AggregatedGet(clients, locality, net).Ok? && i < |AggregatedGet(clients, locality, net).value|
    ensures WellFormed(AggregatedGet(clients, locality, net).value[i])
  {
    var r := AggregatedGet(clients, locality, net).value;
    if i < |clients| {
      var ws := Aggregate(clients, locality, net).value;
      AggregatedWellFormed(clients, locality, net, ws);
      assert r[i] == r[..|clients|][i] == ws[i];
    }
  }
}
