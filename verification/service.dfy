/** The application service: registration, a weather request that is also recorded in the
    history, and the history query. The store, the network and the clock are parameters. */
module Service {
  import opened Wrappers
  import opened Errors
  import opened Json
  import opened Schemas
  import opened WeatherClients
  import opened Repositories

  /** `register`: stores the user once. */
  function Register(s: Store, u: User): (r: Result<Store, Error>)
    ensures IsBigint(u.id) && |u.firstName| <= 64 ==>
              if u.id in s.users then r == Err(AlreadyExistsError)
              else r == Ok(s.(users := s.users[u.id := u.firstName]))
    ensures r.Ok? ==> r.value.history == s.history
  {
    CreateUser(s, u)
  }

  /** Every record of a comparison as `to_dict(exclude_none=True)`, in order; each dict of a
      well-formed record validates back to that record. */
  function ComparisonDicts(comparison: seq<Weather>): (ds: seq<map<string, Json>>)
    ensures |ds| == |comparison|
    ensures forall i :: 0 <= i < |comparison| ==> ds[i] == WeatherToDict(comparison[i])
    ensures forall i :: 0 <= i < |comparison| && WellFormed(comparison[i]) ==> Normalize(ds[i]) == Ok(comparison[i])
  {
    var ds := seq(|comparison|, i requires 0 <= i < |comparison| => WeatherToDict(comparison[i]));
    assert forall i :: 0 <= i < |comparison| && WellFormed(comparison[i]) ==> Normalize(ds[i]) == Ok(comparison[i]) by {
      forall i | 0 <= i < |comparison| && WellFormed(comparison[i])
        ensures Normalize(ds[i]) == Ok(comparison[i])
      {
        WeatherDictRoundTrip(comparison[i]);
      }
    }
    ds
  }

  /** The history entry for a comparison: not yet numbered nor stamped. */
  function ComparisonRecord(locality: Locality, comparison: seq<Weather>): HistoryRecord
  {
    HistoryRecord(locality.userId, None, locality.name, ComparisonDicts(comparison), None)
  }

  /** `get_weather`: compares the services, records the whole comparison (average included)
      under the user, and returns the comparison. A failed comparison records nothing. */
  function GetWeather(clients: seq<Provider>, net: Network, s: Store, locality: Locality, now: int)
    : (r: Result<(seq<Weather>, Store), Error>)
    ensures AggregatedGet(clients, locality, net).Err? ==> r == Err(AggregatedGet(clients, locality, net).error)
    ensures AggregatedGet(clients, locality, net).Ok? && IsBigint(locality.userId) ==> r.Ok?
    ensures r.Ok? ==> r.value.0 == AggregatedGet(clients, locality, net).value
    ensures r.Ok? ==> r.value.1.users == s.users
    ensures r.Ok? ==>
              r.value.1.history == s.history + [Row(s.nextId, locality.userId, locality.name, Some(ComparisonDicts(r.value.0)), now)]
    ensures Valid(s) && r.Ok? ==> Valid(r.value.1)
  {
    var comparison :- AggregatedGet(clients, locality, net);
    var stored :- CreateRecord(s, ComparisonRecord(locality, comparison), now);
    Ok((comparison, stored))
  }

  /** `get_history`: the user's stored comparisons. */
  function GetHistory(s: Store, q: HistoryQuery): (r: Result<seq<HistoryRecord>, Error>)
    ensures Valid(s) ==> r.Ok?
    ensures r.Ok? ==> forall i :: 0 <= i < |r.value| ==> r.value[i].userId == q.userId
    ensures r.Ok? ==> forall row :: row in s.history && row.userId == q.userId ==>
              RecordOf(row).Ok? && RecordOf(row).value in r.value
  {
    GetAllRecords(s, q)
  }

  /** The stored dicts validate back to the comparison they were made from. */
  lemma StoredComparisonRoundTrip(clients: seq<Provider>, net: Network, s: Store, locality: Locality, now: int)
    requires GetWeather(clients, net, s, locality, now).Ok?
    ensures var comparison := GetWeather(clients, net, s, locality, now).value.0;
            forall i :: 0 <= i < |comparison| ==> Normalize(ComparisonDicts(comparison)[i]) == Ok(comparison[i])
  {
    var comparison := GetWeather(clients, net, s, locality, now).value.0;
    assert comparison == AggregatedGet(clients, locality, net).value;
    forall i | 0 <= i < |comparison| ensures Normalize(ComparisonDicts(comparison)[i]) == Ok(comparison[i]) {
      ComparisonRecordWellFormed(clients, locality, net, i);
    }
  }

  /** After a weather request the user's history ends with that comparison. */
  lemma WeatherThenHistory(clients: seq<Provider>, net: Network, s: Store, locality: Locality, now: int)
    requires Valid(s) && GetWeather(clients, net, s, locality, now).Ok?
    ensures var (comparison, s') := GetWeather(clients, net, s, locality, now).value;
            && GetHistory(s', HistoryQuery(locality.userId)).Ok?
            && GetHistory(s, HistoryQuery(locality.userId)).Ok?
            && GetHistory(s', HistoryQuery(locality.userId)).value ==
               GetHistory(s, HistoryQuery(locality.userId)).value
               + [HistoryRecord(locality.userId, Some(s.nextId), locality.name, ComparisonDicts(comparison), Some(now))]
  {
    var (comparison, s') := GetWeather(clients, net, s, locality, now).value;
    OwnHistoryGrows(s, ComparisonRecord(locality, comparison), now, s');
  }

  /** A weather request leaves every other user's history as it was. */
  lemma WeatherKeepsOtherHistories(clients: seq<Provider>, net: Network, s: Store, locality: Locality, now: int, other: int)
    requires other != locality.userId && GetWeather(clients, net, s, locality, now).Ok?
    ensures GetHistory(GetWeather(clients, net, s, locality, now).value.1, HistoryQuery(other))
            == GetHistory(s, HistoryQuery(other))
  {
    var (comparison, s') := GetWeather(clients, net, s, locality, now).value;
    OtherHistoriesUnchanged(s, ComparisonRecord(locality, comparison), now, s', other);
  }
}
