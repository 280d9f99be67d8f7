/** The PostgreSQL store behind the repository, as two tables, and the repository operations
    that run one statement each against it. */
module Repositories {
  import opened Wrappers
  import opened Errors
  import opened Json
  import opened Schemas

  /** `BIGINT` columns hold signed 64-bit integers. */
  const MinBigint: int := -0x8000_0000_0000_0000
  const MaxBigint: int := 0x7FFF_FFFF_FFFF_FFFF

  predicate IsBigint(n: int)
  {
    MinBigint <= n <= MaxBigint
  }

  /** A row of `history`. `weather` is a nullable `JSONB` column; `timestamp` defaults to the
      time of the insert. The `UUID` key is modelled by a number drawn from a counter. */
  datatype Row = Row(id: nat, userId: int, locality: string,
                     weather: Option<seq<map<string, Json>>>, timestamp: int)

  /** The `users` table (primary key `id`, `first_name VARCHAR(64)`), the `history` table in
      insertion order, and the next history key. */
  datatype Store = Store(users: map<int, string>, history: seq<Row>, nextId: nat)

  /** Every history key is below `nextId` and distinct, and every row has its weather. */
  ghost predicate Valid(s: Store)
  {
    && (forall i :: 0 <= i < |s.history| ==> s.history[i].id < s.nextId && s.history[i].weather.Some?)
    && (forall i, j :: 0 <= i < j < |s.history| ==> s.history[i].id != s.history[j].id)
  }

  const Empty: Store := Store(map[], [], 0)

  lemma EmptyValid()
    ensures Valid(Empty)
  {
  }

  // ---------------------------------------------------------------------------------------
  // Statements

  /** The parameters fit the `users` columns. */
  predicate UserParams(params: seq<Value>)
  {
    |params| == 2 && params[0].IntV? && params[1].TextV? && IsBigint(params[0].i) && |params[1].s| <= 64
  }

  /** `INSERT INTO users VALUES ($1, $2)`: values that do not fit the columns are a data error;
      an existing key violates the primary key. */
  function InsertUser(s: Store, params: seq<Value>): (r: Result<Store, Error>)
    ensures r.Ok? <==> UserParams(params) && params[0].i !in s.users
    ensures r.Ok? ==> r.value == s.(users := s.users[params[0].i := params[1].s])
    ensures UserParams(params) && params[0].i in s.users ==> r == Err(UniqueViolation)
    ensures !UserParams(params) ==> r == Err(Unhandled(DataError))
  {
    if UserParams(params) then
      var id := params[0].i;
      if id in s.users then Err(UniqueViolation)
      else Ok(s.(users := s.users[id := params[1].s]))
    else Err(Unhandled(DataError))
  }

  /** `INSERT INTO history (user_id, locality, weather) VALUES ($1, $2, $3)` at time `now`. */
  function InsertHistory(s: Store, params: seq<Value>, now: int): (r: Result<Store, Error>)
    ensures r.Ok? <==> |params| == 3 && params[0].IntV? && IsBigint(params[0].i)
                       && params[1].TextV? && params[2].DictsV?
    ensures r.Ok? ==> r.value == s.(history := s.history + [Row(s.nextId, params[0].i, params[1].s, Some(params[2].ds), now)],
                                     nextId := s.nextId + 1)
    ensures r.Err? ==> r.error == Unhandled(DataError)
  {
    if |params| == 3 && params[0].IntV? && IsBigint(params[0].i)
       && params[1].TextV? && params[2].DictsV? then
      Ok(s.(history := s.history + [Row(s.nextId, params[0].i, params[1].s, Some(params[2].ds), now)],
            nextId := s.nextId + 1))
    else Err(Unhandled(DataError))
  }

  /** The rows of `rows` belonging to `userId`, in table order. */
  function RowsOf(rows: seq<Row>, userId: int): (r: seq<Row>)
    ensures forall i :: 0 <= i < |r| ==> r[i] in rows && r[i].userId == userId
    ensures forall row :: row in rows && row.userId == userId ==> row in r
  {
    if rows == [] then []
    else if rows[0].userId == userId then [rows[0]] + RowsOf(rows[1..], userId)
    else RowsOf(rows[1..], userId)
  }

  lemma {:induction false} RowsOfAppend(rows: seq<Row>, row: Row, userId: int)
    ensures RowsOf(rows + [row], userId) == RowsOf(rows, userId) + (if row.userId == userId then [row] else [])
  {
    if rows == [] {
      assert rows + [row] == [row];
    } else {
      assert (rows + [row])[1..] == rows[1..] + [row];
      RowsOfAppend(rows[1..], row, userId);
    }
  }

  /** `SELECT * FROM history WHERE user_id = $1`. SQL leaves the order open; the model
      returns table order. */
  function SelectHistory(s: Store, params: seq<Value>): (r: Result<seq<Row>, Error>)
    ensures r.Ok? <==> |params| == 1 && params[0].IntV?
    ensures r.Ok? ==> forall row :: row in r.value <==> row in s.history && row.userId == params[0].i
    ensures r.Err? ==> r.error == Unhandled(DataError)
  {
    if |params| == 1 && params[0].IntV? then Ok(RowsOf(s.history, params[0].i))
    else Err(Unhandled(DataError))
  }

  // ---------------------------------------------------------------------------------------
  // Repository

  /** `create_user`: a duplicate key becomes AlreadyExistsError. */
  function CreateUser(s: Store, u: User): (r: Result<Store, Error>)
    ensures IsBigint(u.id) && |u.firstName| <= 64 && u.id in s.users ==> r == Err(AlreadyExistsError)
    ensures r.Ok? <==> IsBigint(u.id) && |u.firstName| <= 64 && u.id !in s.users
    ensures r.Ok? ==> r.value == s.(users := s.users[u.id := u.firstName])
    ensures r.Err? ==> r.error in {AlreadyExistsError, Unhandled(DataError)}
  {
    UserTuple(u);
    var inserted := InsertUser(s, ToTuple(UserToDict(u)));
    if inserted == Err(UniqueViolation) then Err(AlreadyExistsError) else inserted
  }

  /** A row read back into a `PydanticHistoryRecord`; a row without weather does not validate. */
  function RecordOf(row: Row): (r: Result<HistoryRecord, Error>)
    ensures r.Ok? <==> row.weather.Some?
    ensures r.Ok? ==> r.value.id == Some(row.id) && r.value.userId == row.userId
                      && r.value.locality == row.locality && Some(r.value.weather) == row.weather
                      && r.value.timestamp == Some(row.timestamp)
    ensures r.Err? ==> r.error == ValidationError
  {
    match row.weather
    case None => Err(ValidationError)
    case Some(w) => Ok(HistoryRecord(row.userId, Some(row.id), row.locality, w, Some(row.timestamp)))
  }

  /** `get_all_records`: the user's rows, each validated as a history record. */
  function GetAllRecords(s: Store, q: HistoryQuery): (r: Result<seq<HistoryRecord>, Error>)
    ensures Valid(s) ==> r.Ok?
    ensures r.Ok? ==> forall i :: 0 <= i < |r.value| ==> r.value[i].userId == q.userId
    ensures r.Ok? ==> forall i :: 0 <= i < |r.value| ==>
              exists row :: row in s.history && RecordOf(row) == Ok(r.value[i])
    ensures r.Ok? ==> forall row :: row in s.history && row.userId == q.userId ==>
              RecordOf(row).Ok? && RecordOf(row).value in r.value
    ensures r.Err? ==> r.error == ValidationError
  {
    QueryTuple(q);
    var rows := SelectHistory(s, ToTuple(QueryToDict(q))).value;
    var records := Collect(rows, RecordOf);
    assert records.Ok? ==> forall row :: row in rows ==> RecordOf(row).value in records.value by {
      if records.Ok? {
        forall row | row in rows ensures RecordOf(row).value in records.value {
          var i :| 0 <= i < |rows| && rows[i] == row;
          assert records.value[i] == RecordOf(rows[i]).value;
        }
      }
    }
    records
  }

  /** `create_record`: the record's non-`None` values go into the three named columns. */
  function CreateRecord(s: Store, h: HistoryRecord, now: int): (r: Result<Store, Error>)
    ensures h.id.None? && h.timestamp.None? ==> (r.Ok? <==> IsBigint(h.userId))
    ensures r.Ok? ==> r.value.users == s.users && r.value.nextId == s.nextId + 1
    ensures h.id.None? && h.timestamp.None? && r.Ok? ==>
              r.value.history == s.history + [Row(s.nextId, h.userId, h.locality, Some(h.weather), now)]
    ensures r.Err? ==> r.error == Unhandled(DataError)
    ensures Valid(s) && r.Ok? ==> Valid(r.value)
  {
    if h.id.None? && h.timestamp.None? then NewRecordTuple(h); InsertHistory(s, ToTuple(HistoryToDict(h, true)), now)
    else InsertHistory(s, ToTuple(HistoryToDict(h, true)), now)
  }

  // ---------------------------------------------------------------------------------------
  // Properties across operations

  /** A second registration of the same user fails and a first one leaves history alone. */
  lemma RegisterTwice(s: Store, u: User, s': Store)
    requires CreateUser(s, u) == Ok(s')
    ensures CreateUser(s', u) == Err(AlreadyExistsError)
    ensures s'.history == s.history
  {
  }

  /** A stored record is read back, numbered and stamped, by its user's query. */
  lemma StoredRecordReadBack(s: Store, h: HistoryRecord, now: int, s': Store)
    requires Valid(s) && h.id.None? && h.timestamp.None?
    requires CreateRecord(s, h, now) == Ok(s')
    ensures GetAllRecords(s', HistoryQuery(h.userId)).Ok?
    ensures HistoryRecord(h.userId, Some(s.nextId), h.locality, h.weather, Some(now))
              in GetAllRecords(s', HistoryQuery(h.userId)).value
  {
    var row := Row(s.nextId, h.userId, h.locality, Some(h.weather), now);
    assert row in s'.history;
  }

  /** A history query validates the rows of the user, in table order. */
  lemma RecordsOfUser(s: Store, userId: int)
    ensures GetAllRecords(s, HistoryQuery(userId)) == Collect(RowsOf(s.history, userId), RecordOf)
  {
    QueryTuple(HistoryQuery(userId));
  }

  /** In a valid store every row validates. */
  lemma ValidRowsValidate(s: Store, userId: int)
    requires Valid(s)
    ensures Collect(RowsOf(s.history, userId), RecordOf).Ok?
  {
    var rows := RowsOf(s.history, userId);
    forall i | 0 <= i < |rows| ensures RecordOf(rows[i]).Ok? {
      var k :| 0 <= k < |s.history| && s.history[k] == rows[i];
    }
  }

  /** Storing a record changes no other user's history. */
  lemma {:induction false} OtherHistoriesUnchanged(s: Store, h: HistoryRecord, now: int, s': Store, other: int)
    requires h.id.None? && h.timestamp.None? && other != h.userId
    requires CreateRecord(s, h, now) == Ok(s')
    ensures GetAllRecords(s', HistoryQuery(other)) == GetAllRecords(s, HistoryQuery(other))
  {
    var row := Row(s.nextId, h.userId, h.locality, Some(h.weather), now);
    assert s'.history == s.history + [row];
    RowsOfAppend(s.history, row, other);
    assert RowsOf(s.history, other) + [] == RowsOf(s.history, other);
    RecordsOfUser(s, other);
    RecordsOfUser(s', other);
  }

  /** The user's history grows by exactly the stored record, at the end. */
  lemma {:induction false} OwnHistoryGrows(s: Store, h: HistoryRecord, now: int, s': Store)
    requires Valid(s) && h.id.None? && h.timestamp.None?
    requires CreateRecord(s, h, now) == Ok(s')
    ensures GetAllRecords(s', HistoryQuery(h.userId)).Ok? && GetAllRecords(s, HistoryQuery(h.userId)).Ok?
    ensures GetAllRecords(s', HistoryQuery(h.userId)).value ==
              GetAllRecords(s, HistoryQuery(h.userId)).value
              + [HistoryRecord(h.userId, Some(s.nextId), h.locality, h.weather, Some(now))]
  {
    var row := Row(s.nextId, h.userId, h.locality, Some(h.weather), now);
    assert s'.history == s.history + [row];
    RowsOfAppend(s.history, row, h.userId);
    RecordsOfUser(s, h.userId);
    RecordsOfUser(s', h.userId);
    ValidRowsValidate(s, h.userId);
    CollectAppend(RowsOf(s.history, h.userId), row, RecordOf);
  }
}
