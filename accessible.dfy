/** The generic data-access layer `DatabaseAccess` of sample/data/access/accessible.py,
    used with the person model (sample/data/access/person.py binds `model=Person`).
    The SQLAlchemy session and the table behind it become a `Database` object that
    holds the stored rows in a map keyed by id. */
module Accessible {
  import opened Runtime
  import opened PersonModel

  /** A request body as `request.json` gives it: a JSON object, or `None`. */
  type Dict = map<string, Value>

  /** `dateutil.parser.parse(str(value))`, seen as a clock reading in seconds or a parse failure. */
  type DateParser = Value -> Option<int>

  // ---------------------------------------------------------------------------
  // The specification: dict_to_entity, the audit stamps and the session, on values
  // ---------------------------------------------------------------------------

  /** The value assigned to column `c` for the data value `v`: a truthy value of a
      date column is parsed, anything else is stored as given. */
  function ColumnValue(c: Column, v: Value, parse: DateParser): Result<Value>
  {
    if IsDateColumn(c) && Truthy(v) then
      match parse(v)
      case Some(t) => Ok(Time(t))
      case None => Raised(ParserError)
    else Ok(v)
  }

  /** `dict_to_entity` over the columns `cols`, in order: `id` is skipped; reading the
      keys of a `None` body raises; a column whose name is not a key is left alone. */
  function MapColumns(row: PersonRow, cols: seq<Column>, data: Option<Dict>, parse: DateParser): Result<PersonRow>
    decreases |cols|
  {
    if cols == [] then Ok(row)
    else if cols[0] == Id then MapColumns(row, cols[1..], data, parse)
    else if data.None? then Raised(AttributeError)
    else if ColumnName(cols[0]) !in data.value then MapColumns(row, cols[1..], data, parse)
    else
      match ColumnValue(cols[0], data.value[ColumnName(cols[0])], parse)
      case Raised(e) => Raised(e)
      case Ok(v) => MapColumns(row.Set(cols[0], v), cols[1..], data, parse)
  }

  /** `dict_to_entity(entity, data)` on the state of `entity`. */
  function MapData(row: PersonRow, data: Option<Dict>, parse: DateParser): Result<PersonRow>
  {
    MapColumns(row, Columns, data, parse)
  }

  /** `audit_modify(user_id, entity)` at clock reading `now`. */
  function AuditModified(row: PersonRow, userId: int, now: int): (r: PersonRow)
    ensures r.modifiedById == Int(userId) && r.modifiedOn == Time(now)
    ensures forall c :: r.Get(c) == row.Get(c)
  {
    row.(modifiedById := Int(userId), modifiedOn := Time(now))
  }

  /** `audit_create(user_id, entity)`: the creation stamps and `active`, then `audit_modify`. */
  function AuditCreated(row: PersonRow, userId: int, now: int): (r: PersonRow)
    ensures r.createdById == Int(userId) && r.createdOn == Time(now) && r.active == Bool(true)
    ensures r.modifiedById == Int(userId) && r.modifiedOn == Time(now)
    ensures r.id == row.id && r.firstName == row.firstName && r.middleName == row.middleName && r.lastName == row.lastName
  {
    AuditModified(row.(createdById := Int(userId), active := Bool(true), createdOn := Time(now)), userId, now)
  }

  /** What the table keeps of an object on commit. The person table has no
      `modified_by_id` or `modified_on` column, so the stamps `audit_modify` sets are
      plain attributes of the object in the session and are not written; a row
      read back from the table has none. */
  function Persisted(row: PersonRow): (r: PersonRow)
    ensures r.modifiedById == Null && r.modifiedOn == Null
    ensures forall c :: r.Get(c) == row.Get(c)
    ensures r.id == row.id && r.active == row.active && r.createdById == row.createdById
  {
    row.(modifiedById := Null, modifiedOn := Null)
  }

  /** The stored table: the rows by id, and the id the next insert gets. */
  datatype TableState = TableState(rows: map<int, PersonRow>, nextId: int)

  /** What the database keeps true: the ids in use are exactly 1 .. nextId-1 (rows
      are never removed), each row carries its own id, and every stored row meets
      the NOT NULL constraints and holds no modification stamps. */
  ghost predicate ValidTable(t: TableState)
  {
    && t.nextId >= 1
    && (forall k :: k in t.rows <==> 1 <= k < t.nextId)
    && (forall k :: k in t.rows ==> t.rows[k].id == Some(k) && SatisfiesNotNull(t.rows[k]))
    && (forall k :: k in t.rows ==> t.rows[k].modifiedById == Null && t.rows[k].modifiedOn == Null)
  }

  /** `db.session.add(entity); db.session.commit()`: a row that breaks a NOT NULL
      constraint is refused and nothing is written; a new object is inserted under
      the next id; an object that already has an id overwrites its row. The object
      in the session, with its key and its stamps, is returned beside the table. */
  function SaveSpec(t: TableState, row: PersonRow): (r: Result<(PersonRow, TableState)>)
    ensures r.Ok? <==> SatisfiesNotNull(row)
    ensures r.Raised? ==> r.error == IntegrityError
    ensures r.Ok? ==>
      var (obj, t') := r.value;
      && obj.id == (if row.id.Some? then row.id else Some(t.nextId))
      && obj.modifiedById == row.modifiedById && obj.modifiedOn == row.modifiedOn
      && (forall c :: c != Id ==> obj.Get(c) == row.Get(c))
      && t'.rows == t.rows[obj.id.value := Persisted(obj)]
      && t'.nextId == if row.id.None? then t.nextId + 1 else t.nextId
  {
    if !SatisfiesNotNull(row) then Raised(IntegrityError)
    else match row.id
      case None =>
        var stored := row.(id := Some(t.nextId));
        Ok((stored, TableState(t.rows[t.nextId := Persisted(stored)], t.nextId + 1)))
      case Some(k) => Ok((row, TableState(t.rows[k := Persisted(row)], t.nextId)))
  }

  /** What an operation returns or raises, and the table after it. */
  datatype Effect<+T> = Effect(result: Result<T>, table: TableState)

  /** What `get` returns: the list of all rows, or one row. */
  datatype Fetched = All(rows: seq<PersonRow>) | One(row: PersonRow)

  /** `query.all()`: every stored row, active or not, in id order. */
  function AllRows(t: TableState): (r: seq<PersonRow>)
    requires ValidTable(t)
    ensures |r| == t.nextId - 1
    ensures forall i :: 0 <= i < |r| ==> r[i] == t.rows[i + 1]
  {
    seq(t.nextId - 1, i requires 0 <= i < t.nextId - 1 => t.rows[i + 1])
  }

  /** `get(entity_id)`: a falsy id (`None` or 0) lists the table; any other id
      looks for its row and raises NoResultFound when there is none. */
  function GetSpec(t: TableState, entityId: Option<int>): (r: Result<Fetched>)
    requires ValidTable(t)
    ensures r.Raised? <==> entityId.Some? && entityId.value != 0 && entityId.value !in t.rows
    ensures r.Raised? ==> r.error == NoResultFound
    ensures r.Ok? && r.value.One? ==> entityId.Some? && entityId.value in t.rows && r.value.row.id == entityId
  {
    if entityId.None? || entityId.value == 0 then Ok(All(AllRows(t)))
    else if entityId.value in t.rows then Ok(One(t.rows[entityId.value]))
    else Raised(NoResultFound)
  }

  /** `create(user_id, data)`: a fresh `Person()`, mapped from `data`, stamped by
      `audit_create`, saved, and read back by its new id; the session hands back
      the same object, stamps included. */
  function CreateSpec(t: TableState, userId: int, data: Option<Dict>, now: int, parse: DateParser): (e: Effect<PersonRow>)
    ensures e.result.Raised? ==> e.table == t
    ensures e.result.Ok? ==>
      var r := e.result.value;
      && r.createdById == Int(userId) && r.createdOn == Time(now) && r.active == Bool(true)
      && r.modifiedById == Int(userId) && r.modifiedOn == Time(now)
  {
    match MapData(Constructed(Null, Null, Null), data, parse)
    case Raised(e) => Effect(Raised(e), t)
    case Ok(mapped) =>
      match SaveSpec(t, AuditCreated(mapped, userId, now))
      case Raised(e) => Effect(Raised(e), t)
      case Ok(saved) => Effect(Ok(saved.0), saved.1)
  }

  /** `update(user_id, entity_id, data)`: the stored row is loaded (NoResultFound when
      there is none), mapped from `data`, stamped by `audit_modify` and saved; the
      method returns `None`. */
  function UpdateSpec(t: TableState, userId: int, entityId: int, data: Option<Dict>, now: int, parse: DateParser): (e: Effect<()>)
    ensures entityId !in t.rows ==> e == Effect(Raised(NoResultFound), t)
    ensures e.result.Raised? ==> e.table == t
  {
    if entityId !in t.rows then Effect(Raised(NoResultFound), t)
    else
      match MapData(t.rows[entityId], data, parse)
      case Raised(e) => Effect(Raised(e), t)
      case Ok(mapped) =>
        match SaveSpec(t, AuditModified(mapped, userId, now))
        case Raised(e) => Effect(Raised(e), t)
        case Ok(saved) => Effect(Ok(()), saved.1)
  }

  /** `persistant_delete(user_id, entity_id)`: the row is loaded, stamped, marked
      inactive and saved. A missing id leaves `entity` as `None`, and stamping it
      raises AttributeError. */
  function PersistantDeleteSpec(t: TableState, userId: int, entityId: int, now: int): (e: Effect<PersonRow>)
    ensures entityId !in t.rows ==> e == Effect(Raised(AttributeError), t)
    ensures e.result.Raised? ==> e.table == t
    ensures e.result.Ok? ==>
      && e.result.value.active == Bool(false)
      && e.result.value.modifiedById == Int(userId) && e.result.value.modifiedOn == Time(now)
  {
    if entityId !in t.rows then Effect(Raised(AttributeError), t)
    else
      match SaveSpec(t, AuditModified(t.rows[entityId], userId, now).(active := Bool(false)))
      case Raised(e) => Effect(Raised(e), t)
      case Ok(saved) => Effect(Ok(saved.0), saved.1)
  }

  /** `delete(user_id, entity_id, persistant)`: the chosen path runs, and then the
      method ends with a call of the unimplemented `non_persistant_delete`. */
  function DeleteSpec(t: TableState, userId: int, entityId: int, persistant: bool, now: int): (e: Effect<()>)
    ensures e.result.Raised?
    ensures !persistant ==> e == Effect(Raised(NotImplemented), t)
    ensures persistant && entityId !in t.rows ==> e == Effect(Raised(AttributeError), t)
  {
    if persistant then
      var d := PersistantDeleteSpec(t, userId, entityId, now);
      if d.result.Raised? then Effect(Raised(d.result.error), d.table)
      else Effect(Raised(NotImplemented), d.table)
    else Effect(Raised(NotImplemented), t)
  }

  // ---------------------------------------------------------------------------
  // Properties of the specification
  // ---------------------------------------------------------------------------

  predicate NoDuplicates(cols: seq<Column>)
  {
    forall i, j :: 0 <= i < j < |cols| ==> cols[i] != cols[j]
  }

  /** What the mapping does to one column `c`: assigned from `data` when `c` is
      among the mapped columns and its name is a key, untouched otherwise. */
  lemma {:induction false} MapColumnsAt(row: PersonRow, cols: seq<Column>, data: Dict, parse: DateParser, r: PersonRow, c: Column)
    requires MapColumns(row, cols, Some(data), parse) == Ok(r)
    requires c != Id && NoDuplicates(cols)
    ensures c in cols && ColumnName(c) in data ==> ColumnValue(c, data[ColumnName(c)], parse) == Ok(r.Get(c))
    ensures !(c in cols && ColumnName(c) in data) ==> r.Get(c) == row.Get(c)
    decreases |cols|
  {
    if cols != [] {
      assert NoDuplicates(cols[1..]) by {
        forall i, j | 0 <= i < j < |cols[1..]| ensures cols[1..][i] != cols[1..][j] {
          assert cols[1..][i] == cols[i + 1] && cols[1..][j] == cols[j + 1];
        }
      }
      assert c in cols <==> c == cols[0] || c in cols[1..];
      assert c == cols[0] ==> c !in cols[1..];
      if cols[0] == Id || ColumnName(cols[0]) !in data {
        MapColumnsAt(row, cols[1..], data, parse, r, c);
      } else {
        var v := ColumnValue(cols[0], data[ColumnName(cols[0])], parse).value;
        MapColumnsAt(row.Set(cols[0], v), cols[1..], data, parse, r, c);
      }
    }
  }

  /** The mapping never touches the key or the modification stamps. */
  lemma {:induction false} MapColumnsKeepsKey(row: PersonRow, cols: seq<Column>, data: Option<Dict>, parse: DateParser)
    requires MapColumns(row, cols, data, parse).Ok?
    ensures MapColumns(row, cols, data, parse).value.id == row.id
    ensures MapColumns(row, cols, data, parse).value.modifiedById == row.modifiedById
    ensures MapColumns(row, cols, data, parse).value.modifiedOn == row.modifiedOn
    decreases |cols|
  {
    if cols != [] {
      if cols[0] == Id || ColumnName(cols[0]) !in data.value {
        MapColumnsKeepsKey(row, cols[1..], data, parse);
      } else {
        var v := ColumnValue(cols[0], data.value[ColumnName(cols[0])], parse).value;
        MapColumnsKeepsKey(row.Set(cols[0], v), cols[1..], data, parse);
      }
    }
  }

  /** `dict_to_entity` in closed form: it never changes `id` (nor the modification
      stamps, which are not columns); every other column is assigned the (parsed)
      value of its key, and a column whose name is not a key keeps its value. */
  lemma MapDataResult(row: PersonRow, data: Dict, parse: DateParser)
    requires MapData(row, Some(data), parse).Ok?
    ensures var r := MapData(row, Some(data), parse).value;
      && r.id == row.id && r.modifiedById == row.modifiedById && r.modifiedOn == row.modifiedOn
      && forall c :: c != Id ==>
           if ColumnName(c) in data then ColumnValue(c, data[ColumnName(c)], parse) == Ok(r.Get(c))
           else r.Get(c) == row.Get(c)
  {
    var r := MapData(row, Some(data), parse).value;
    MapColumnsKeepsKey(row, Columns, Some(data), parse);
    forall c | c != Id
      ensures if ColumnName(c) in data then ColumnValue(c, data[ColumnName(c)], parse) == Ok(r.Get(c))
              else r.Get(c) == row.Get(c)
    {
      MapColumnsAt(row, Columns, data, parse, r, c);
      assert c in Columns;
    }
  }

  /** The names of the table's columns. */
  function ColumnNames(): set<string>
  {
    set c | c in Columns :: ColumnName(c)
  }

  /** The keys of `data` that are not column names are ignored. */
  lemma {:induction false} MapColumnsIgnoresOtherKeys(row: PersonRow, cols: seq<Column>, data: Dict, parse: DateParser)
    requires forall c :: c in cols ==> c in Columns
    ensures MapColumns(row, cols, Some(data), parse)
         == MapColumns(row, cols, Some(map k | k in data && k in ColumnNames() :: data[k]), parse)
    decreases |cols|
  {
    if cols != [] {
      assert cols[0] in Columns;
      assert ColumnName(cols[0]) in ColumnNames();
      if cols[0] == Id || ColumnName(cols[0]) !in data {
        MapColumnsIgnoresOtherKeys(row, cols[1..], data, parse);
      } else {
        var v := ColumnValue(cols[0], data[ColumnName(cols[0])], parse);
        if v.Ok? {
          MapColumnsIgnoresOtherKeys(row.Set(cols[0], v.value), cols[1..], data, parse);
        }
      }
    }
  }

  lemma MapDataIgnoresOtherKeys(row: PersonRow, data: Dict, parse: DateParser)
    ensures MapData(row, Some(data), parse)
         == MapData(row, Some(map k | k in data && k in ColumnNames() :: data[k]), parse)
  {
    MapColumnsIgnoresOtherKeys(row, Columns, data, parse);
  }

  /** Over any columns, a present body makes the mapping fail only on a truthy
      `created_on` that the parser refuses. */
  lemma {:induction false} MapColumnsFails(row: PersonRow, cols: seq<Column>, data: Dict, parse: DateParser)
    ensures var r := MapColumns(row, cols, Some(data), parse);
      r.Raised? <==> CreatedOn in cols && "created_on" in data && Truthy(data["created_on"]) && parse(data["created_on"]).None?
    ensures MapColumns(row, cols, Some(data), parse).Raised? ==> MapColumns(row, cols, Some(data), parse).error == ParserError
    decreases |cols|
  {
    if cols != [] {
      assert CreatedOn in cols <==> cols[0] == CreatedOn || CreatedOn in cols[1..];
      if cols[0] == Id || ColumnName(cols[0]) !in data {
        MapColumnsFails(row, cols[1..], data, parse);
      } else {
        var v := ColumnValue(cols[0], data[ColumnName(cols[0])], parse);
        if v.Ok? {
          MapColumnsFails(row.Set(cols[0], v.value), cols[1..], data, parse);
        }
      }
    }
  }

  /** When `dict_to_entity` raises: AttributeError exactly when there is no body,
      ParserError exactly when `created_on` is given a truthy value the parser refuses,
      and nothing else. */
  lemma MapDataFails(row: PersonRow, data: Option<Dict>, parse: DateParser)
    ensures MapData(row, data, parse) == Raised(AttributeError) <==> data.None?
    ensures MapData(row, data, parse) == Raised(ParserError) <==>
      data.Some? && "created_on" in data.value && Truthy(data.value["created_on"])
      && parse(data.value["created_on"]).None?
    ensures MapData(row, data, parse).Raised? ==>
      MapData(row, data, parse) in {Raised(AttributeError), Raised(ParserError)}
  {
    if data.Some? {
      MapColumnsFails(row, Columns, data.value, parse);
    } else {
      assert Columns[1..][0] == FirstName;
    }
  }

  /** A save keeps the table's invariant, and a refused save writes nothing. */
  lemma SaveKeepsValid(t: TableState, row: PersonRow)
    requires ValidTable(t)
    requires row.id.Some? ==> row.id.value in t.rows
    ensures SaveSpec(t, row).Ok? <==> SatisfiesNotNull(row)
    ensures SaveSpec(t, row).Ok? ==> ValidTable(SaveSpec(t, row).value.1)
  {
    if SaveSpec(t, row).Ok? {
      var t' := SaveSpec(t, row).value.1;
      var stored := SaveSpec(t, row).value.0;
      if row.id.None? {
        assert stored.id == Some(t.nextId);
        forall k ensures k in t'.rows <==> 1 <= k < t'.nextId {
          assert k in t'.rows <==> k in t.rows || k == t.nextId;
        }
      }
    }
  }

  /** `get` with a falsy id lists every row, inactive ones included, and never
      raises, so an empty table gives an empty list. */
  lemma GetFalsyListsAll(t: TableState, entityId: Option<int>)
    requires ValidTable(t)
    requires entityId == None || entityId == Some(0)
    ensures GetSpec(t, entityId).Ok? && GetSpec(t, entityId).value.All?
    ensures var rows := GetSpec(t, entityId).value.rows;
      && |rows| == |t.rows|
      && (forall k :: k in t.rows ==> t.rows[k] in rows)
      && (forall r :: r in rows ==> r.id.Some? && r.id.value in t.rows && t.rows[r.id.value] == r)
    ensures t.rows == map[] ==> GetSpec(t, entityId) == Ok(All([]))
  {
    var rows := GetSpec(t, entityId).value.rows;
    forall k | k in t.rows ensures t.rows[k] in rows {
      assert rows[k - 1] == t.rows[k];
    }
    forall r | r in rows ensures r.id.Some? && r.id.value in t.rows && t.rows[r.id.value] == r {
      var i :| 0 <= i < |rows| && rows[i] == r;
      assert r == t.rows[i + 1];
    }
    RangeSize(t);
  }

  /** The ids 1 .. n. */
  ghost function IdRange(n: int): set<int>
    decreases n
  {
    if n <= 0 then {} else IdRange(n - 1) + {n}
  }

  lemma {:induction false} IdRangeFacts(n: nat)
    ensures forall k :: k in IdRange(n) <==> 1 <= k <= n
    ensures |IdRange(n)| == n
  {
    if n > 0 {
      IdRangeFacts(n - 1);
    }
  }

  /** The number of stored rows is nextId - 1. */
  lemma RangeSize(t: TableState)
    requires ValidTable(t)
    ensures |t.rows| == t.nextId - 1
  {
    IdRangeFacts(t.nextId - 1);
    forall k ensures k in t.rows.Keys <==> k in IdRange(t.nextId - 1) {
      assert k in t.rows.Keys <==> k in t.rows;
    }
    assert t.rows.Keys == IdRange(t.nextId - 1);
  }

  /** `get` with a truthy id finds the row with that id whether or not it is
      active, and raises NoResultFound when no row has it. */
  lemma GetTruthyFindsRow(t: TableState, id: int)
    requires ValidTable(t) && id != 0
    ensures id in t.rows ==> GetSpec(t, Some(id)) == Ok(One(t.rows[id])) && t.rows[id].id == Some(id)
    ensures id !in t.rows <==> GetSpec(t, Some(id)) == Raised(NoResultFound)
  {
  }

  /** The state `create` may start from: any body that is an object with a
      non-null `first_name` and `last_name` and no unparsable `created_on`. */
  predicate Creatable(data: Option<Dict>, parse: DateParser)
  {
    && data.Some?
    && !("created_on" in data.value && Truthy(data.value["created_on"]) && parse(data.value["created_on"]).None?)
    && "first_name" in data.value && data.value["first_name"] != Null
    && "last_name" in data.value && data.value["last_name"] != Null
  }

  /** `create` succeeds exactly for a creatable body. It then adds exactly one row
      under the next id and returns it; the row is active and created and modified
      by `user_id` at `now` whatever `data` says about those columns, and carries the
      names from `data` (`None` when absent). When it raises, nothing is written. */
  lemma CreateProperties(t: TableState, userId: int, data: Option<Dict>, now: int, parse: DateParser)
    requires ValidTable(t)
    ensures var e := CreateSpec(t, userId, data, now, parse);
      && ValidTable(e.table)
      && (e.result.Ok? <==> Creatable(data, parse))
      && (e.result.Raised? ==> e.table == t)
      && ((!Creatable(data, parse) && data.Some? && MapData(Constructed(Null, Null, Null), data, parse).Ok?)
            ==> e.result == Raised(IntegrityError))
  {
    var e := CreateSpec(t, userId, data, now, parse);
    var start := Constructed(Null, Null, Null);
    MapDataFails(start, data, parse);
    if data.Some? && MapData(start, data, parse).Ok? {
      var mapped := MapData(start, data, parse).value;
      MapDataResult(start, data.value, parse);
      assert mapped.Get(FirstName) == mapped.firstName && mapped.Get(LastName) == mapped.lastName;
      SaveKeepsValid(t, AuditCreated(mapped, userId, now));
    }
  }

  lemma CreatedRow(t: TableState, userId: int, data: Option<Dict>, now: int, parse: DateParser)
    requires ValidTable(t) && CreateSpec(t, userId, data, now, parse).result.Ok?
    ensures var e := CreateSpec(t, userId, data, now, parse);
      var r := e.result.value;
      && t.nextId !in t.rows
      && r.id == Some(t.nextId)
      && e.table == TableState(t.rows[t.nextId := Persisted(r)], t.nextId + 1)
      && |e.table.rows| == |t.rows| + 1
      && r.active == Bool(true)
      && r.createdById == Int(userId) && r.modifiedById == Int(userId)
      && r.createdOn == Time(now) && r.modifiedOn == Time(now)
      && (forall c :: c in {FirstName, MiddleName, LastName} ==>
            r.Get(c) == if ColumnName(c) in data.value then data.value[ColumnName(c)] else Null)
  {
    var start := Constructed(Null, Null, Null);
    MapDataFails(start, data, parse);
    MapDataResult(start, data.value, parse);
    MapColumnsKeepsKey(start, Columns, data, parse);
  }

  /** `update` on a missing id raises NoResultFound and writes nothing; whenever it
      raises, nothing is written; when it succeeds it returns `None` and the
      table is still valid. */
  lemma UpdateProperties(t: TableState, userId: int, entityId: int, data: Option<Dict>, now: int, parse: DateParser)
    requires ValidTable(t)
    ensures var e := UpdateSpec(t, userId, entityId, data, now, parse);
      && ValidTable(e.table)
      && (entityId !in t.rows ==> e == Effect(Raised(NoResultFound), t))
      && (e.result.Raised? ==> e.table == t)
      && (e.result.Ok? ==> e.result == Ok(()) && entityId in t.rows)
  {
    if entityId in t.rows {
      var row := t.rows[entityId];
      if MapData(row, data, parse).Ok? {
        var new_ := AuditModified(MapData(row, data, parse).value, userId, now);
        assert new_.id == row.id by {
          MapDataFails(row, data, parse);
          MapDataResult(row, data.value, parse);
        }
        SaveKeepsValid(t, new_);
      }
    }
  }

  /** When `update` succeeds it keeps the set of ids and changes no other row, and
      the updated row keeps its id, takes every column named in `data` and keeps
      every other (so the creation stamps stay unless `data` sets them); the
      modification stamps are not stored. */
  lemma UpdateSucceeded(t: TableState, userId: int, entityId: int, data: Option<Dict>, now: int, parse: DateParser)
    requires ValidTable(t) && UpdateSpec(t, userId, entityId, data, now, parse).result.Ok?
    ensures var e := UpdateSpec(t, userId, entityId, data, now, parse);
      && entityId in t.rows && data.Some?
      && e.table.nextId == t.nextId
      && e.table.rows.Keys == t.rows.Keys
      && (forall k :: k in t.rows && k != entityId ==> e.table.rows[k] == t.rows[k])
      && var old_, new_ := t.rows[entityId], e.table.rows[entityId];
      && new_.id == Some(entityId)
      && new_.modifiedById == Null && new_.modifiedOn == Null
      && (forall c :: c != Id ==>
            if ColumnName(c) in data.value then ColumnValue(c, data.value[ColumnName(c)], parse) == Ok(new_.Get(c))
            else new_.Get(c) == old_.Get(c))
  {
    var row := t.rows[entityId];
    MapDataFails(row, data, parse);
    var mapped := MapData(row, data, parse).value;
    var new_ := AuditModified(mapped, userId, now);
    assert new_.id == Some(entityId) && forall c :: c != Id ==>
      if ColumnName(c) in data.value then ColumnValue(c, data.value[ColumnName(c)], parse) == Ok(Persisted(new_).Get(c))
      else Persisted(new_).Get(c) == row.Get(c)
    by {
      MapDataResult(row, data.value, parse);
      forall c ensures Persisted(new_).Get(c) == mapped.Get(c) {
      }
    }
    assert SaveSpec(t, new_) == Ok((new_, TableState(t.rows[entityId := Persisted(new_)], t.nextId)));
  }

  /** The persistent `delete` on an existing id leaves the row in place and
      inactive (the modifier stamps are not stored), keeps the row count, and then
      raises "Not Implemented". On a missing id it raises AttributeError (not NoResultFound) and
      writes nothing. The non-persistent path raises before changing anything. So
      `delete` never returns normally. */
  lemma DeleteProperties(t: TableState, userId: int, entityId: int, persistant: bool, now: int)
    requires ValidTable(t)
    ensures var e := DeleteSpec(t, userId, entityId, persistant, now);
      && e.result.Raised?
      && ValidTable(e.table)
      && (!persistant ==> e == Effect(Raised(NotImplemented), t))
      && (persistant && entityId !in t.rows ==> e == Effect(Raised(AttributeError), t))
      && (persistant && entityId in t.rows ==>
            && e.result == Raised(NotImplemented)
            && e.table.nextId == t.nextId
            && |e.table.rows| == |t.rows|
            && e.table.rows == t.rows[entityId := t.rows[entityId].(active := Bool(false))])
  {
    if persistant && entityId in t.rows {
      SaveKeepsValid(t, AuditModified(t.rows[entityId], userId, now).(active := Bool(false)));
    }
  }

  /** `persistant_delete` on a missing id fails with AttributeError and saves nothing. */
  lemma PersistantDeleteMissing(t: TableState, userId: int, entityId: int, now: int)
    requires entityId !in t.rows
    ensures PersistantDeleteSpec(t, userId, entityId, now) == Effect(Raised(AttributeError), t)
    ensures PersistantDeleteSpec(t, userId, entityId, now).result != Raised(NoResultFound)
  {
  }

  // ---------------------------------------------------------------------------
  // The session and the data-access object
  // ---------------------------------------------------------------------------

  /** The database behind the SQLAlchemy session: the stored person rows. */
  class Database {
    var rows: map<int, PersonRow>
    var nextId: int

    function State(): TableState
      reads this
    {
      TableState(rows, nextId)
    }

    ghost predicate Valid()
      reads this
    {
      ValidTable(State())
    }

    /** A freshly created, empty table. */
    constructor ()
      ensures Valid() && rows == map[] && nextId == 1
    {
      rows, nextId := map[], 1;
    }

    /** `db.drop_all(); db.create_all()`: the table is recreated empty. */
    method Rebuild()
      modifies this
      ensures Valid() && rows == map[] && nextId == 1
    {
      rows, nextId := map[], 1;
    }

    /** `db.session.add(entity); db.session.commit()`. The session assigns the key of
        a new object; a commit that fails leaves table and object as they were. */
    method Commit(entity: Person) returns (r: Result<PersonRow>)
      requires Valid()
      requires entity.id.Some? ==> entity.id.value in rows
      modifies this, entity
      ensures Valid()
      ensures match SaveSpec(old(State()), old(entity.Row()))
        case Raised(e) => r == Raised(e) && State() == old(State()) && entity.Row() == old(entity.Row())
        case Ok(saved) => r == Ok(saved.0) && State() == saved.1 && entity.Row() == saved.0
    {
      SaveKeepsValid(State(), entity.Row());
      if !SatisfiesNotNull(entity.Row()) {
        return Raised(IntegrityError);
      }
      if entity.id.None? {
        entity.id := Some(nextId);
        rows := rows[nextId := Persisted(entity.Row())];
        nextId := nextId + 1;
      } else {
        rows := rows[entity.id.value := Persisted(entity.Row())];
      }
      r := Ok(entity.Row());
    }
  }

  /** `DatabaseAccess(model=Person)`: the generic create/read/update/delete methods. */
  class DatabaseAccess {
    const db: Database

    constructor (db: Database)
      ensures this.db == db
    {
      this.db := db;
    }

    /** `get(entity_id)`. */
    method Get(entityId: Option<int> := None) returns (r: Result<Fetched>)
      requires db.Valid()
      ensures r == GetSpec(db.State(), entityId)
    {
      var truthy := entityId.Some? && entityId.value != 0;
      var result: Option<Fetched>;
      if truthy {
        result := if entityId.value in db.rows then Some(One(db.rows[entityId.value])) else None;
      } else {
        result := Some(All(AllRows(db.State())));
      }
      var falsy := result.None? || (result.value.All? && result.value.rows == []);
      if falsy && truthy {
        return Raised(NoResultFound);
      }
      r := Ok(result.value);
    }

    /** `dict_to_entity(entity, data)`: assigns each column named in `data`, in column order. */
    method DictToEntity(entity: Person, data: Option<Dict>, parse: DateParser) returns (r: Result<()>)
      modifies entity
      ensures match MapData(old(entity.Row()), data, parse)
        case Ok(row) => r == Ok(()) && entity.Row() == row
        case Raised(e) => r == Raised(e)
    {
      ghost var start := entity.Row();
      var i := 0;
      while i < |Columns|
        invariant 0 <= i <= |Columns|
        invariant MapColumns(entity.Row(), Columns[i..], data, parse) == MapData(start, data, parse)
      {
        var column := Columns[i];
        assert Columns[i..][0] == column && Columns[i..][1..] == Columns[i + 1..];
        var field := ColumnName(column);
        if column != Id {
          if data.None? {
            return Raised(AttributeError);
          }
          if field in data.value {
            var value := data.value[field];
            if IsDateColumn(column) && Truthy(value) {
              var parsed := parse(value);
              if parsed.None? {
                return Raised(ParserError);
              }
              value := Time(parsed.value);
            }
            entity.SetColumn(column, value);
          }
        }
        i := i + 1;
      }
      r := Ok(());
    }

    /** `audit_create(user_id, entity)`. */
    method AuditCreate(userId: int, entity: Person, now: int)
      modifies entity
      ensures entity.Row() == AuditCreated(old(entity.Row()), userId, now)
    {
      entity.createdById := Int(userId);
      entity.active := Bool(true);
      entity.createdOn := Time(now);
      AuditModify(userId, entity, now);
    }

    /** `audit_modify(user_id, entity)`. */
    method AuditModify(userId: int, entity: Person, now: int)
      modifies entity
      ensures entity.Row() == AuditModified(old(entity.Row()), userId, now)
    {
      entity.modifiedById := Int(userId);
      entity.modifiedOn := Time(now);
    }

    /** `save(entity)`. */
    method Save(entity: Person) returns (r: Result<PersonRow>)
      requires db.Valid()
      requires entity.id.Some? ==> entity.id.value in db.rows
      modifies db, entity
      ensures db.Valid()
      ensures match SaveSpec(old(db.State()), old(entity.Row()))
        case Raised(e) => r == Raised(e) && db.State() == old(db.State())
        case Ok(saved) => r == Ok(saved.0) && db.State() == saved.1 && entity.Row() == saved.0
    {
      r := db.Commit(entity);
    }

    /** `create(user_id, data)`. */
    method Create(userId: int, data: Option<Dict>, now: int, parse: DateParser) returns (r: Result<PersonRow>)
      requires db.Valid()
      modifies db
      ensures db.Valid()
      ensures Effect(r, db.State()) == CreateSpec(old(db.State()), userId, data, now, parse)
    {
      var entity := new Person();
      var mapped := DictToEntity(entity, data, parse);
      if mapped.Raised? {
        return Raised(mapped.error);
      }
      MapColumnsKeepsKey(Constructed(Null, Null, Null), Columns, data, parse);
      AuditCreate(userId, entity, now);
      var saved := Save(entity);
      if saved.Raised? {
        return Raised(saved.error);
      }
      r := Ok(entity.Row());
    }

    /** `update(user_id, entity_id, data)`; returns `None`. */
    method Update(userId: int, entityId: int, data: Option<Dict>, now: int, parse: DateParser) returns (r: Result<()>)
      requires db.Valid()
      modifies db
      ensures db.Valid()
      ensures Effect(r, db.State()) == UpdateSpec(old(db.State()), userId, entityId, data, now, parse)
    {
      if entityId !in db.rows {
        return Raised(NoResultFound);
      }
      var entity := new Person.Load(db.rows[entityId]);
      var mapped := DictToEntity(entity, data, parse);
      if mapped.Raised? {
        return Raised(mapped.error);
      }
      MapColumnsKeepsKey(db.rows[entityId], Columns, data, parse);
      AuditModify(userId, entity, now);
      var saved := Save(entity);
      if saved.Raised? {
        return Raised(saved.error);
      }
      r := Ok(());
    }

    /** `delete(user_id, entity_id, persistant)`. */
    method Delete(userId: int, entityId: int, now: int, persistant: bool := true) returns (r: Result<()>)
      requires db.Valid()
      modifies db
      ensures db.Valid()
      ensures Effect(r, db.State()) == DeleteSpec(old(db.State()), userId, entityId, persistant, now)
    {
      if persistant {
        var deleted := PersistantDelete(userId, entityId, now);
        if deleted.Raised? {
          return Raised(deleted.error);
        }
      } else {
        r := NonPersistantDelete(userId, entityId);
        return;
      }
      r := NonPersistantDelete(userId, entityId);
    }

    /** `persistant_delete(user_id, entity_id)`: marks the row inactive. */
    method PersistantDelete(userId: int, entityId: int, now: int) returns (r: Result<PersonRow>)
      requires db.Valid()
      modifies db
      ensures db.Valid()
      ensures Effect(r, db.State()) == PersistantDeleteSpec(old(db.State()), userId, entityId, now)
    {
      if entityId !in db.rows {
        return Raised(AttributeError);
      }
      var entity := new Person.Load(db.rows[entityId]);
      AuditModify(userId, entity, now);
      entity.active := Bool(false);
      var saved := Save(entity);
      if saved.Raised? {
        return Raised(saved.error);
      }
      r := Ok(entity.Row());
    }

    /** `non_persistant_delete`: not implemented, it always raises. */
    method NonPersistantDelete(userId: int, entityId: int) returns (r: Result<()>)
      ensures r == Raised(NotImplemented)
    {
      r := Raised(NotImplemented);
    }
  }
}
