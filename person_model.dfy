/** The `Person` entity of sample/data/models/person.py together with the audit
    columns it inherits from `AuditModel` (sample/data/models/model.py). */
module PersonModel {
  import opened Runtime

  /** The columns of the person table. */
  datatype Column = Id | FirstName | MiddleName | LastName | Active | CreatedById | CreatedOn

  /** The table's columns as the ORM lists them. */
  const Columns: seq<Column> := [Id, FirstName, MiddleName, LastName, Active, CreatedById, CreatedOn]

  function ColumnName(c: Column): string
  {
    match c
    case Id => "id"
    case FirstName => "first_name"
    case MiddleName => "middle_name"
    case LastName => "last_name"
    case Active => "active"
    case CreatedById => "created_by_id"
    case CreatedOn => "created_on"
  }

  /** `created_on` is the only `DateTime` column. */
  predicate IsDateColumn(c: Column)
  {
    c == CreatedOn
  }

  /** The state of one person object: its columns plus the two modification stamps
      that the audit code writes (`modified_by_id`, `modified_on`). Before the
      session assigns it, `id` is `None`. */
  datatype PersonRow = PersonRow(
    id: Option<int>,
    firstName: Value,
    middleName: Value,
    lastName: Value,
    active: Value,
    createdById: Value,
    createdOn: Value,
    modifiedById: Value,
    modifiedOn: Value)
  {
    /** The value `getattr(person, ColumnName(c))` reads. */
    function Get(c: Column): Value
    {
      match c
      case Id => if id.Some? then Int(id.value) else Null
      case FirstName => firstName
      case MiddleName => middleName
      case LastName => lastName
      case Active => active
      case CreatedById => createdById
      case CreatedOn => createdOn
    }

    /** The row after `setattr(person, ColumnName(c), v)`; the key is never assigned this way. */
    function Set(c: Column, v: Value): (r: PersonRow)
      requires c != Id
      ensures r.Get(c) == v
      ensures forall d :: d != c ==> r.Get(d) == Get(d)
      ensures r.id == id && r.modifiedById == modifiedById && r.modifiedOn == modifiedOn
    {
      match c
      case FirstName => this.(firstName := v)
      case MiddleName => this.(middleName := v)
      case LastName => this.(lastName := v)
      case Active => this.(active := v)
      case CreatedById => this.(createdById := v)
      case CreatedOn => this.(createdOn := v)
    }
  }

  /** The NOT NULL constraints of the table: every column except `middle_name` (and
      the key, which the session assigns) must hold a value when the row is written. */
  predicate SatisfiesNotNull(row: PersonRow)
  {
    row.firstName != Null && row.lastName != Null && row.active != Null
    && row.createdById != Null && row.createdOn != Null
  }

  /** The state `Person(first_name, last_name, middle_name)` produces. */
  function Constructed(firstName: Value, lastName: Value, middleName: Value): (r: PersonRow)
    ensures r.firstName == firstName && r.lastName == lastName && r.middleName == middleName
    ensures r.active == Bool(true) && r.id == None
  {
    PersonRow(None, firstName, middleName, lastName, Bool(true), Null, Null, Null, Null)
  }

  /** A person object. The ORM loads stored rows into such objects and writes
      them back; the audit code and `dict_to_entity` assign its fields. */
  class Person {
    var id: Option<int>
    var firstName: Value
    var middleName: Value
    var lastName: Value
    var active: Value
    var createdById: Value
    var createdOn: Value
    var modifiedById: Value
    var modifiedOn: Value

    function Row(): PersonRow
      reads this
    {
      PersonRow(id, firstName, middleName, lastName, active, createdById, createdOn, modifiedById, modifiedOn)
    }

    /** `Person.__init__`: the three names in the order first, last, middle, each
        `None` when omitted, and `active` set; the key is left to the database. */
    constructor (firstName: Value := Null, lastName: Value := Null, middleName: Value := Null)
      ensures this.firstName == firstName && this.lastName == lastName && this.middleName == middleName
      ensures active == Bool(true) && id == None
      ensures Row() == Constructed(firstName, lastName, middleName)
    {
      this.firstName := firstName;
      this.lastName := lastName;
      this.middleName := middleName;
      active := Bool(true);
      id := None;
      createdById, createdOn, modifiedById, modifiedOn := Null, Null, Null, Null;
    }

    /** An object the ORM materialises from a stored row. */
    constructor Load(row: PersonRow)
      ensures Row() == row
    {
      id, firstName, middleName, lastName := row.id, row.firstName, row.middleName, row.lastName;
      active, createdById, createdOn := row.active, row.createdById, row.createdOn;
      modifiedById, modifiedOn := row.modifiedById, row.modifiedOn;
    }

    /** `setattr(self, ColumnName(c), v)`. */
    method SetColumn(c: Column, v: Value)
      requires c != Id
      modifies this
      ensures Row() == old(Row()).Set(c, v)
    {
      match c
      case FirstName => firstName := v;
      case MiddleName => middleName := v;
      case LastName => lastName := v;
      case Active => active := v;
      case CreatedById => createdById := v;
      case CreatedOn => createdOn := v;
    }
  }
}
