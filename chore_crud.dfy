/**
 * The chores table (backend/crud/chore.py) with the schema it is written from and
 * read back into (backend/schemas.py, backend/models.py). Member names are stored as
 * one comma-joined text and split again when a row is turned into a response.
 * Dates are kept as the text the client sent.
 */
module ChoreCrud {
  import opened Wrappers
  import opened Text
  import opened Values
  import opened Store

  /** The validated input of a chore (ChoreCreate). */
  datatype ChoreCreate = ChoreCreate(
    choreName: string,
    icon: Option<string>,
    assignedMembers: seq<string>,
    startDate: string,
    endDate: Option<string>,
    dueTime: Option<string>,
    repetition: string,
    reminder: Option<string>,
    choreType: Option<string>)

  /** One row of the chores table (ChoreORM) without its key. */
  datatype ChoreRow = ChoreRow(
    choreName: string,
    icon: Option<string>,
    assignedMembers: string,
    startDate: string,
    endDate: Option<string>,
    dueTime: Option<string>,
    repetition: string,
    reminder: Option<string>,
    choreType: Option<string>)

  /** The response shape (ChoreRead). */
  datatype ChoreRead = ChoreRead(
    id: int,
    choreName: string,
    icon: Option<string>,
    assignedMembers: seq<string>,
    startDate: string,
    endDate: Option<string>,
    dueTime: Option<string>,
    repetition: string,
    reminder: Option<string>,
    choreType: Option<string>)

  /** The `due_time` a chore gets when none is given. */
  const DefaultDueTime := "23:59"

  /** The keyword names ChoreCreate accepts; anything else is ignored by it. */
  const ChoreFields: set<string> :=
    {"chore_name", "icon", "assigned_members", "start_date", "end_date", "due_time", "repetition", "reminder", "type"}

  function EncodeMembers(names: seq<string>): string {
    Join(names, ",")
  }

  /** `s.split(",") if s else []` */
  function DecodeMembers(s: string): seq<string> {
    if s == "" then [] else Split(s, ',')
  }

  predicate CommaFree(names: seq<string>) {
    forall k :: 0 <= k < |names| ==> ',' !in names[k]
  }

  /**
   * Storing a list of comma-free names and reading it back gives the list again, with
   * one exception: a list holding just the empty name comes back empty.
   */
  lemma MembersRoundTrip(names: seq<string>)
    requires CommaFree(names)
    ensures DecodeMembers(EncodeMembers(names)) == names <==> names != [""]
    ensures names == [""] ==> DecodeMembers(EncodeMembers(names)) == []
  {
    JoinEmpty(names, ",");
    if names != [] && names != [""] {
      SplitJoin(names, ',');
    }
  }

  /** The row `create_chore` and `update_chore` write: every field copied, the names joined. */
  function ToRow(c: ChoreCreate): (row: ChoreRow)
    ensures row.assignedMembers == EncodeMembers(c.assignedMembers)
    ensures row.choreName == c.choreName && row.startDate == c.startDate && row.repetition == c.repetition
    ensures row.icon == c.icon && row.endDate == c.endDate && row.dueTime == c.dueTime
    ensures row.reminder == c.reminder && row.choreType == c.choreType
  {
    ChoreRow(c.choreName, c.icon, EncodeMembers(c.assignedMembers), c.startDate, c.endDate,
             c.dueTime, c.repetition, c.reminder, c.choreType)
  }

  /** `_chore_orm_to_read` (backend/main.py): the stored names are split again. */
  function ToRead(id: int, row: ChoreRow): ChoreRead {
    ChoreRead(id, row.choreName, row.icon, DecodeMembers(row.assignedMembers), row.startDate,
              row.endDate, row.dueTime, row.repetition, row.reminder, row.choreType)
  }

  /** A chore written and read back is the chore that was given, under its key. */
  lemma ReadBackChore(id: int, c: ChoreCreate)
    requires CommaFree(c.assignedMembers) && c.assignedMembers != [""]
    ensures ToRead(id, ToRow(c)) ==
      ChoreRead(id, c.choreName, c.icon, c.assignedMembers, c.startDate, c.endDate,
                c.dueTime, c.repetition, c.reminder, c.choreType)
  {
    MembersRoundTrip(c.assignedMembers);
  }

  // Field readers that mirror how ChoreCreate(**data) validates one keyword.

  function RequiredText(d: Dict, k: string): Result<string, string> {
    match Get(d, k)
    case VStr(s) => Ok(s)
    case _ => Err(k)
  }

  function OptionalText(d: Dict, k: string, default: Option<string>): Result<Option<string>, string> {
    if k !in d then Ok(default)
    else match d[k]
      case VNone => Ok(None)
      case VStr(s) => Ok(Some(s))
      case _ => Err(k)
  }

  function RequiredList(d: Dict, k: string): Result<seq<string>, string> {
    match Get(d, k)
    case VList(xs) => Ok(xs)
    case _ => Err(k)
  }

  /**
   * `ChoreCreate(**d)`: each field must hold a value of its declared kind; keys outside
   * the schema are ignored. The error names the first field that does not fit.
   */
  function FromFields(d: Dict): (r: Result<ChoreCreate, string>)
    ensures r.Ok? ==> Get(d, "chore_name") == VStr(r.value.choreName)
    ensures r.Ok? ==> Get(d, "assigned_members") == VList(r.value.assignedMembers)
    ensures r.Ok? ==> Get(d, "start_date") == VStr(r.value.startDate)
    ensures r.Ok? ==> Get(d, "repetition") == VStr(r.value.repetition)
    ensures r.Ok? && "due_time" !in d ==> r.value.dueTime == Some(DefaultDueTime)
    ensures r.Err? ==> r.error in ChoreFields
  {
    var name := RequiredText(d, "chore_name");
    var icon := OptionalText(d, "icon", None);
    var members := RequiredList(d, "assigned_members");
    var start := RequiredText(d, "start_date");
    var end := OptionalText(d, "end_date", None);
    var due := OptionalText(d, "due_time", Some(DefaultDueTime));
    var rep := RequiredText(d, "repetition");
    var rem := OptionalText(d, "reminder", None);
    var ty := OptionalText(d, "type", None);
    if name.Err? then Err(name.error)
    else if icon.Err? then Err(icon.error)
    else if members.Err? then Err(members.error)
    else if start.Err? then Err(start.error)
    else if end.Err? then Err(end.error)
    else if due.Err? then Err(due.error)
    else if rep.Err? then Err(rep.error)
    else if rem.Err? then Err(rem.error)
    else if ty.Err? then Err(ty.error)
    else Ok(ChoreCreate(name.value, icon.value, members.value, start.value, end.value,
                        due.value, rep.value, rem.value, ty.value))
  }

  /** `create_chore`: one new row under a fresh key; nothing else changes. */
  method CreateChore(t: Table<ChoreRow>, c: ChoreCreate) returns (id: int, row: ChoreRow)
    requires t.Valid()
    modifies t
    ensures t.Valid()
    ensures id !in old(t.rows) && row == ToRow(c)
    ensures t.rows == old(t.rows)[id := row]
  {
    row := ToRow(c);
    id := t.Add(row);
  }

  /** `get_chore`: nothing exactly when no row has that key. */
  method GetChore(t: Table<ChoreRow>, id: int) returns (r: Option<ChoreRow>)
    ensures r.None? <==> id !in t.rows
    ensures r.Some? ==> r.value == t.rows[id]
  {
    r := t.Get(id);
  }

  /** `get_chores`: every row once, in key order. */
  method GetChores(t: Table<ChoreRow>) returns (all: seq<(int, ChoreRow)>)
    requires t.Valid()
    ensures forall k :: 0 <= k < |all| ==> all[k].0 in t.rows && t.rows[all[k].0] == all[k].1
    ensures forall id :: id in t.rows ==> exists k :: 0 <= k < |all| && all[k].0 == id
    ensures forall j, k :: 0 <= j < k < |all| ==> all[j].0 < all[k].0
  {
    all := t.All();
  }

  /** `update_chore`: None for an absent key; otherwise all nine fields overwritten. */
  method UpdateChore(t: Table<ChoreRow>, id: int, c: ChoreCreate) returns (r: Option<ChoreRow>)
    requires t.Valid()
    modifies t
    ensures t.Valid()
    ensures r.None? <==> id !in old(t.rows)
    ensures r.Some? ==> r.value == ToRow(c)
    ensures t.rows == if r.Some? then old(t.rows)[id := ToRow(c)] else old(t.rows)
  {
    var row := ToRow(c);
    var ok := t.Put(id, row);
    r := if ok then Some(row) else None;
  }

  /** `delete_chore`: False and no change for an absent key; otherwise that row removed. */
  method DeleteChore(t: Table<ChoreRow>, id: int) returns (ok: bool)
    requires t.Valid()
    modifies t
    ensures t.Valid()
    ensures ok <==> id in old(t.rows)
    ensures t.rows == old(t.rows) - {id}
  {
    ok := t.Remove(id);
  }

  /**
   * The create / get / update / delete sequence of the repository's chore test: the
   * row is found after creation, carries the new name after the update, and is gone
   * after the delete, which leaves the table as it was.
   */
  method CrudScenario(t: Table<ChoreRow>, c: ChoreCreate, newName: string)
    requires t.Valid()
    modifies t
    ensures t.Valid() && t.rows == old(t.rows)
  {
    var id, row := CreateChore(t, c);
    var got := GetChore(t, id);
    assert got == Some(ToRow(c));
    var updated := UpdateChore(t, id, c.(choreName := newName));
    assert updated.Some? && updated.value.choreName == newName;
    var ok := DeleteChore(t, id);
    assert ok;
    got := GetChore(t, id);
    assert got.None?;
    assert t.rows == old(t.rows);
  }
}
