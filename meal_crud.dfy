/**
 * The meals table (backend/crud/meal.py) with its schema. Dishes are stored as one
 * comma-joined text when there are any and as no value otherwise, and split again
 * when a row is turned into a response.
 */
module MealCrud {
  import opened Wrappers
  import opened Text
  import opened Values
  import opened Store
  import ChoreCrud

  /** The validated input of a meal (MealCreate). */
  datatype MealCreate = MealCreate(
    mealName: string,
    exist: bool,
    mealKind: string,
    mealDate: string,
    dishes: Option<seq<string>>)

  /** One row of the meals table (MealORM) without its key. */
  datatype MealRow = MealRow(
    mealName: string,
    exist: bool,
    mealKind: string,
    mealDate: string,
    dishes: Option<string>)

  /** The response shape (MealRead) as `_meal_orm_to_read` fills it. */
  datatype MealRead = MealRead(
    id: int,
    mealName: string,
    exist: bool,
    mealKind: string,
    mealDate: string,
    dishes: seq<string>)

  /** The keyword names MealCreate accepts. */
  const MealFields: set<string> := {"meal_name", "exist", "meal_kind", "meal_date", "dishes"}

  /** `','.join(dishes) if dishes else None` */
  function EncodeDishes(dishes: Option<seq<string>>): Option<string> {
    if dishes.Some? && dishes.value != [] then Some(Join(dishes.value, ",")) else None
  }

  /** `s.split(",") if s else []` */
  function DecodeDishes(s: Option<string>): seq<string> {
    if s.Some? && s.value != "" then Split(s.value, ',') else []
  }

  /**
   * Reading dishes back: no dishes and an empty list both come back empty; a list of
   * comma-free dishes comes back unchanged exactly when it is not the single empty dish.
   */
  lemma DishesRoundTrip(dishes: Option<seq<string>>)
    requires dishes.Some? ==> forall k :: 0 <= k < |dishes.value| ==> ',' !in dishes.value[k]
    ensures dishes == None || dishes == Some([]) ==> DecodeDishes(EncodeDishes(dishes)) == []
    ensures dishes.Some? ==> (DecodeDishes(EncodeDishes(dishes)) == dishes.value <==> dishes.value != [""])
  {
    if dishes.Some? {
      var xs := dishes.value;
      JoinEmpty(xs, ",");
      if xs != [] && xs != [""] {
        SplitJoin(xs, ',');
      }
    }
  }

  /** The row `create_meal` and `update_meal` write: all five fields, dishes joined or dropped. */
  function ToRow(m: MealCreate): (row: MealRow)
    ensures row.dishes.Some? <==> m.dishes.Some? && m.dishes.value != []
    ensures row.dishes.Some? ==> row.dishes.value == Join(m.dishes.value, ",")
    ensures row.mealName == m.mealName && row.exist == m.exist
    ensures row.mealKind == m.mealKind && row.mealDate == m.mealDate
  {
    MealRow(m.mealName, m.exist, m.mealKind, m.mealDate, EncodeDishes(m.dishes))
  }

  /** `_meal_orm_to_read` (backend/main.py). */
  function ToRead(id: int, row: MealRow): MealRead {
    MealRead(id, row.mealName, row.exist, row.mealKind, row.mealDate, DecodeDishes(row.dishes))
  }

  /** The texts pydantic's lax `bool` reads as false and as true, once lower-cased. */
  const FalseTexts: set<string> := {"0", "off", "f", "false", "n", "no"}
  const TrueTexts: set<string> := {"1", "on", "t", "true", "y", "yes"}

  /**
   * A `bool` field as pydantic's lax mode reads it: a bool as it is, the integers 0 and 1,
   * and the texts above in any letter case; any other value is rejected.
   */
  function AsBool(v: Value): (r: Option<bool>)
    ensures v.VBool? ==> r == Some(v.b)
    ensures r.Some? ==> v.VBool? || v.VInt? || v.VStr?
    ensures v.VStr? && r.Some? ==> Lower(v.s) in (if r.value then TrueTexts else FalseTexts)
  {
    match v
    case VBool(b) => Some(b)
    case VInt(i) => if i == 0 then Some(false) else if i == 1 then Some(true) else None
    case VStr(s) =>
      if Lower(s) in TrueTexts then Some(true)
      else if Lower(s) in FalseTexts then Some(false)
      else None
    case _ => None
  }

  /** No text is read both ways, and a text outside both sets is rejected. */
  lemma AsBoolTexts(s: string)
    ensures AsBool(VStr(s)) == Some(true) <==> Lower(s) in TrueTexts
    ensures AsBool(VStr(s)) == Some(false) <==> Lower(s) in FalseTexts
    ensures AsBool(VStr(s)).None? <==> Lower(s) !in TrueTexts + FalseTexts
  {
    assert TrueTexts !! FalseTexts;
  }

  /** The answers a user types for `exist`, in whatever case, and a number other than 0 or 1. */
  lemma ExistAnswers()
    ensures AsBool(VStr("yes")) == Some(true) && AsBool(VStr("No")) == Some(false)
    ensures AsBool(VStr("TRUE")) == Some(true) && AsBool(VStr("maybe")).None?
    ensures AsBool(VInt(1)) == Some(true) && AsBool(VInt(2)).None?
  {
    YesNoLowered();
    TrueMaybeLowered();
  }

  lemma YesNoLowered()
    ensures Lower("yes") == "yes" && Lower("No") == "no"
  {
  }

  lemma TrueMaybeLowered()
    ensures Lower("TRUE") == "true" && Lower("maybe") == "maybe"
  {
  }

  function RequiredBool(d: Dict, k: string): Result<bool, string> {
    match AsBool(Get(d, k))
    case Some(b) => Ok(b)
    case None => Err(k)
  }

  function OptionalList(d: Dict, k: string): Result<Option<seq<string>>, string> {
    if k !in d then Ok(None)
    else match d[k]
      case VNone => Ok(None)
      case VList(xs) => Ok(Some(xs))
      case _ => Err(k)
  }

  /**
   * `MealCreate(**d)`: each field must hold a value of its declared kind; `dishes` may be
   * missing or None but never a text. The error names the first field that does not fit.
   */
  function FromFields(d: Dict): (r: Result<MealCreate, string>)
    ensures r.Ok? ==> Get(d, "meal_name") == VStr(r.value.mealName)
    ensures r.Ok? ==> AsBool(Get(d, "exist")) == Some(r.value.exist)
    ensures AsBool(Get(d, "exist")).None? ==> r.Err?
    ensures r.Ok? ==> Get(d, "meal_kind") == VStr(r.value.mealKind)
    ensures r.Ok? ==> Get(d, "meal_date") == VStr(r.value.mealDate)
    ensures r.Ok? && r.value.dishes.Some? ==> Get(d, "dishes") == VList(r.value.dishes.value)
    ensures (exists s :: Get(d, "dishes") == VStr(s)) ==> r.Err?
    ensures r.Err? ==> r.error in MealFields
  {
    var name := ChoreCrud.RequiredText(d, "meal_name");
    var exist := RequiredBool(d, "exist");
    var kind := ChoreCrud.RequiredText(d, "meal_kind");
    var date := ChoreCrud.RequiredText(d, "meal_date");
    var dishes := OptionalList(d, "dishes");
    if name.Err? then Err(name.error)
    else if exist.Err? then Err(exist.error)
    else if kind.Err? then Err(kind.error)
    else if date.Err? then Err(date.error)
    else if dishes.Err? then Err(dishes.error)
    else Ok(MealCreate(name.value, exist.value, kind.value, date.value, dishes.value))
  }

  /** A request that answers `exist` with the text "yes" creates a meal that exists. */
  lemma TextExistValidates(name: string, kind: string, date: string)
    ensures FromFields(map["meal_name" := VStr(name), "exist" := VStr("yes"),
                           "meal_kind" := VStr(kind), "meal_date" := VStr(date)])
            == Ok(MealCreate(name, true, kind, date, None))
  {
    YesNoLowered();
  }

  /** `create_meal`: one new row under a fresh key. */
  method CreateMeal(t: Table<MealRow>, m: MealCreate) returns (id: int, row: MealRow)
    requires t.Valid()
    modifies t
    ensures t.Valid()
    ensures id !in old(t.rows) && row == ToRow(m)
    ensures t.rows == old(t.rows)[id := row]
  {
    row := ToRow(m);
    id := t.Add(row);
  }

  /** `get_meal`: nothing exactly when the key is absent. */
  method GetMeal(t: Table<MealRow>, id: int) returns (r: Option<MealRow>)
    ensures r.None? <==> id !in t.rows
    ensures r.Some? ==> r.value == t.rows[id]
  {
    r := t.Get(id);
  }

  /** `get_meals`: every row once, in key order. */
  method GetMeals(t: Table<MealRow>) returns (all: seq<(int, MealRow)>)
    requires t.Valid()
    ensures forall k :: 0 <= k < |all| ==> all[k].0 in t.rows && t.rows[all[k].0] == all[k].1
    ensures forall id :: id in t.rows ==> exists k :: 0 <= k < |all| && all[k].0 == id
    ensures forall j, k :: 0 <= j < k < |all| ==> all[j].0 < all[k].0
  {
    all := t.All();
  }

  /** `update_meal`: None for an absent key; otherwise all five fields overwritten. */
  method UpdateMeal(t: Table<MealRow>, id: int, m: MealCreate) returns (r: Option<MealRow>)
    requires t.Valid()
    modifies t
    ensures t.Valid()
    ensures r.None? <==> id !in old(t.rows)
    ensures r.Some? ==> r.value == ToRow(m)
    ensures t.rows == if r.Some? then old(t.rows)[id := ToRow(m)] else old(t.rows)
  {
    var row := ToRow(m);
    var ok := t.Put(id, row);
    r := if ok then Some(row) else None;
  }

  /** `delete_meal`: False and no change for an absent key; otherwise that row removed. */
  method DeleteMeal(t: Table<MealRow>, id: int) returns (ok: bool)
    requires t.Valid()
    modifies t
    ensures t.Valid()
    ensures ok <==> id in old(t.rows)
    ensures t.rows == old(t.rows) - {id}
  {
    ok := t.Remove(id);
  }
}
