/**
 * The household agent's tools (backend/agents/llm_agent.py): create, list, update and
 * delete for chores, meals and family members, over the tables of the CRUD modules.
 * A tool hands the agent a reply text; an exception a tool does not catch escapes to
 * the agent run. The family-member table is used directly: backend/crud/member.py only
 * passes the three member fields through to the table.
 */
module HouseholdTools {
  import opened Wrappers
  import opened Text
  import opened Values
  import opened Store
  import opened ChoreCrud
  import opened MealCrud
  import StageKeywords
  import StageClassifier

  /** What a tool hands back: a reply text, or an exception that escapes the tool. */
  datatype ToolOutcome = Reply(text: string) | Raised(error: string)

  /** A family member (FamilyMemberCreate), which is also what a member row holds. */
  datatype Member = Member(name: string, gender: Option<string>, avatar: Option<string>)

  /** The keyword names FamilyMemberCreate accepts. */
  const MemberFields: set<string> := {"name", "gender", "avatar"}

  // Text pieces shared by the replies.

  /** `x or default` for an optional text: None and "" both give the default. */
  function OrText(o: Option<string>, default: string): (s: string)
    ensures o.Some? && o.value != "" ==> s == o.value
    ensures o.None? || o.value == "" ==> s == default
  {
    if o.Some? && o.value != "" then o.value else default
  }

  /** An optional text interpolated into an f-string: None prints as "None". */
  function Shown(o: Option<string>): string {
    if o.Some? then o.value else "None"
  }

  /** A Python bool interpolated into an f-string. */
  function BoolText(b: bool): string {
    if b then "True" else "False"
  }

  /** `dishes or []` */
  function OrNoDishes(dishes: Option<seq<string>>): seq<string> {
    if dishes.Some? then dishes.value else []
  }

  /** The reply of `update_*` for an absent key. */
  function NotFoundReply(kind: string, id: int): string {
    "**" + kind + " with ID `" + IntToString(id) + "`" + " not found.**"
  }

  /** The reply of `delete_*`, which follows the table's answer. */
  function DeleteReply(kind: string, id: int, ok: bool): string {
    kind + " " + IntToString(id) + (if ok then " deleted." else " not found.")
  }

  // Creating.

  const ChoreCreatedHead := "**Chore Created!**\n\n"
  const MealCreatedHead := "**Meal Created!**\n\n"
  const MemberAddedHead := "**Family Member Added!**\n\n"

  function ChoreCreatedReply(name: string, members: seq<string>, start: string, repetition: string,
                             due: Option<string>, reminder: Option<string>, choreType: Option<string>,
                             id: int): string
  {
    ChoreCreatedHead + ChoreCreatedBody(name, members, start, repetition, due, reminder, choreType, id)
  }

  function ChoreCreatedBody(name: string, members: seq<string>, start: string, repetition: string,
                            due: Option<string>, reminder: Option<string>, choreType: Option<string>,
                            id: int): string
  {
    "- **Name:** `" + name + "`\n- **Assigned:** " + Join(members, ", ")
    + "\n- **Start Date:** `" + start + "`\n- **Repetition:** `" + repetition
    + "`\n- **Due Time:** `" + OrText(due, DefaultDueTime) + "`\n- **Type:** `" + OrText(choreType, "")
    + "`\n- **Reminder:** `" + OrText(reminder, "None") + "`\n\nChore ID: `" + IntToString(id) + "`"
  }

  /** The chore `create_chore` validates: no icon, no end date, the due time defaulted. */
  function ChoreOfTool(name: string, members: seq<string>, start: string, repetition: string,
                       due: Option<string>, reminder: Option<string>, choreType: Option<string>): (c: ChoreCreate)
    ensures c.dueTime == Some(OrText(due, DefaultDueTime)) && c.dueTime != Some("")
    ensures c.icon.None? && c.endDate.None?
    ensures c.choreName == name && c.assignedMembers == members && c.startDate == start
    ensures c.repetition == repetition && c.reminder == reminder && c.choreType == choreType
  {
    ChoreCreate(name, None, members, start, None, Some(OrText(due, DefaultDueTime)), repetition, reminder, choreType)
  }

  /**
   * `create_chore`: one new row under a fresh key whose due time is "23:59" when none
   * (or an empty one) was given, and a reply naming that key. Validation fails in the
   * source on a start date that does not parse or on an assigned member that is not
   * text; dates are not parsed here and members are text by their type, so the error
   * reply never occurs.
   */
  method CreateChoreTool(t: Table<ChoreRow>, name: string, members: seq<string>, start: string,
                         repetition: string, due: Option<string>, reminder: Option<string>,
                         choreType: Option<string>) returns (reply: string, id: int)
    requires t.Valid()
    modifies t
    ensures t.Valid()
    ensures id !in old(t.rows)
    ensures t.rows == old(t.rows)[id := ChoreCrud.ToRow(ChoreOfTool(name, members, start, repetition, due, reminder, choreType))]
    ensures due.None? || due == Some("") ==> t.rows[id].dueTime == Some(DefaultDueTime)
    ensures reply == ChoreCreatedReply(name, members, start, repetition, due, reminder, choreType, id)
  {
    var c := ChoreOfTool(name, members, start, repetition, due, reminder, choreType);
    var row;
    id, row := CreateChore(t, c);
    reply := ChoreCreatedReply(name, members, start, repetition, due, reminder, choreType, id);
  }

  function MealCreatedReply(name: string, exist: bool, kind: string, date: string,
                            dishes: Option<seq<string>>, id: int): string
  {
    MealCreatedHead + MealCreatedBody(name, exist, kind, date, dishes, id)
  }

  function MealCreatedBody(name: string, exist: bool, kind: string, date: string,
                           dishes: Option<seq<string>>, id: int): string
  {
    "- **Name:** `" + name + "`\n- **Kind:** `" + kind + "`\n- **Date:** `" + date
    + "`\n- **Dishes:** " + Join(OrNoDishes(dishes), ", ") + "\n- **In Recipes:** `" + BoolText(exist)
    + "`\n\nMeal ID: `" + IntToString(id) + "`"
  }

  /**
   * `create_meal`: one new row under a fresh key, the dishes given as `dishes or []`,
   * so a meal created without dishes is stored with none.
   */
  method CreateMealTool(t: Table<MealRow>, name: string, exist: bool, kind: string, date: string,
                        dishes: Option<seq<string>>) returns (reply: string, id: int)
    requires t.Valid()
    modifies t
    ensures t.Valid()
    ensures id !in old(t.rows)
    ensures t.rows == old(t.rows)[id := MealCrud.ToRow(MealCreate(name, exist, kind, date, Some(OrNoDishes(dishes))))]
    ensures OrNoDishes(dishes) == [] ==> t.rows[id].dishes.None?
    ensures reply == MealCreatedReply(name, exist, kind, date, dishes, id)
  {
    var m := MealCreate(name, exist, kind, date, Some(OrNoDishes(dishes)));
    var row;
    id, row := CreateMeal(t, m);
    reply := MealCreatedReply(name, exist, kind, date, dishes, id);
  }

  function MemberAddedReply(m: Member, id: int): string {
    MemberAddedHead + MemberAddedBody(m, id)
  }

  function MemberAddedBody(m: Member, id: int): string {
    "- **Name:** `" + m.name + "`\n- **Gender:** `" + OrText(m.gender, "")
    + "`\n- **Avatar:** `" + OrText(m.avatar, "") + "`\n\nMember ID: `" + IntToString(id) + "`"
  }

  /** `create_member`: one new row under a fresh key holding the three fields as given. */
  method CreateMemberTool(t: Table<Member>, name: string, gender: Option<string>, avatar: Option<string>)
    returns (reply: string, id: int)
    requires t.Valid()
    modifies t
    ensures t.Valid()
    ensures id !in old(t.rows)
    ensures t.rows == old(t.rows)[id := Member(name, gender, avatar)]
    ensures reply == MemberAddedReply(Member(name, gender, avatar), id)
  {
    id := t.Add(Member(name, gender, avatar));
    reply := MemberAddedReply(Member(name, gender, avatar), id);
  }

  /** A reply whose head holds an override phrase is tagged "created" whatever the classifier agent says. */
  lemma OverrideInHead(head: string, body: string, i: nat, k: nat, answer: Option<string>)
    requires k < |StageClassifier.OverridePhrases|
    requires i + |StageClassifier.OverridePhrases[k]| <= |head|
    requires Lower(head[i..i + |StageClassifier.OverridePhrases[k]|]) == StageClassifier.OverridePhrases[k]
    ensures StageClassifier.ClassifyStage(head + body, answer) == StageKeywords.Created
  {
    var w := StageClassifier.OverridePhrases[k];
    assert (head + body)[i..i + |w|] == head[i..i + |w|];
    ContainsLowered(head + body, i, w);
  }

  /** The reply of `create_chore` contains "created", so the classifier tags it "created". */
  lemma ChoreCreatedReplyIsCreated(name: string, members: seq<string>, start: string, repetition: string,
                                   due: Option<string>, reminder: Option<string>, choreType: Option<string>,
                                   id: int, answer: Option<string>)
    ensures StageClassifier.ClassifyStage(
      ChoreCreatedReply(name, members, start, repetition, due, reminder, choreType, id), answer) == StageKeywords.Created
  {
    assert ChoreCreatedHead[8..15] == "Created";
    assert StageClassifier.OverridePhrases[4] == "created";
    OverrideInHead(ChoreCreatedHead, ChoreCreatedBody(name, members, start, repetition, due, reminder, choreType, id),
                   8, 4, answer);
  }

  /** The reply of `create_meal` contains "created", so the classifier tags it "created". */
  lemma MealCreatedReplyIsCreated(name: string, exist: bool, kind: string, date: string,
                                  dishes: Option<seq<string>>, id: int, answer: Option<string>)
    ensures StageClassifier.ClassifyStage(MealCreatedReply(name, exist, kind, date, dishes, id), answer)
      == StageKeywords.Created
  {
    assert MealCreatedHead[7..14] == "Created";
    assert StageClassifier.OverridePhrases[4] == "created";
    OverrideInHead(MealCreatedHead, MealCreatedBody(name, exist, kind, date, dishes, id), 7, 4, answer);
  }

  /** The reply of `create_member` contains "added", so the classifier tags it "created". */
  lemma MemberAddedReplyIsCreated(m: Member, id: int, answer: Option<string>)
    ensures StageClassifier.ClassifyStage(MemberAddedReply(m, id), answer) == StageKeywords.Created
  {
    assert MemberAddedHead[16..21] == "Added";
    assert StageClassifier.OverridePhrases[3] == "added";
    OverrideInHead(MemberAddedHead, MemberAddedBody(m, id), 16, 3, answer);
  }

  // Listing.

  const ChoreHeader := "| ID | Chore Name | Assigned Members | Repetition | Due Time | Type |\n|---|---|---|---|---|---|"
  const MealHeader := "| ID | Meal Name | Kind | Date | Dishes |\n|---|---|---|---|---|"
  const MemberHeader := "| ID | Name | Gender | Avatar |\n|---|---|---|---|"

  /** One table row of `list_chores`; the member names appear as stored, comma-joined. */
  function ChoreLine(id: int, c: ChoreRow): string {
    "| " + IntToString(id) + " | " + c.choreName + " | " + c.assignedMembers + " | " + c.repetition
    + " | " + Shown(c.dueTime) + " | " + OrText(c.choreType, "") + " |"
  }

  /** The dishes cell of `list_meals`: the stored dishes split again and joined with ", ". */
  function DishesCell(dishes: Option<string>): string {
    Join(DecodeDishes(dishes), ", ")
  }

  /** The dishes cell as the code writes it: `', '.join` applied to the stored text itself. */
  function DishesCellAsWritten(dishes: Option<string>): string {
    if dishes.Some? && dishes.value != "" then Join(Chars(dishes.value), ", ") else ""
  }

  /** Iterating over a Python string gives its characters. */
  function Chars(s: string): (cs: seq<string>)
    ensures |cs| == |s| && forall i :: 0 <= i < |s| ==> cs[i] == [s[i]]
  {
    seq(|s|, i requires 0 <= i < |s| => [s[i]])
  }

  /**
   * The stored dishes "a,b" are listed as "a, ,, b": every character, the comma included,
   * becomes an item. Splitting first lists them as "a, b".
   */
  lemma ListedDishesAsWritten()
    ensures DishesCellAsWritten(Some("a,b")) == "a, ,, b"
    ensures DishesCell(Some("a,b")) == "a, b"
  {
    assert Chars("a,b") == ["a", ",", "b"];
    assert Split("a,b", ',') == ["a", "b"] by {
      SplitAtFirstSep("a", ',', "b");
      SplitNoSep("b", ',');
      assert "a" + [','] + "b" == "a,b";
    }
  }

  /** A meal's dishes are listed as they were given, joined with ", ", when they are comma-free. */
  lemma ListedDishesRoundTrip(dishes: Option<seq<string>>)
    requires dishes.Some? ==> forall k :: 0 <= k < |dishes.value| ==> ',' !in dishes.value[k]
    ensures DishesCell(EncodeDishes(dishes)) == Join(OrNoDishes(dishes), ", ")
  {
    DishesRoundTrip(dishes);
    if dishes.Some? && dishes.value == [""] {
      JoinEmpty(dishes.value, ",");
    }
  }

  function MealLine(id: int, m: MealRow): string {
    "| " + IntToString(id) + " | " + m.mealName + " | " + m.mealKind + " | " + m.mealDate
    + " | " + DishesCell(m.dishes) + " |"
  }

  function MemberLine(id: int, m: Member): string {
    "| " + IntToString(id) + " | " + m.name + " | " + OrText(m.gender, "") + " | " + OrText(m.avatar, "") + " |"
  }

  function ChoreLines(listed: seq<(int, ChoreRow)>): (lines: seq<string>)
    ensures |lines| == |listed| && forall k :: 0 <= k < |listed| ==> lines[k] == ChoreLine(listed[k].0, listed[k].1)
  {
    seq(|listed|, k requires 0 <= k < |listed| => ChoreLine(listed[k].0, listed[k].1))
  }

  function MealLines(listed: seq<(int, MealRow)>): (lines: seq<string>)
    ensures |lines| == |listed| && forall k :: 0 <= k < |listed| ==> lines[k] == MealLine(listed[k].0, listed[k].1)
  {
    seq(|listed|, k requires 0 <= k < |listed| => MealLine(listed[k].0, listed[k].1))
  }

  function MemberLines(listed: seq<(int, Member)>): (lines: seq<string>)
    ensures |lines| == |listed| && forall k :: 0 <= k < |listed| ==> lines[k] == MemberLine(listed[k].0, listed[k].1)
  {
    seq(|listed|, k requires 0 <= k < |listed| => MemberLine(listed[k].0, listed[k].1))
  }

  /** A titled table: the title, the header, then one line per record. */
  function TableText(title: string, header: string, lines: seq<string>): (s: string)
    ensures |s| > 0 && s[0] == '*'
  {
    "**" + title + "**\n\n" + header + "\n" + Join(lines, "\n")
  }

  /** A listing that holds every stored key and only stored keys is empty exactly when the table is. */
  lemma EmptyListing<R>(rows: map<int, R>, listed: seq<(int, R)>)
    requires forall k :: 0 <= k < |listed| ==> listed[k].0 in rows
    requires forall id :: id in rows ==> exists k :: 0 <= k < |listed| && listed[k].0 == id
    ensures listed == [] <==> rows == map[]
  {
    if listed == [] {
      assert forall id :: id !in rows;
      assert rows.Keys == {};
    } else {
      assert listed[0].0 in rows;
    }
  }

  /** `list_chores`: the fixed text exactly when the table is empty, else one line per row in key order. */
  method ListChoresTool(t: Table<ChoreRow>) returns (reply: string, listed: seq<(int, ChoreRow)>)
    requires t.Valid()
    ensures forall k :: 0 <= k < |listed| ==> listed[k].0 in t.rows && t.rows[listed[k].0] == listed[k].1
    ensures forall id :: id in t.rows ==> exists k :: 0 <= k < |listed| && listed[k].0 == id
    ensures forall j, k :: 0 <= j < k < |listed| ==> listed[j].0 < listed[k].0
    ensures reply == "No chores found." <==> t.rows == map[]
    ensures t.rows != map[] ==> reply == TableText("Chores", ChoreHeader, ChoreLines(listed))
  {
    listed := GetChores(t);
    EmptyListing(t.rows, listed);
    if listed == [] {
      reply := "No chores found.";
    } else {
      reply := TableText("Chores", ChoreHeader, ChoreLines(listed));
    }
  }

  /** `list_meals`, with each meal's dishes split again before they are joined for display. */
  method ListMealsTool(t: Table<MealRow>) returns (reply: string, listed: seq<(int, MealRow)>)
    requires t.Valid()
    ensures forall k :: 0 <= k < |listed| ==> listed[k].0 in t.rows && t.rows[listed[k].0] == listed[k].1
    ensures forall id :: id in t.rows ==> exists k :: 0 <= k < |listed| && listed[k].0 == id
    ensures forall j, k :: 0 <= j < k < |listed| ==> listed[j].0 < listed[k].0
    ensures reply == "No meals found." <==> t.rows == map[]
    ensures t.rows != map[] ==> reply == TableText("Meals", MealHeader, MealLines(listed))
  {
    listed := GetMeals(t);
    EmptyListing(t.rows, listed);
    if listed == [] {
      reply := "No meals found.";
    } else {
      reply := TableText("Meals", MealHeader, MealLines(listed));
    }
  }

  /** `list_members`: the fixed text exactly when the table is empty, else one line per member. */
  method ListMembersTool(t: Table<Member>) returns (reply: string, listed: seq<(int, Member)>)
    requires t.Valid()
    ensures forall k :: 0 <= k < |listed| ==> listed[k].0 in t.rows && t.rows[listed[k].0] == listed[k].1
    ensures forall id :: id in t.rows ==> exists k :: 0 <= k < |listed| && listed[k].0 == id
    ensures forall j, k :: 0 <= j < k < |listed| ==> listed[j].0 < listed[k].0
    ensures reply == "No family members found." <==> t.rows == map[]
    ensures t.rows != map[] ==> reply == TableText("Family Members", MemberHeader, MemberLines(listed))
  {
    listed := t.All();
    EmptyListing(t.rows, listed);
    if listed == [] {
      reply := "No family members found.";
    } else {
      reply := TableText("Family Members", MemberHeader, MemberLines(listed));
    }
  }

  // Updating: the stored record as a keyword dictionary, overridden by the schema's keys among the arguments.

  /** `{k: kwargs[k] for k in kwargs if k in fields}` */
  function FilterFields(kwargs: Dict, fields: set<string>): (data: Dict)
    ensures data.Keys == kwargs.Keys * fields
    ensures forall k :: k in data ==> data[k] == kwargs[k]
  {
    map k | k in kwargs && k in fields :: kwargs[k]
  }

  function TextValue(o: Option<string>): Value {
    if o.Some? then VStr(o.value) else VNone
  }

  /** A text where a list is expected becomes a one-element list. */
  function WrapText(v: Value): (w: Value)
    ensures v.VStr? ==> w == VList([v.s])
    ensures !v.VStr? ==> w == v
  {
    if v.VStr? then VList([v.s]) else v
  }

  /** The stored chore as `c.__dict__` shows it: every column, the member names still joined. */
  function ChoreDict(id: int, row: ChoreRow): Dict {
    map["id" := VInt(id), "chore_name" := VStr(row.choreName), "icon" := TextValue(row.icon),
        "assigned_members" := VStr(row.assignedMembers), "start_date" := VStr(row.startDate),
        "end_date" := TextValue(row.endDate), "due_time" := TextValue(row.dueTime),
        "repetition" := VStr(row.repetition), "reminder" := TextValue(row.reminder),
        "type" := TextValue(row.choreType)]
  }

  /** `assigned.split(",") if "," in assigned else [assigned]`: joining the names again gives the stored text. */
  function StoredMembers(s: string): (names: seq<string>)
    ensures Join(names, ",") == s
  {
    if ',' in s then
      JoinSplit(s, ',');
      Split(s, ',')
    else [s]
  }

  /** The keyword dictionary `update_chore` hands to ChoreCreate. */
  function ChoreUpdateDict(id: int, row: ChoreRow, kwargs: Dict): Dict {
    var data := FilterFields(kwargs, ChoreFields);
    var data' := if "assigned_members" in data then data["assigned_members" := WrapText(data["assigned_members"])] else data;
    ChoreDict(id, row) + data' + map["assigned_members" := GetOr(data', "assigned_members", VList(StoredMembers(row.assignedMembers)))]
  }

  /** The validated chore `update_chore` writes, or the field that fails validation. */
  function UpdatedChore(id: int, row: ChoreRow, kwargs: Dict): Result<ChoreCreate, string> {
    ChoreCrud.FromFields(ChoreUpdateDict(id, row, kwargs))
  }

  /**
   * Every schema field other than the member names holds the argument when one was
   * supplied and the stored value otherwise; the member names are the supplied list
   * (a supplied text wrapped into one name) or the stored names split again.
   */
  lemma ChoreUpdateMerges(id: int, row: ChoreRow, kwargs: Dict)
    ensures forall k :: k in ChoreFields && k != "assigned_members" ==>
      Get(ChoreUpdateDict(id, row, kwargs), k) == (if k in kwargs then kwargs[k] else Get(ChoreDict(id, row), k))
    ensures Get(ChoreUpdateDict(id, row, kwargs), "assigned_members") ==
      (if "assigned_members" in kwargs then WrapText(kwargs["assigned_members"]) else VList(StoredMembers(row.assignedMembers)))
  {
    var data := FilterFields(kwargs, ChoreFields);
    var m := "assigned_members";
    var data' := if m in data then data[m := WrapText(data[m])] else data;
    var stored := ChoreDict(id, row);
    var d := stored + data' + map[m := GetOr(data', m, VList(StoredMembers(row.assignedMembers)))];
    assert ChoreUpdateDict(id, row, kwargs) == d;
    forall k | k in ChoreFields && k != m
      ensures Get(d, k) == (if k in kwargs then kwargs[k] else Get(stored, k))
    {
      if k in kwargs {
        assert k in data && data'[k] == kwargs[k];
      } else {
        assert k !in data';
      }
    }
  }

  /** Arguments outside the schema make no difference to the update. */
  lemma ChoreUpdateIgnoresOtherKeys(id: int, row: ChoreRow, kw1: Dict, kw2: Dict)
    requires forall k :: k in ChoreFields ==> (k in kw1 <==> k in kw2) && (k in kw1 ==> kw1[k] == kw2[k])
    ensures UpdatedChore(id, row, kw1) == UpdatedChore(id, row, kw2)
  {
    assert FilterFields(kw1, ChoreFields) == FilterFields(kw2, ChoreFields);
  }

  /** The stored chore, with its names given as a list, validates as the stored fields. */
  lemma ChoreDictValidates(id: int, row: ChoreRow, names: seq<string>)
    ensures ChoreCrud.FromFields(ChoreDict(id, row)["assigned_members" := VList(names)]) ==
      Ok(ChoreCreate(row.choreName, row.icon, names, row.startDate, row.endDate, row.dueTime,
                     row.repetition, row.reminder, row.choreType))
  {
    var d := ChoreDict(id, row)["assigned_members" := VList(names)];
    assert ChoreCrud.RequiredText(d, "chore_name") == Ok(row.choreName);
    assert ChoreCrud.OptionalText(d, "icon", None) == Ok(row.icon);
    assert ChoreCrud.RequiredList(d, "assigned_members") == Ok(names);
    assert ChoreCrud.RequiredText(d, "start_date") == Ok(row.startDate);
    assert ChoreCrud.OptionalText(d, "end_date", None) == Ok(row.endDate);
    assert ChoreCrud.OptionalText(d, "due_time", Some(DefaultDueTime)) == Ok(row.dueTime);
    assert ChoreCrud.RequiredText(d, "repetition") == Ok(row.repetition);
    assert ChoreCrud.OptionalText(d, "reminder", None) == Ok(row.reminder);
    assert ChoreCrud.OptionalText(d, "type", None) == Ok(row.choreType);
  }

  /** An update that supplies no schema field succeeds and writes the stored row back unchanged. */
  lemma ChoreUpdateWithoutFieldsKeepsRow(id: int, row: ChoreRow, kwargs: Dict)
    requires forall k :: k in kwargs ==> k !in ChoreFields
    ensures UpdatedChore(id, row, kwargs).Ok?
    ensures ChoreCrud.ToRow(UpdatedChore(id, row, kwargs).value) == row
  {
    var names := StoredMembers(row.assignedMembers);
    assert FilterFields(kwargs, ChoreFields) == map[];
    assert ChoreUpdateDict(id, row, kwargs) == ChoreDict(id, row)["assigned_members" := VList(names)];
    ChoreDictValidates(id, row, names);
  }

  function ChoreUpdatedReply(id: int, c: ChoreCreate): string {
    "**Chore Updated!**\n\n- **ID:** `" + IntToString(id) + "`\n- **Name:** `" + c.choreName
    + "`\n- **Assigned:** " + Join(c.assignedMembers, ", ") + "\n- **Repetition:** `" + c.repetition
    + "`\n- **Due Time:** `" + Shown(c.dueTime) + "`\n- **Type:** `" + OrText(c.choreType, "")
    + "`\n- **Reminder:** `" + OrText(c.reminder, "None") + "`"
  }

  /**
   * `update_chore`: an absent key gives the not-found reply and writes nothing; a merged
   * record that fails validation raises out of the tool and writes nothing; otherwise
   * the row is overwritten with the merged record and nothing else changes.
   */
  method UpdateChoreTool(t: Table<ChoreRow>, id: int, kwargs: Dict) returns (out: ToolOutcome)
    requires t.Valid()
    modifies t
    ensures t.Valid()
    ensures id !in old(t.rows) ==> out == Reply(NotFoundReply("Chore", id)) && t.rows == old(t.rows)
    ensures id in old(t.rows) && UpdatedChore(id, old(t.rows)[id], kwargs).Err? ==>
      out == Raised(UpdatedChore(id, old(t.rows)[id], kwargs).error) && t.rows == old(t.rows)
    ensures id in old(t.rows) && UpdatedChore(id, old(t.rows)[id], kwargs).Ok? ==>
      var c := UpdatedChore(id, old(t.rows)[id], kwargs).value;
      out == Reply(ChoreUpdatedReply(id, c)) && t.rows == old(t.rows)[id := ChoreCrud.ToRow(c)]
  {
    var found := GetChore(t, id);
    if found.None? {
      return Reply(NotFoundReply("Chore", id));
    }
    var r := UpdatedChore(id, found.value, kwargs);
    if r.Err? {
      return Raised(r.error);
    }
    var updated := UpdateChore(t, id, r.value);
    out := Reply(ChoreUpdatedReply(id, r.value));
  }

  /** The stored meal as `m.__dict__` shows it: the dishes still one comma-joined text. */
  function MealDictAsWritten(id: int, row: MealRow): Dict {
    map["id" := VInt(id), "meal_name" := VStr(row.mealName), "exist" := VBool(row.exist),
        "meal_kind" := VStr(row.mealKind), "meal_date" := VStr(row.mealDate), "dishes" := TextValue(row.dishes)]
  }

  /** The stored meal with its dishes split again into a list, as the schema expects. */
  function MealDict(id: int, row: MealRow): Dict {
    MealDictAsWritten(id, row)["dishes" := VList(DecodeDishes(row.dishes))]
  }

  /** The schema's keys among the arguments, a text `dishes` wrapped into one dish. */
  function MealData(kwargs: Dict): Dict {
    var data := FilterFields(kwargs, MealFields);
    if "dishes" in data then data["dishes" := WrapText(data["dishes"])] else data
  }

  /** `MealCreate(**{**m.__dict__, **data})` exactly as the code builds it. */
  function UpdatedMealAsWritten(id: int, row: MealRow, kwargs: Dict): Result<MealCreate, string> {
    MealCrud.FromFields(MealDictAsWritten(id, row) + MealData(kwargs))
  }

  /**
   * As written, an update that does not itself supply dishes fails validation for every
   * meal stored with dishes: the stored text is not a list.
   */
  lemma MealUpdateAsWrittenRejectsStoredDishes(id: int, row: MealRow, kwargs: Dict)
    requires row.dishes.Some? && "dishes" !in kwargs
    ensures UpdatedMealAsWritten(id, row, kwargs).Err?
  {
    var d := MealDictAsWritten(id, row) + MealData(kwargs);
    assert Get(d, "dishes") == VStr(row.dishes.value);
  }

  /** The update with the stored dishes read back as a list. */
  function UpdatedMeal(id: int, row: MealRow, kwargs: Dict): Result<MealCreate, string> {
    MealCrud.FromFields(MealDict(id, row) + MealData(kwargs))
  }

  /** Every schema field holds the argument when one was supplied and the stored value otherwise. */
  lemma MealUpdateMerges(id: int, row: MealRow, kwargs: Dict)
    ensures forall k :: k in MealFields && k != "dishes" ==>
      Get(MealDict(id, row) + MealData(kwargs), k) == (if k in kwargs then kwargs[k] else Get(MealDict(id, row), k))
    ensures Get(MealDict(id, row) + MealData(kwargs), "dishes") ==
      (if "dishes" in kwargs then WrapText(kwargs["dishes"]) else VList(DecodeDishes(row.dishes)))
  {
  }

  /** Arguments outside the schema make no difference to the update. */
  lemma MealUpdateIgnoresOtherKeys(id: int, row: MealRow, kw1: Dict, kw2: Dict)
    requires forall k :: k in MealFields ==> (k in kw1 <==> k in kw2) && (k in kw1 ==> kw1[k] == kw2[k])
    ensures UpdatedMeal(id, row, kw1) == UpdatedMeal(id, row, kw2)
  {
    assert FilterFields(kw1, MealFields) == FilterFields(kw2, MealFields);
  }

  /** The stored meal, its dishes split again, validates as the stored fields. */
  lemma MealDictValidates(id: int, row: MealRow)
    ensures MealCrud.FromFields(MealDict(id, row)) ==
      Ok(MealCreate(row.mealName, row.exist, row.mealKind, row.mealDate, Some(DecodeDishes(row.dishes))))
  {
    var d := MealDict(id, row);
    assert d["meal_name"] == VStr(row.mealName) && d["exist"] == VBool(row.exist);
    assert d["meal_kind"] == VStr(row.mealKind) && d["meal_date"] == VStr(row.mealDate);
    assert d["dishes"] == VList(DecodeDishes(row.dishes));
  }

  /** Stored dishes split and joined again give the stored text back, unless it is the empty text. */
  lemma StoredDishesRoundTrip(s: Option<string>)
    requires s != Some("")
    ensures EncodeDishes(Some(DecodeDishes(s))) == s
  {
    if s.Some? {
      JoinSplit(s.value, ',');
    }
  }

  /** An update that supplies no schema field succeeds and writes the stored row back unchanged. */
  lemma MealUpdateWithoutFieldsKeepsRow(id: int, row: MealRow, kwargs: Dict)
    requires forall k :: k in kwargs ==> k !in MealFields
    requires row.dishes != Some("")
    ensures UpdatedMeal(id, row, kwargs).Ok?
    ensures MealCrud.ToRow(UpdatedMeal(id, row, kwargs).value) == row
  {
    assert MealData(kwargs) == map[] by {
      assert FilterFields(kwargs, MealFields) == map[];
    }
    assert MealDict(id, row) + MealData(kwargs) == MealDict(id, row);
    MealDictValidates(id, row);
    StoredDishesRoundTrip(row.dishes);
  }

  function MealUpdatedReply(id: int, m: MealCreate): string {
    "**Meal Updated!**\n\n- **ID:** `" + IntToString(id) + "`\n- **Name:** `" + m.mealName
    + "`\n- **Kind:** `" + m.mealKind + "`\n- **Date:** `" + m.mealDate
    + "`\n- **Dishes:** " + Join(OrNoDishes(m.dishes), ", ")
  }

  /**
   * `update_meal`, with the stored dishes read back as a list: an absent key gives the
   * not-found reply, a failed validation raises, and both write nothing; otherwise the
   * row is overwritten with the merged record.
   */
  method UpdateMealTool(t: Table<MealRow>, id: int, kwargs: Dict) returns (out: ToolOutcome)
    requires t.Valid()
    modifies t
    ensures t.Valid()
    ensures id !in old(t.rows) ==> out == Reply(NotFoundReply("Meal", id)) && t.rows == old(t.rows)
    ensures id in old(t.rows) && UpdatedMeal(id, old(t.rows)[id], kwargs).Err? ==>
      out == Raised(UpdatedMeal(id, old(t.rows)[id], kwargs).error) && t.rows == old(t.rows)
    ensures id in old(t.rows) && UpdatedMeal(id, old(t.rows)[id], kwargs).Ok? ==>
      var m := UpdatedMeal(id, old(t.rows)[id], kwargs).value;
      out == Reply(MealUpdatedReply(id, m)) && t.rows == old(t.rows)[id := MealCrud.ToRow(m)]
  {
    var found := GetMeal(t, id);
    if found.None? {
      return Reply(NotFoundReply("Meal", id));
    }
    var r := UpdatedMeal(id, found.value, kwargs);
    if r.Err? {
      return Raised(r.error);
    }
    var updated := UpdateMeal(t, id, r.value);
    out := Reply(MealUpdatedReply(id, r.value));
  }

  function MemberDict(id: int, m: Member): Dict {
    map["id" := VInt(id), "name" := VStr(m.name), "gender" := TextValue(m.gender), "avatar" := TextValue(m.avatar)]
  }

  /** `FamilyMemberCreate(**d)`: a text name, and gender and avatar each a text or None. */
  function MemberFromFields(d: Dict): (r: Result<Member, string>)
    ensures r.Ok? ==> Get(d, "name") == VStr(r.value.name)
    ensures r.Ok? ==> Get(d, "gender") == TextValue(r.value.gender)
    ensures r.Ok? ==> Get(d, "avatar") == TextValue(r.value.avatar)
    ensures r.Err? ==> r.error in MemberFields
  {
    var name := ChoreCrud.RequiredText(d, "name");
    var gender := ChoreCrud.OptionalText(d, "gender", None);
    var avatar := ChoreCrud.OptionalText(d, "avatar", None);
    if name.Err? then Err(name.error)
    else if gender.Err? then Err(gender.error)
    else if avatar.Err? then Err(avatar.error)
    else Ok(Member(name.value, gender.value, avatar.value))
  }

  function UpdatedMember(id: int, m: Member, kwargs: Dict): Result<Member, string> {
    MemberFromFields(MemberDict(id, m) + FilterFields(kwargs, MemberFields))
  }

  /**
   * A supplied field replaces the stored one and an unsupplied field keeps it; arguments
   * outside the schema are ignored, so supplying none writes the member back unchanged.
   */
  lemma MemberUpdateMerges(id: int, m: Member, kwargs: Dict)
    ensures UpdatedMember(id, m, kwargs).Ok? ==>
      var u := UpdatedMember(id, m, kwargs).value;
      ("name" !in kwargs ==> u.name == m.name) && ("gender" !in kwargs ==> u.gender == m.gender) &&
      ("avatar" !in kwargs ==> u.avatar == m.avatar) &&
      ("name" in kwargs ==> kwargs["name"] == VStr(u.name)) &&
      ("gender" in kwargs ==> kwargs["gender"] == TextValue(u.gender)) &&
      ("avatar" in kwargs ==> kwargs["avatar"] == TextValue(u.avatar))
    ensures (forall k :: k in kwargs ==> k !in MemberFields) ==> UpdatedMember(id, m, kwargs) == Ok(m)
  {
    var d := MemberDict(id, m) + FilterFields(kwargs, MemberFields);
    if UpdatedMember(id, m, kwargs).Ok? {
      var u := UpdatedMember(id, m, kwargs).value;
      if m.gender.Some? && "gender" !in kwargs { assert Get(d, "gender") == VStr(m.gender.value); }
      if m.avatar.Some? && "avatar" !in kwargs { assert Get(d, "avatar") == VStr(m.avatar.value); }
    }
    if forall k :: k in kwargs ==> k !in MemberFields {
      assert FilterFields(kwargs, MemberFields) == map[];
    }
  }

  function MemberUpdatedReply(id: int, m: Member): string {
    "**Member Updated!**\n\n- **ID:** `" + IntToString(id) + "`\n- **Name:** `" + m.name
    + "`\n- **Gender:** `" + OrText(m.gender, "") + "`\n- **Avatar:** `" + OrText(m.avatar, "") + "`"
  }

  /** `update_member`: not-found and failed validation write nothing; otherwise the member is overwritten. */
  method UpdateMemberTool(t: Table<Member>, id: int, kwargs: Dict) returns (out: ToolOutcome)
    requires t.Valid()
    modifies t
    ensures t.Valid()
    ensures id !in old(t.rows) ==> out == Reply(NotFoundReply("Member", id)) && t.rows == old(t.rows)
    ensures id in old(t.rows) && UpdatedMember(id, old(t.rows)[id], kwargs).Err? ==>
      out == Raised(UpdatedMember(id, old(t.rows)[id], kwargs).error) && t.rows == old(t.rows)
    ensures id in old(t.rows) && UpdatedMember(id, old(t.rows)[id], kwargs).Ok? ==>
      var u := UpdatedMember(id, old(t.rows)[id], kwargs).value;
      out == Reply(MemberUpdatedReply(id, u)) && t.rows == old(t.rows)[id := u]
  {
    var found := t.Get(id);
    if found.None? {
      return Reply(NotFoundReply("Member", id));
    }
    var r := UpdatedMember(id, found.value, kwargs);
    if r.Err? {
      return Raised(r.error);
    }
    var ok := t.Put(id, r.value);
    out := Reply(MemberUpdatedReply(id, r.value));
  }

  // Deleting.

  /** `delete_chore`: "deleted" exactly when the table held the key, which is then gone. */
  method DeleteChoreTool(t: Table<ChoreRow>, id: int) returns (reply: string)
    requires t.Valid()
    modifies t
    ensures t.Valid()
    ensures reply == DeleteReply("Chore", id, id in old(t.rows))
    ensures t.rows == old(t.rows) - {id}
  {
    var ok := DeleteChore(t, id);
    reply := DeleteReply("Chore", id, ok);
  }

  method DeleteMealTool(t: Table<MealRow>, id: int) returns (reply: string)
    requires t.Valid()
    modifies t
    ensures t.Valid()
    ensures reply == DeleteReply("Meal", id, id in old(t.rows))
    ensures t.rows == old(t.rows) - {id}
  {
    var ok := DeleteMeal(t, id);
    reply := DeleteReply("Meal", id, ok);
  }

  method DeleteMemberTool(t: Table<Member>, id: int) returns (reply: string)
    requires t.Valid()
    modifies t
    ensures t.Valid()
    ensures reply == DeleteReply("Member", id, id in old(t.rows))
    ensures t.rows == old(t.rows) - {id}
  {
    var ok := t.Remove(id);
    reply := DeleteReply("Member", id, ok);
  }

  /** The two delete replies differ, so the reply tells whether a row was removed. */
  lemma DeleteRepliesDiffer(kind: string, id: int)
    ensures DeleteReply(kind, id, true) != DeleteReply(kind, id, false)
  {
    var p := kind + " " + IntToString(id);
    assert DeleteReply(kind, id, true) == p + " deleted.";
    assert DeleteReply(kind, id, false) == p + " not found.";
    assert |p + " deleted."| != |p + " not found."|;
  }

  /** A text that goes on with " not found" is tagged an error by the keyword table. */
  lemma NotFoundTailIsError(p: string, tail: string)
    requires |tail| >= 10 && tail[..10] == " not found"
    ensures StageKeywords.KeywordStage(p + tail) == Some(StageKeywords.Error)
  {
    var r := p + tail;
    assert r[|p| + 1..|p| + 10] == tail[1..10] == "not found";
    StageKeywords.NotFoundWindowIsError(r, |p| + 1);
  }

  /** Every not-found reply of the update and delete tools is tagged an error by the keyword table. */
  lemma NotFoundRepliesAreErrors(kind: string, id: int)
    ensures StageKeywords.KeywordStage(NotFoundReply(kind, id)) == Some(StageKeywords.Error)
    ensures StageKeywords.KeywordStage(DeleteReply(kind, id, false)) == Some(StageKeywords.Error)
  {
    NotFoundTailIsError("**" + kind + " with ID `" + IntToString(id) + "`", " not found.**");
    NotFoundTailIsError(kind + " " + IntToString(id), " not found.");
  }
}
