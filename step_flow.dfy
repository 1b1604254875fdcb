/**
 * The stage-based creation flows of backend/main.py (`chore_step`, `meal_step`): each
 * request merges the user's input over the data gathered so far, asks for the first
 * missing required field, shows a summary until the client confirms, and only then
 * validates the data and writes one row. Recipe search is an oracle: the names of the
 * recipes it matched are a parameter.
 */
module StepFlow {
  import opened Wrappers
  import opened Text
  import opened Values
  import opened Store
  import ChoreCrud
  import MealCrud

  /** A step request: the data so far, the new input (None when absent) and the confirm flag (None reads as false). */
  datatype StepRequest = StepRequest(currentData: Dict, userInput: Option<Dict>, confirm: bool)

  datatype StepResponse =
    | Collecting(prompt: string, missingFields: seq<string>, currentData: Dict, suggestedRecipes: Option<seq<string>>)
    | Confirming(summary: Dict, prompt: string)
    | Created(message: string, id: int)
    | Failed(message: string)

  /** `data = dict(current_data); if user_input: data.update(user_input)`. */
  function Merge(req: StepRequest): (data: Dict)
    ensures forall k :: k in data <==> k in req.currentData || (req.userInput.Some? && k in req.userInput.value)
    ensures req.userInput.Some? ==> forall k :: k in req.userInput.value ==> data[k] == req.userInput.value[k]
    ensures forall k :: k in req.currentData && (req.userInput.None? || k !in req.userInput.value) ==>
              data[k] == req.currentData[k]
  {
    match req.userInput
    case Some(u) => if |u| > 0 then req.currentData + u else req.currentData
    case None => req.currentData
  }

  /** How a flow decides that a required field still has to be asked for. */
  datatype MissingRule = Falsy | NoneOrBlank

  predicate IsMissing(v: Value, rule: MissingRule) {
    match rule
    case Falsy => !Truthy(v)
    case NoneOrBlank => NoneOrEmpty(v)
  }

  /** `[f for f in fields if <f is missing>]`. */
  function Missing(fields: seq<string>, data: Dict, rule: MissingRule): seq<string> {
    if fields == [] then []
    else (if IsMissing(Get(data, fields[0]), rule) then [fields[0]] else []) + Missing(fields[1..], data, rule)
  }

  /** A field is listed exactly when it is required and missing; nothing else is listed. */
  lemma {:induction false} MissingMembers(fields: seq<string>, data: Dict, rule: MissingRule)
    ensures forall f :: f in Missing(fields, data, rule) <==> f in fields && IsMissing(Get(data, f), rule)
    ensures |Missing(fields, data, rule)| <= |fields|
  {
    if fields != [] {
      MissingMembers(fields[1..], data, rule);
    }
  }

  /** With every field supplied, nothing is listed. */
  lemma {:induction false} MissingNone(fields: seq<string>, data: Dict, rule: MissingRule)
    requires forall f :: f in fields ==> !IsMissing(Get(data, f), rule)
    ensures Missing(fields, data, rule) == []
  {
    if fields != [] {
      assert fields[0] in fields;
      MissingNone(fields[1..], data, rule);
    }
  }

  /** The first listed field is the first required field, in order, that is missing. */
  lemma {:induction false} MissingFirst(fields: seq<string>, data: Dict, rule: MissingRule)
    requires Missing(fields, data, rule) != []
    ensures exists k :: 0 <= k < |fields| && fields[k] == Missing(fields, data, rule)[0] &&
                        IsMissing(Get(data, fields[k]), rule) &&
                        forall j :: 0 <= j < k ==> !IsMissing(Get(data, fields[j]), rule)
  {
    if !IsMissing(Get(data, fields[0]), rule) {
      MissingFirst(fields[1..], data, rule);
      var k :| 0 <= k < |fields[1..]| && fields[1..][k] == Missing(fields[1..], data, rule)[0] &&
               IsMissing(Get(data, fields[1..][k]), rule) &&
               forall j :: 0 <= j < k ==> !IsMissing(Get(data, fields[1..][j]), rule);
      assert fields[k + 1] == fields[1..][k];
      assert forall j :: 1 <= j < k + 1 ==> fields[j] == fields[1..][j - 1];
    } else {
      assert fields[0] == Missing(fields, data, rule)[0];
    }
  }

  /** Answering the first missing field with a supplied value leaves the rest of the list. */
  lemma {:induction false} MissingProgress(fields: seq<string>, data: Dict, rule: MissingRule, v: Value)
    requires forall i, j :: 0 <= i < j < |fields| ==> fields[i] != fields[j]
    requires Missing(fields, data, rule) != [] && !IsMissing(v, rule)
    ensures Missing(fields, data[Missing(fields, data, rule)[0] := v], rule) == Missing(fields, data, rule)[1..]
  {
    var f := Missing(fields, data, rule)[0];
    if IsMissing(Get(data, fields[0]), rule) {
      assert f == fields[0];
      MissingUnaffected(fields[1..], data, rule, f, v);
    } else {
      MissingProgress(fields[1..], data, rule, v);
      assert Get(data[f := v], fields[0]) == Get(data, fields[0]) || fields[0] == f;
    }
  }

  /** Setting a key that is not among the fields changes nothing in the list. */
  lemma {:induction false} MissingUnaffected(fields: seq<string>, data: Dict, rule: MissingRule, f: string, v: Value)
    requires f !in fields
    ensures Missing(fields, data[f := v], rule) == Missing(fields, data, rule)
  {
    if fields != [] {
      MissingUnaffected(fields[1..], data, rule, f, v);
    }
  }

  /** A chore field holding `false` still counts as missing; a meal field holding `false` is supplied. */
  lemma FalseIsMissingOnlyForChores()
    ensures IsMissing(VBool(false), Falsy) && !IsMissing(VBool(false), NoneOrBlank)
    ensures IsMissing(VStr(""), Falsy) && IsMissing(VStr(""), NoneOrBlank)
  {
  }

  // ---- chore_step ----

  const ChoreRequired: seq<string> := ["chore_name", "assigned_members", "start_date", "repetition"]

  function ChorePrompt(field: string): string {
    if field == "chore_name" then "What is the name of the chore?"
    else if field == "assigned_members" then "Who should do this task? (Please provide member names)"
    else if field == "start_date" then "When should this chore start? (YYYY-MM-DD)"
    else "How often should this chore repeat? (daily, weekly, one-time)"
  }

  const ChoreConfirmPrompt := "Here's your chore summary. Type 'Done' to confirm or provide changes."

  /** The summary shown before confirmation; `due_time` defaults to "23:59" when absent. */
  function ChoreSummary(data: Dict): (s: Dict)
    ensures s.Keys == {"chore_name", "assigned_members", "start_date", "repetition", "due_time", "reminder", "type", "icon"}
    ensures forall k :: k in ChoreRequired ==> s[k] == Get(data, k)
    ensures "due_time" !in data ==> s["due_time"] == VStr(ChoreCrud.DefaultDueTime)
    ensures "due_time" in data ==> s["due_time"] == data["due_time"]
  {
    map["chore_name" := Get(data, "chore_name"),
        "assigned_members" := Get(data, "assigned_members"),
        "start_date" := Get(data, "start_date"),
        "repetition" := Get(data, "repetition"),
        "due_time" := GetOr(data, "due_time", VStr(ChoreCrud.DefaultDueTime)),
        "reminder" := Get(data, "reminder"),
        "type" := Get(data, "type"),
        "icon" := Get(data, "icon")]
  }

  /**
   * chore_step: collecting_info while a required field is falsy, confirming_info until
   * the client confirms, then one new row (created) or nothing (error).
   */
  method ChoreStep(t: Table<ChoreCrud.ChoreRow>, req: StepRequest) returns (resp: StepResponse)
    requires t.Valid()
    modifies t
    ensures t.Valid()
    ensures var data := Merge(req);
            var missing := Missing(ChoreRequired, data, Falsy);
            (missing != [] ==> resp == Collecting(ChorePrompt(missing[0]), missing, data, None)) &&
            (missing == [] && !req.confirm ==> resp == Confirming(ChoreSummary(data), ChoreConfirmPrompt)) &&
            (missing == [] && req.confirm && ChoreCrud.FromFields(data).Err? ==>
               resp == Failed(ChoreCrud.FromFields(data).error)) &&
            (missing == [] && req.confirm && ChoreCrud.FromFields(data).Ok? ==>
               resp.Created? && resp.id !in old(t.rows) &&
               t.rows == old(t.rows)[resp.id := ChoreCrud.ToRow(ChoreCrud.FromFields(data).value)])
    ensures !resp.Created? ==> t.rows == old(t.rows)
  {
    var data := Merge(req);
    var missing := Missing(ChoreRequired, data, Falsy);
    if missing != [] {
      return Collecting(ChorePrompt(missing[0]), missing, data, None);
    }
    if !req.confirm {
      return Confirming(ChoreSummary(data), ChoreConfirmPrompt);
    }
    match ChoreCrud.FromFields(data)
    case Err(e) =>
      return Failed(e);
    case Ok(c) =>
      var id, _ := ChoreCrud.CreateChore(t, c);
      return Created("Chore created successfully!", id);
  }

  /** A chore is written only with every required field supplied and the confirm flag set. */
  method ChoreWriteNeedsConfirm(t: Table<ChoreCrud.ChoreRow>, req: StepRequest) returns (resp: StepResponse)
    requires t.Valid()
    modifies t
    ensures t.rows != old(t.rows) ==> req.confirm && Missing(ChoreRequired, Merge(req), Falsy) == []
  {
    resp := ChoreStep(t, req);
  }

  // ---- meal_step ----

  const MealRequired: seq<string> := ["meal_name", "exist", "meal_kind", "meal_date"]

  function MealPrompt(field: string): string {
    if field == "meal_name" then "What is the name of the meal?"
    else if field == "exist" then "Is this meal already in the recipe database? (true/false)"
    else if field == "meal_kind" then "What kind of meal is this? (breakfast, lunch, dinner, snack)"
    else "When do you want to have this meal? (YYYY-MM-DD)"
  }

  const MealConfirmPrompt := "Here's your meal summary. Type 'Done' to confirm or provide changes."
  const NoRecipePrompt := "No similar recipes found. Is this a new meal? (true/false)"

  /** Python's rendering of a list of names, `['a', 'b']` (names without quotes or escapes). */
  function NameListText(names: seq<string>): string {
    "[" + Join(Quoted(names), ", ") + "]"
  }

  function Quoted(names: seq<string>): (q: seq<string>)
    ensures |q| == |names|
  {
    if names == [] then [] else ["'" + names[0] + "'"] + Quoted(names[1..])
  }

  function RecipeMatchPrompt(names: seq<string>): string {
    "Found similar recipes: " + NameListText(names) + ". Is your meal one of these? (true/false)"
  }

  function MealSummary(data: Dict): (s: Dict)
    ensures s.Keys == {"meal_name", "exist", "meal_kind", "meal_date", "dishes"}
    ensures forall k :: k in s ==> s[k] == Get(data, k)
  {
    map["meal_name" := Get(data, "meal_name"),
        "exist" := Get(data, "exist"),
        "meal_kind" := Get(data, "meal_kind"),
        "meal_date" := Get(data, "meal_date"),
        "dishes" := Get(data, "dishes")]
  }

  /**
   * meal_step: with a meal name and no `exist` key it asks about `exist`, showing the
   * recipes the search matched (`matches`); otherwise as chore_step, except that only
   * None and "" count as missing.
   */
  method MealStep(t: Table<MealCrud.MealRow>, req: StepRequest, matches: seq<string>) returns (resp: StepResponse)
    requires t.Valid()
    modifies t
    ensures t.Valid()
    ensures var data := Merge(req);
            var asksExist := Truthy(Get(data, "meal_name")) && "exist" !in data;
            var missing := Missing(MealRequired, data, NoneOrBlank);
            (asksExist ==>
               resp == Collecting(if matches != [] then RecipeMatchPrompt(matches) else NoRecipePrompt,
                                  ["exist"], data, Some(matches))) &&
            (!asksExist && missing != [] ==> resp == Collecting(MealPrompt(missing[0]), missing, data, None)) &&
            (!asksExist && missing == [] && !req.confirm ==> resp == Confirming(MealSummary(data), MealConfirmPrompt)) &&
            (!asksExist && missing == [] && req.confirm && MealCrud.FromFields(data).Err? ==>
               resp == Failed(MealCrud.FromFields(data).error)) &&
            (!asksExist && missing == [] && req.confirm && MealCrud.FromFields(data).Ok? ==>
               resp.Created? && resp.id !in old(t.rows) &&
               t.rows == old(t.rows)[resp.id := MealCrud.ToRow(MealCrud.FromFields(data).value)])
    ensures !resp.Created? ==> t.rows == old(t.rows)
  {
    var data := Merge(req);
    if Truthy(Get(data, "meal_name")) && "exist" !in data {
      var prompt := if matches != [] then RecipeMatchPrompt(matches) else NoRecipePrompt;
      return Collecting(prompt, ["exist"], data, Some(matches));
    }
    var missing := Missing(MealRequired, data, NoneOrBlank);
    if missing != [] {
      return Collecting(MealPrompt(missing[0]), missing, data, None);
    }
    if !req.confirm {
      return Confirming(MealSummary(data), MealConfirmPrompt);
    }
    match MealCrud.FromFields(data)
    case Err(e) =>
      return Failed(e);
    case Ok(m) =>
      var id, _ := MealCrud.CreateMeal(t, m);
      return Created("Meal created successfully!", id);
  }

  /** A meal is written only with every required field supplied, `exist` present and the confirm flag set. */
  method MealWriteNeedsConfirm(t: Table<MealCrud.MealRow>, req: StepRequest, matches: seq<string>)
    returns (resp: StepResponse)
    requires t.Valid()
    modifies t
    ensures t.rows != old(t.rows) ==>
              req.confirm && "exist" in Merge(req) && Missing(MealRequired, Merge(req), NoneOrBlank) == []
  {
    resp := MealStep(t, req, matches);
  }
}
