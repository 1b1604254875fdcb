/**
 * The browser client of the creation flows (frontend/app.js): it keeps the mode, the
 * last stage and the data gathered so far, posts them with the user's input to the
 * step endpoint of its mode, and folds the server's answer back into its state. The
 * field an answer belongs to is guessed from keywords in the prompt. The DOM is not
 * modelled: a prompt and a typed value are parameters.
 */
module Frontend {
  import opened Wrappers
  import opened Text
  import opened Values
  import opened StepFlow

  datatype Mode = ChoreMode | MealMode

  /** The body the client posts, with the endpoint it posts it to. */
  datatype Payload = Payload(endpoint: string, currentData: Dict, userInput: Option<Dict>, confirm: bool)

  /** `mode === 'chore' ? '/chore/step' : '/meal/step'`: no mode posts to the meal endpoint. */
  function Endpoint(mode: Option<Mode>): (e: string)
    ensures e == "/chore/step" <==> mode == Some(ChoreMode)
  {
    if mode == Some(ChoreMode) then "/chore/step" else "/meal/step"
  }

  /** The request the server reads from a payload: a missing `confirm` is false. */
  function RequestOf(p: Payload): StepRequest {
    StepRequest(p.currentData, p.userInput, p.confirm)
  }

  /** The `stage` text of each kind of step response. */
  function StageText(resp: StepResponse): string {
    match resp
    case Collecting(_, _, _, _) => "collecting_info"
    case Confirming(_, _) => "confirming_info"
    case Created(_, _) => "created"
    case Failed(_) => "error"
  }

  /**
   * The field a prompt is taken to ask for: the first of name, member, start, repeat,
   * kind, date and exist found in the lower-cased prompt decides; name and date depend
   * on the mode, and no keyword gives no field.
   */
  function GuessField(prompt: string, mode: Option<Mode>): (f: Option<string>)
    ensures Contains(Lower(prompt), "name") ==> f == Some(if mode == Some(ChoreMode) then "chore_name" else "meal_name")
  {
    var p := Lower(prompt);
    if Contains(p, "name") then Some(if mode == Some(ChoreMode) then "chore_name" else "meal_name")
    else if Contains(p, "member") then Some("assigned_members")
    else if Contains(p, "start") then Some("start_date")
    else if Contains(p, "repeat") then Some("repetition")
    else if Contains(p, "kind") then Some("meal_kind")
    else if Contains(p, "date") then Some(if mode == Some(ChoreMode) then "start_date" else "meal_date")
    else if Contains(p, "exist") then Some("exist")
    else None
  }

  /** The keywords GuessField tries, in order. */
  const GuessKeywords: seq<string> := ["name", "member", "start", "repeat", "kind", "date", "exist"]

  /** A prompt is taken to ask for no field exactly when it holds none of the keywords. */
  lemma GuessNothing(prompt: string, mode: Option<Mode>)
    ensures GuessField(prompt, mode).None? <==> !ContainsAny(Lower(prompt), GuessKeywords)
  {
    assert GuessKeywords[0] == "name" && GuessKeywords[1] == "member" && GuessKeywords[2] == "start";
    assert GuessKeywords[3] == "repeat" && GuessKeywords[4] == "kind" && GuessKeywords[5] == "date";
    assert GuessKeywords[6] == "exist";
  }

  /** `s.trim()` for every piece. */
  function TrimAll(parts: seq<string>): (r: seq<string>)
    ensures |r| == |parts| && forall k :: 0 <= k < |parts| ==> r[k] == Strip(parts[k])
  {
    seq(|parts|, k requires 0 <= k < |parts| => Strip(parts[k]))
  }

  /** A yes-like answer: the trimmed, lower-cased input is "true", "yes" or "y". */
  predicate IsYes(val: string) {
    Lower(Strip(val)) in {"true", "yes", "y"}
  }

  /**
   * The input object for a typed value: member names split on commas and trimmed, a
   * yes-like answer for `exist`, the text itself otherwise. With no field the value
   * lands under the key "null", as JavaScript turns a null property name into text.
   */
  function ConvertInput(field: Option<string>, val: string): (u: Dict)
    ensures u.Keys == {if field.Some? then field.value else "null"}
    ensures field == Some("assigned_members") ==> u["assigned_members"] == VList(TrimAll(Split(val, ',')))
    ensures field == Some("exist") ==> u["exist"] == VBool(IsYes(val))
    ensures field != Some("assigned_members") && field != Some("exist") ==>
              u[if field.Some? then field.value else "null"] == VStr(val)
  {
    var key := if field.Some? then field.value else "null";
    if field == Some("assigned_members") then map[key := VList(TrimAll(Split(val, ',')))]
    else if field == Some("exist") then map[key := VBool(IsYes(val))]
    else map[key := VStr(val)]
  }

  /** The client's state: module-level `mode`, `stage` and `currentData`. */
  class FlowUI {
    var mode: Option<Mode>
    var stage: Option<string>
    var currentData: Dict

    /** The page as loaded: no mode, no stage, no data. */
    constructor ()
      ensures mode.None? && stage.None? && currentData == map[]
    {
      mode := None;
      stage := None;
      currentData := map[];
    }

    /** The body `step(userInput, confirm)` posts: the data so far, the input only when given, confirm only when set. */
    function PayloadOf(userInput: Option<Dict>, confirm: bool): Payload
      reads this
    {
      Payload(Endpoint(mode), currentData, userInput, confirm)
    }

    /**
     * `startFlow(mode)`: the mode is set, the stage and the data are reset, and the first
     * request carries no input and no confirmation.
     */
    method StartFlow(m: Mode) returns (p: Payload)
      modifies this
      ensures mode == Some(m) && stage.None? && currentData == map[]
      ensures p == Payload(Endpoint(Some(m)), map[], None, false)
    {
      mode := Some(m);
      stage := None;
      currentData := map[];
      p := PayloadOf(None, false);
    }

    /**
     * The state update in `step` once the answer arrives: the stage is the answer's;
     * collecting replaces the data by the server's, confirming merges the summary over
     * it, and the other answers leave it.
     */
    method ApplyResponse(resp: StepResponse)
      modifies this
      ensures mode == old(mode) && stage == Some(StageText(resp))
      ensures resp.Collecting? ==> currentData == resp.currentData
      ensures resp.Confirming? ==> currentData == old(currentData) + resp.summary
      ensures !resp.Collecting? && !resp.Confirming? ==> currentData == old(currentData)
    {
      stage := Some(StageText(resp));
      match resp
      case Collecting(_, _, data, _) =>
        currentData := data;
      case Confirming(summary, _) =>
        currentData := currentData + summary;
      case _ =>
    }

    /**
     * The Next button: an empty value sends nothing; otherwise the value is converted for
     * the field guessed from the prompt and posted without confirmation.
     */
    method Submit(prompt: string, val: string) returns (p: Option<Payload>)
      ensures val == "" <==> p.None?
      ensures p.Some? ==> p.value == Payload(Endpoint(mode), currentData,
                                            Some(ConvertInput(GuessField(prompt, mode), val)), false)
    {
      if val == "" {
        return None;
      }
      var field := GuessField(prompt, mode);
      p := Some(PayloadOf(Some(ConvertInput(field, val)), false));
    }

    /** The Done button: the data so far, posted with the confirmation set. */
    method Done() returns (p: Payload)
      ensures p == Payload(Endpoint(mode), currentData, None, true)
    {
      p := PayloadOf(None, true);
    }
  }

  /**
   * After a chore summary, the data the client holds (its old data with the summary
   * merged over it) still has every required field, so pressing Done reaches the write.
   */
  lemma ChoreConfirmationKeepsFields(held: Dict, data: Dict)
    requires Missing(ChoreRequired, data, Falsy) == []
    ensures Missing(ChoreRequired, held + ChoreSummary(data), Falsy) == []
  {
    var merged := held + ChoreSummary(data);
    MissingMembers(ChoreRequired, data, Falsy);
    forall f | f in ChoreRequired
      ensures !IsMissing(Get(merged, f), Falsy)
    {
      assert Get(merged, f) == Get(data, f);
    }
    MissingNone(ChoreRequired, merged, Falsy);
  }

  /** The same for a meal: the summary also carries `exist`, so the recipe question is not asked again. */
  lemma MealConfirmationKeepsFields(held: Dict, data: Dict)
    requires "exist" in data && Missing(MealRequired, data, NoneOrBlank) == []
    ensures "exist" in held + MealSummary(data)
    ensures Missing(MealRequired, held + MealSummary(data), NoneOrBlank) == []
  {
    var merged := held + MealSummary(data);
    MissingMembers(MealRequired, data, NoneOrBlank);
    forall f | f in MealRequired
      ensures !IsMissing(Get(merged, f), NoneOrBlank)
    {
      assert Get(merged, f) == Get(data, f);
    }
    MissingNone(MealRequired, merged, NoneOrBlank);
  }

  /** As written, the prompt for the chore's members is taken to ask for the chore's name. */
  lemma MembersPromptGuessedAsName()
    ensures GuessField(ChorePrompt("assigned_members"), Some(ChoreMode)) == Some("chore_name")
  {
    var p := ChorePrompt("assigned_members");
    assert p[48..52] == "name";
    ContainsLowered(p, 48, "name");
  }

  /**
   * The field the server asked for: the first of the missing fields it returns with
   * every collecting answer, whose prompt is the one shown.
   */
  function AskedField(resp: StepResponse): Option<string> {
    if resp.Collecting? && resp.missingFields != [] then Some(resp.missingFields[0]) else None
  }

  /**
   * Answering a chore question with a non-empty value under the field the server asked
   * for fills that field: the server's next list of missing fields is the rest of the list.
   */
  lemma ChoreAnswerToAskedField(data: Dict, val: string)
    requires Missing(ChoreRequired, data, Falsy) != [] && val != ""
    ensures var f := Missing(ChoreRequired, data, Falsy)[0];
            var input := ConvertInput(Some(f), val);
            Missing(ChoreRequired, data + input, Falsy) == Missing(ChoreRequired, data, Falsy)[1..]
  {
    var missing := Missing(ChoreRequired, data, Falsy);
    var f := missing[0];
    var input := ConvertInput(Some(f), val);
    assert f in ChoreRequired by {
      MissingMembers(ChoreRequired, data, Falsy);
    }
    AnswerIsSupplied(f, val);
    assert data + input == data[f := input[f]];
    ChoreRequiredDistinct();
    MissingProgress(ChoreRequired, data, Falsy, input[f]);
  }

  /**
   * An answer to a prompt that holds none of the keywords is sent under "null", which no
   * meal field reads: the missing fields and the pending recipe question stay as they were,
   * so the server asks the same question again.
   */
  lemma UnguessedMealAnswerIsLost(prompt: string, data: Dict, val: string)
    requires !ContainsAny(Lower(prompt), GuessKeywords)
    ensures ConvertInput(GuessField(prompt, Some(MealMode)), val) == map["null" := VStr(val)]
    ensures var merged := data + ConvertInput(GuessField(prompt, Some(MealMode)), val);
            Missing(MealRequired, merged, NoneOrBlank) == Missing(MealRequired, data, NoneOrBlank) &&
            ("exist" in merged <==> "exist" in data)
  {
    GuessNothing(prompt, Some(MealMode));
    assert data + map["null" := VStr(val)] == data["null" := VStr(val)];
    MissingUnaffected(MealRequired, data, NoneOrBlank, "null", VStr(val));
  }

  /** The four required chore fields are distinct. */
  lemma ChoreRequiredDistinct()
    ensures forall i, j :: 0 <= i < j < |ChoreRequired| ==> ChoreRequired[i] != ChoreRequired[j]
  {
    assert ChoreRequired[0][1] == 'h' && ChoreRequired[1][1] == 's';
    assert ChoreRequired[2][1] == 't' && ChoreRequired[3][1] == 'e';
  }

  /** A non-empty answer to a chore question, once converted, is not missing. */
  lemma AnswerIsSupplied(f: string, val: string)
    requires f in ChoreRequired && val != ""
    ensures !IsMissing(ConvertInput(Some(f), val)[f], Falsy)
  {
    var u := ConvertInput(Some(f), val);
    if f == "assigned_members" {
      assert u[f] == VList(TrimAll(Split(val, ',')));
    } else {
      assert f != "exist";
      assert u[f] == VStr(val);
    }
  }
}
