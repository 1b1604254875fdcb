/**
 * Conversation stage tags and the keyword priority table of
 * backend/agents/stage_keywords.py, with the first-match lookup its header describes:
 * entries are tried in order and the first whose keyword list has a phrase contained
 * in the lower-cased reply decides the stage. Matching is substring containment, not
 * whole-word matching.
 */
module StageKeywords {
  import opened Wrappers
  import opened Text

  datatype Stage =
    | CollectingInfo
    | ConfirmingInfo
    | ConfirmingRemoval
    | Created
    | Error
    | Greeting
    | OperationCanceled
    | Unknown
  {
    /** The tag as the repository spells it. */
    function Tag(): string {
      match this
      case CollectingInfo => "collecting_info"
      case ConfirmingInfo => "confirming_info"
      case ConfirmingRemoval => "confirming_removal"
      case Created => "created"
      case Error => "error"
      case Greeting => "greeting"
      case OperationCanceled => "operation_canceled"
      case Unknown => "unknown"
    }
  }

  type Rules = seq<(Stage, seq<string>)>

  const ErrorKeywords: seq<string> :=
    ["error", "not found", "invalid", "failed", "unable to", "could not", "exception", "problem", "issue", "sorry"]

  /** Success phrases for additions. */
  const CreatedAddKeywords: seq<string> :=
    ["successfully created", "has been created", "has been successfully", "added", "created", "was created",
     "has been added", "complete", "done", "has been added", "successfully added", "added as a",
     "has been successfully", "planning complete", "member added", "chore created", "meal created",
     "recipe created", "i've added", "i have added"]

  /** Success phrases for removals, deletions and updates. */
  const CreatedChangeKeywords: seq<string> :=
    ["successfully removed", "has been removed", "removed", "deleted", "has been deleted", "successfully deleted",
     "has been updated", "successfully updated", "was deleted", "was removed", "was updated"]

  const CreatedKeywords: seq<string> := CreatedAddKeywords + CreatedChangeKeywords

  const GreetingKeywords: seq<string> :=
    ["how can i assist", "how can i help", "how may i assist", "how may i help", "what can i do for you",
     "hello", "hi", "hey"]

  const ConfirmingRemovalKeywords: seq<string> :=
    ["are you sure", "cannot be undone", "confirm removal", "confirm deletion", "please confirm deletion",
     "please confirm removal", "warning", "danger", "confirm destructive", "confirm delete", "confirm remove"]

  const OperationCanceledKeywords: seq<string> :=
    ["cancelled", "canceled", "not deleted", "not removed", "action canceled", "operation canceled"]

  const ConfirmingInfoKeywords: seq<string> :=
    ["summary", "confirm", "does this look", "type 'done'", "type **done**", "edit", "if everything looks good",
     "if all looks good", "please confirm", "confirm or edit", "update complete", "if everything looks good, type",
     "if all looks good, type"]

  const CollectingInfoKeywords: seq<string> :=
    ["what would you like", "please provide", "could you", "missing", "specify", "let's create", "let's add",
     "what is their name", "what should we call", "who should do this chore", "when should this chore start",
     "how often should this chore repeat", "what would you like to call this meal",
     "is this meal already in the recipe database", "what kind of meal is this",
     "when do you want to have this meal", "what dishes are included in this meal",
     "what is the name of the recipe", "what kind of recipe is this"]

  /** STAGE_KEYWORDS_PRIORITY: seven entries, earlier entries first. */
  const Priority: Rules := [
    (Error, ErrorKeywords),
    (Created, CreatedKeywords),
    (Greeting, GreetingKeywords),
    (ConfirmingRemoval, ConfirmingRemovalKeywords),
    (OperationCanceled, OperationCanceledKeywords),
    (ConfirmingInfo, ConfirmingInfoKeywords),
    (CollectingInfo, CollectingInfoKeywords)
  ]

  /**
   * The stage of the first rule with a keyword contained in `text`, or nothing. Every
   * rule before the winning one has no keyword in the text.
   */
  function FirstMatch(text: string, rules: Rules): (r: Option<Stage>)
    ensures r.None? <==> forall i :: 0 <= i < |rules| ==> !ContainsAny(text, rules[i].1)
    ensures r.Some? ==> exists i :: 0 <= i < |rules| && rules[i].0 == r.value && ContainsAny(text, rules[i].1)
                                    && forall j :: 0 <= j < i ==> !ContainsAny(text, rules[j].1)
  {
    if rules == [] then None
    else if ContainsAny(text, rules[0].1) then Some(rules[0].0)
    else
      var r := FirstMatch(text, rules[1..]);
      assert forall i :: 1 <= i < |rules| ==> rules[i] == rules[1..][i - 1];
      r
  }

  /** The rule at position `i` wins when it matches and no earlier rule does. */
  lemma {:induction false} FirstMatchAt(text: string, rules: Rules, i: nat)
    requires i < |rules| && ContainsAny(text, rules[i].1)
    requires forall j :: 0 <= j < i ==> !ContainsAny(text, rules[j].1)
    ensures FirstMatch(text, rules) == Some(rules[i].0)
  {
    if i > 0 {
      FirstMatchAt(text, rules[1..], i - 1);
    }
  }

  /** The lookup over the priority table, on the lower-cased reply. */
  function KeywordStage(reply: string): Option<Stage> {
    FirstMatch(Lower(reply), Priority)
  }

  lemma PriorityShape()
    ensures |Priority| == 7
    ensures Priority[0].0 == Error && Priority[1].0 == Created && Priority[2].0 == Greeting
    ensures Priority[3].0 == ConfirmingRemoval && Priority[4].0 == OperationCanceled
    ensures Priority[5].0 == ConfirmingInfo && Priority[6].0 == CollectingInfo
    ensures forall i, j :: 0 <= i < j < |Priority| ==> Priority[i].0 != Priority[j].0
  {
  }

  /** The keyword list of each rule of the table. */
  lemma PriorityKeywords()
    ensures Priority[0].1 == ErrorKeywords && Priority[1].1 == CreatedKeywords
    ensures Priority[2].1 == GreetingKeywords && Priority[3].1 == ConfirmingRemovalKeywords
  {
  }

  /** Where the change phrases sit in the success list. */
  lemma ChangeKeywordPositions()
    ensures CreatedKeywords[22] == "removed" && CreatedKeywords[23] == "deleted"
    ensures CreatedKeywords[26] == "has been updated"
  {
    assert |CreatedAddKeywords| == 20;
    assert CreatedKeywords[22] == CreatedChangeKeywords[2];
    assert CreatedKeywords[23] == CreatedChangeKeywords[3];
    assert CreatedKeywords[26] == CreatedChangeKeywords[6];
  }

  /** Whatever occurs in a lower-cased reply is itself lower-case. */
  lemma MatchedKeywordIsLower(reply: string, kw: string)
    requires Contains(Lower(reply), kw)
    ensures IsLower(kw)
  {
    var i := ContainsWindow(Lower(reply), kw);
    forall j | 0 <= j < |kw|
      ensures !('A' <= kw[j] <= 'Z')
    {
      assert kw[j] == Lower(reply)[i + j];
    }
  }

  /** The lookup ignores ASCII case. */
  lemma KeywordStageIgnoresCase(reply: string)
    ensures KeywordStage(Lower(reply)) == KeywordStage(reply)
  {
    LowerIdempotent(reply);
  }

  /** A reply with any error phrase is an error, whatever success phrase it also holds. */
  lemma ErrorOutranksCreated(reply: string, k: nat)
    requires k < |ErrorKeywords| && Contains(Lower(reply), ErrorKeywords[k])
    ensures KeywordStage(reply) == Some(Error)
  {
    FirstMatchAt(Lower(reply), Priority, 0);
  }

  /** "sorry" and "not found" outrank "removed" and "created" in the same reply. */
  lemma SorryNotFoundIsError(reply: string)
    requires Contains(Lower(reply), "sorry") || Contains(Lower(reply), "not found")
    ensures KeywordStage(reply) == Some(Error)
  {
    if Contains(Lower(reply), "sorry") {
      ErrorOutranksCreated(reply, 9);
    } else {
      ErrorOutranksCreated(reply, 1);
    }
  }

  /** A reply with "not found" written in lower case somewhere is classed as an error. */
  lemma NotFoundWindowIsError(reply: string, i: nat)
    requires i + 9 <= |reply| && reply[i..i + 9] == "not found"
    ensures KeywordStage(reply) == Some(Error)
  {
    var w := "not found";
    assert Lower(w) == w by {
      assert IsLower(w);
      LowerOfLower(w);
    }
    ContainsLowered(reply, i, w);
    SorryNotFoundIsError(reply);
  }

  /** Removal, deletion and update confirmations are classed as created. */
  lemma RemovalPhrasesAreCreated(reply: string)
    requires Contains(Lower(reply), "removed") || Contains(Lower(reply), "deleted")
          || Contains(Lower(reply), "has been updated")
    requires !ContainsAny(Lower(reply), ErrorKeywords)
    ensures KeywordStage(reply) == Some(Created)
  {
    var t := Lower(reply);
    ChangeKeywordPositions();
    var k := if Contains(t, "removed") then 22 else if Contains(t, "deleted") then 23 else 26;
    assert Contains(t, CreatedKeywords[k]);
    PriorityKeywords();
    FirstMatchAt(t, Priority, 1);
  }

  /**
   * "are you sure" and "cannot be undone" decide confirming_removal before the
   * "confirm" and "summary" of confirming_info are looked at.
   */
  lemma RemovalOutranksConfirmingInfo(reply: string)
    requires Contains(Lower(reply), "are you sure") || Contains(Lower(reply), "cannot be undone")
    requires !ContainsAny(Lower(reply), ErrorKeywords) && !ContainsAny(Lower(reply), CreatedKeywords)
    requires !ContainsAny(Lower(reply), GreetingKeywords)
    ensures KeywordStage(reply) == Some(ConfirmingRemoval)
  {
    var t := Lower(reply);
    assert ConfirmingRemovalKeywords[0] == "are you sure";
    assert ConfirmingRemovalKeywords[1] == "cannot be undone";
    var k := if Contains(t, "are you sure") then 0 else 1;
    assert Contains(t, ConfirmingRemovalKeywords[k]);
    PriorityKeywords();
    FirstMatchAt(t, Priority, 3);
  }

  /**
   * Matching is by substring: a reply whose only keyword hit is "hi" inside another
   * word (as in "this" or "which") is a greeting.
   */
  lemma HiInsideWordIsGreeting(reply: string)
    requires Contains(Lower(reply), "hi")
    requires !ContainsAny(Lower(reply), ErrorKeywords) && !ContainsAny(Lower(reply), CreatedKeywords)
    ensures KeywordStage(reply) == Some(Greeting)
  {
    assert GreetingKeywords[6] == "hi";
    FirstMatchAt(Lower(reply), Priority, 2);
  }
}
