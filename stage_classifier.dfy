/**
 * The stage classifier of backend/agents/stage_classifier.py. The classifier agent is an
 * oracle: its answer is a parameter, `None` when the call raised. A strong success phrase
 * in the reply decides "created" before the agent is consulted; otherwise the agent's
 * trimmed, lower-cased answer is kept when it names one of four stages and becomes
 * "unknown" otherwise; when the agent raised, four keyword lists are tried in order.
 */
module StageClassifier {
  import opened Wrappers
  import opened Text
  import opened StageKeywords

  /** Phrases that decide "created" without consulting the agent. */
  const OverridePhrases: seq<string> :=
    ["successfully created", "has been created", "has been successfully", "added", "created", "was created",
     "has been added"]

  /** The heuristic used when the agent raised, in the order it is tried. */
  const FallbackRules: Rules := [
    (CollectingInfo, ["what would you like", "please provide", "could you", "need", "missing", "specify",
                      "details", "information"]),
    (ConfirmingInfo, ["confirm", "summary", "does this look", "type 'done'", "edit"]),
    (Created, ["created", "success", "added", "complete", "done", "has been added", "successfully added",
               "added as a", "has been successfully"]),
    (Error, ["error", "not found", "invalid"])
  ]

  /** The five tags the classifier can return. */
  predicate IsClassifierStage(s: Stage) {
    s == CollectingInfo || s == ConfirmingInfo || s == Created || s == Error || s == Unknown
  }

  predicate HasOverride(reply: string) {
    ContainsAny(Lower(reply), OverridePhrases)
  }

  /** The agent's answer, trimmed and lower-cased; anything outside the four stages is unknown. */
  function NormalizeAnswer(answer: string): (s: Stage)
    ensures IsClassifierStage(s)
    ensures s != Unknown <==> Lower(Strip(answer)) in {"collecting_info", "confirming_info", "created", "error"}
    ensures s != Unknown ==> s.Tag() == Lower(Strip(answer))
  {
    var t := Lower(Strip(answer));
    if t == "collecting_info" then CollectingInfo
    else if t == "confirming_info" then ConfirmingInfo
    else if t == "created" then Created
    else if t == "error" then Error
    else Unknown
  }

  /** The keyword heuristic used when the agent raised. */
  function Fallback(reply: string): (s: Stage)
    ensures IsClassifierStage(s)
    ensures s == Unknown <==> forall i :: 0 <= i < |FallbackRules| ==> !ContainsAny(Lower(reply), FallbackRules[i].1)
  {
    match FirstMatch(Lower(reply), FallbackRules)
    case Some(s) => s
    case None => Unknown
  }

  /** classify_stage_llm, with the agent's answer (`None`: the agent raised) as a parameter. */
  function ClassifyStage(reply: string, answer: Option<string>): (s: Stage)
    ensures IsClassifierStage(s)
    ensures HasOverride(reply) ==> s == Created
    ensures !HasOverride(reply) && answer.Some? ==> s == NormalizeAnswer(answer.value)
    ensures !HasOverride(reply) && answer.None? ==> s == Fallback(reply)
  {
    if HasOverride(reply) then Created
    else match answer
      case Some(a) => NormalizeAnswer(a)
      case None => Fallback(reply)
  }

  /** classify_stage_llm_async: the same override, normalisation and fallback, without the memo. */
  function ClassifyStageAsync(reply: string, answer: Option<string>): (s: Stage)
    ensures IsClassifierStage(s)
  {
    if HasOverride(reply) then Created
    else if answer.Some? then NormalizeAnswer(answer.value)
    else Fallback(reply)
  }

  lemma AsyncAgreesWithSync(reply: string, answer: Option<string>)
    ensures ClassifyStageAsync(reply, answer) == ClassifyStage(reply, answer)
  {
  }

  /** With a strong success phrase the agent's answer, or its failure, does not matter. */
  lemma OverrideIgnoresAgent(reply: string, a1: Option<string>, a2: Option<string>)
    requires HasOverride(reply)
    ensures ClassifyStage(reply, a1) == ClassifyStage(reply, a2) == Created
  {
  }

  /** The override list is the head of the created keyword list, so it never disagrees with it. */
  lemma OverridePhrasesAreCreatedKeywords()
    ensures OverridePhrases == CreatedKeywords[..7]
  {
  }

  /** Every override phrase decides created in the priority table too, unless an error phrase comes first. */
  lemma OverrideAgreesWithTable(reply: string)
    requires HasOverride(reply) && !ContainsAny(Lower(reply), ErrorKeywords)
    ensures KeywordStage(reply) == Some(Created)
  {
    var k :| 0 <= k < |OverridePhrases| && Contains(Lower(reply), OverridePhrases[k]);
    OverridePhrasesAreCreatedKeywords();
    assert CreatedKeywords[k] == OverridePhrases[k];
    FirstMatchAt(Lower(reply), Priority, 1);
  }

  /** An answer naming one of the four stages, in any case and with surrounding blanks, is kept. */
  lemma NormalizeAnswerKeepsStage(s: Stage, left: string, right: string)
    requires s == CollectingInfo || s == ConfirmingInfo || s == Created || s == Error
    requires AllSpace(left) && AllSpace(right)
    ensures NormalizeAnswer(left + s.Tag() + right) == s
  {
    var t := s.Tag();
    assert IsLower(t) && !IsSpace(t[0]) && !IsSpace(t[|t| - 1]) by {
      match s
      case CollectingInfo =>
      case ConfirmingInfo =>
      case Created =>
      case Error =>
    }
    StripOfPadding(left, t, right);
    LowerOfLower(t);
    NormalizeTag(s, left + t + right);
  }

  /** An answer that trims and lower-cases to one of the four tags gives that stage. */
  lemma NormalizeTag(s: Stage, answer: string)
    requires s == CollectingInfo || s == ConfirmingInfo || s == Created || s == Error
    requires Lower(Strip(answer)) == s.Tag()
    ensures NormalizeAnswer(answer) == s
  {
    var t := s.Tag();
    match s
    case CollectingInfo =>
    case ConfirmingInfo =>
      assert t[2] != "collecting_info"[2];
    case Created =>
      assert |t| != |"collecting_info"| && |t| != |"confirming_info"|;
    case Error =>
      assert |t| != |"collecting_info"| && |t| != |"confirming_info"| && |t| != |"created"|;
  }

  /** At most `size` entries, each holding a classifier stage, no reply remembered twice. */
  ghost predicate MemoEntries(es: seq<(string, Stage)>, size: nat) {
    |es| <= size &&
    (forall i :: 0 <= i < |es| ==> IsClassifierStage(es[i].1)) &&
    forall i, j :: 0 <= i < j < |es| ==> es[i].0 != es[j].0
  }

  /** Moving a remembered entry to the most recent place keeps the memo well formed. */
  lemma MoveToBackKeepsEntries(es: seq<(string, Stage)>, size: nat, i: nat)
    requires MemoEntries(es, size) && i < |es|
    ensures MemoEntries(es[..i] + es[i + 1..] + [es[i]], size)
  {
    var rest := es[..i] + es[i + 1..];
    forall a | 0 <= a < |rest|
      ensures rest[a] == es[if a < i then a else a + 1]
    {
    }
  }

  /** Appending a new reply, after evicting the oldest entry when full, keeps the memo well formed. */
  lemma AppendKeepsEntries(es: seq<(string, Stage)>, size: nat, reply: string, stage: Stage)
    requires MemoEntries(es, size) && size > 0 && IsClassifierStage(stage)
    requires forall i :: 0 <= i < |es| ==> es[i].0 != reply
    ensures MemoEntries((if |es| == size then es[1..] else es) + [(reply, stage)], size)
  {
    var kept := if |es| == size then es[1..] else es;
    assert forall a :: 0 <= a < |kept| ==> kept[a] == es[if |es| == size then a + 1 else a];
  }

  /** classify_stage_llm's lru_cache(maxsize=128): entries are kept least recently used first. */
  class StageMemo {
    var entries: seq<(string, Stage)>

    const MaxSize: nat := 128

    ghost predicate Valid()
      reads this
    {
      MemoEntries(entries, MaxSize)
    }

    constructor ()
      ensures Valid() && entries == []
    {
      entries := [];
    }

    /** The position of `reply` among the cached entries, or -1. */
    method Find(reply: string) returns (idx: int)
      ensures -1 <= idx < |entries|
      ensures idx == -1 <==> forall i :: 0 <= i < |entries| ==> entries[i].0 != reply
      ensures idx >= 0 ==> entries[idx].0 == reply
    {
      idx := 0;
      while idx < |entries|
        invariant 0 <= idx <= |entries|
        invariant forall i :: 0 <= i < idx ==> entries[i].0 != reply
      {
        if entries[idx].0 == reply {
          return;
        }
        idx := idx + 1;
      }
      idx := -1;
    }

    /**
     * A cached reply returns its cached stage without consulting the agent; otherwise the
     * stage is classified and cached, evicting the least recently used entry when full.
     * Either way the reply becomes the most recently used entry.
     */
    method Classify(reply: string, answer: Option<string>) returns (stage: Stage)
      requires Valid()
      modifies this
      ensures Valid()
      ensures IsClassifierStage(stage)
      ensures forall i :: 0 <= i < |old(entries)| && old(entries)[i].0 == reply ==> stage == old(entries)[i].1
      ensures (forall i :: 0 <= i < |old(entries)| ==> old(entries)[i].0 != reply) ==>
                stage == ClassifyStage(reply, answer)
      ensures forall i :: 0 <= i < |old(entries)| && old(entries)[i].0 == reply ==>
                entries == old(entries)[..i] + old(entries)[i + 1..] + [(reply, stage)]
      ensures (forall i :: 0 <= i < |old(entries)| ==> old(entries)[i].0 != reply) ==>
                entries == (if |old(entries)| == MaxSize then old(entries)[1..] else old(entries)) + [(reply, stage)]
      ensures |entries| > 0 && entries[|entries| - 1] == (reply, stage)
    {
      var idx := Find(reply);
      if idx >= 0 {
        stage := entries[idx].1;
        MoveToBackKeepsEntries(entries, MaxSize, idx);
        entries := entries[..idx] + entries[idx + 1..] + [(reply, stage)];
      } else {
        stage := ClassifyStage(reply, answer);
        AppendKeepsEntries(entries, MaxSize, reply, stage);
        var kept := if |entries| == MaxSize then entries[1..] else entries;
        entries := kept + [(reply, stage)];
      }
    }
  }

  /** Classifying the same reply twice gives the same stage, whatever the agent says the second time. */
  method ClassifyTwice(memo: StageMemo, reply: string, a1: Option<string>, a2: Option<string>)
    returns (first: Stage, second: Stage)
    requires memo.Valid()
    modifies memo
    ensures memo.Valid()
    ensures first == second
  {
    first := memo.Classify(reply, a1);
    second := memo.Classify(reply, a2);
  }
}
