/**
 * The stage-classifier prompt tester of tools/prompt_tester.py: test cases are loaded and,
 * when an extra file is given, merged without repeating a (reply, expected stage) pair;
 * every case is classified and compared with its expectation; and the trial loop re-runs
 * the cases until none fails, the trials run out, or (in auto mode) the prompt update
 * fails. The classifier's agent and the prompt suggester are oracles, and the results
 * file and the console output are not modelled.
 */
module PromptTester {
  import opened Wrappers
  import opened Text
  import opened StageKeywords
  import opened StageClassifier

  /** One entry of the test-case files. */
  datatype TestCase = TestCase(reply: string, expectedStage: string, description: Option<string>)

  /** One entry of the results: what was expected, what the classifier said, and whether they agree. */
  datatype TestResult = TestResult(reply: string, expectedStage: string, gotStage: string, ok: bool, description: string)

  /** The identity of a case for the merge. */
  function Key(c: TestCase): (string, string) {
    (c.reply, c.expectedStage)
  }

  function KeysOf(cs: seq<TestCase>): set<(string, string)> {
    set c | c in cs :: Key(c)
  }

  lemma KeysOfAppend(cs: seq<TestCase>, c: TestCase)
    ensures KeysOf(cs + [c]) == KeysOf(cs) + {Key(c)}
  {
    assert forall x :: x in cs + [c] <==> x in cs || x == c;
  }

  /**
   * The merged list: the cases in order, each kept only when no earlier kept case has
   * its key.
   */
  function Dedup(cs: seq<TestCase>): seq<TestCase>
    decreases |cs|
  {
    if cs == [] then []
    else
      var kept := Dedup(cs[..|cs| - 1]);
      var c := cs[|cs| - 1];
      if Key(c) in KeysOf(kept) then kept else kept + [c]
  }

  /** Merging keeps every key of its input and invents none. */
  lemma {:induction false} DedupKeys(cs: seq<TestCase>)
    ensures KeysOf(Dedup(cs)) == KeysOf(cs)
    decreases |cs|
  {
    if cs != [] {
      var init := cs[..|cs| - 1];
      var c := cs[|cs| - 1];
      assert cs == init + [c];
      DedupKeys(init);
      KeysOfAppend(init, c);
      if Key(c) !in KeysOf(Dedup(init)) {
        KeysOfAppend(Dedup(init), c);
      }
    }
  }

  /** No two merged cases share a (reply, expected stage) pair. */
  lemma {:induction false} DedupUnique(cs: seq<TestCase>)
    ensures forall i, j :: 0 <= i < j < |Dedup(cs)| ==> Key(Dedup(cs)[i]) != Key(Dedup(cs)[j])
    decreases |cs|
  {
    if cs != [] {
      var kept := Dedup(cs[..|cs| - 1]);
      DedupUnique(cs[..|cs| - 1]);
      var c := cs[|cs| - 1];
      if Key(c) !in KeysOf(kept) {
        forall i | 0 <= i < |kept|
          ensures Key(kept[i]) != Key(c)
        {
          assert kept[i] in kept;
        }
      }
    }
  }

  /** The case at `i` is the first with its key. */
  predicate IsFirst(cs: seq<TestCase>, i: nat)
    requires i < |cs|
  {
    forall j :: 0 <= j < i ==> Key(cs[j]) != Key(cs[i])
  }

  /** An independent description of the merge: the first occurrence of every key, in input order. */
  function Firsts(cs: seq<TestCase>, n: nat): seq<TestCase>
    requires n <= |cs|
  {
    if n == 0 then [] else Firsts(cs, n - 1) + (if IsFirst(cs, n - 1) then [cs[n - 1]] else [])
  }

  /** The merge of the first `n` cases keeps exactly the first occurrences among them, in order. */
  lemma {:induction false} DedupIsFirsts(cs: seq<TestCase>, n: nat)
    requires n <= |cs|
    ensures Dedup(cs[..n]) == Firsts(cs, n)
  {
    if n > 0 {
      DedupIsFirsts(cs, n - 1);
      var init := cs[..n - 1];
      assert cs[..n][..n - 1] == init;
      DedupKeys(init);
      var c := cs[n - 1];
      assert Dedup(cs[..n]) == if Key(c) in KeysOf(Dedup(init)) then Dedup(init) else Dedup(init) + [c];
      if IsFirst(cs, n - 1) {
        FirstKeyIsNew(cs, n - 1);
        assert Firsts(cs, n) == Firsts(cs, n - 1) + [c];
      } else {
        assert Key(c) in KeysOf(init) by {
          var j :| 0 <= j < n - 1 && Key(cs[j]) == Key(cs[n - 1]);
          assert cs[j] in init;
        }
        assert Firsts(cs, n) == Firsts(cs, n - 1) + [];
      }
    }
  }

  /** The base cases' merge is a prefix of the whole merge: base cases come first. */
  lemma {:induction false} DedupPrefix(base: seq<TestCase>, extra: seq<TestCase>)
    ensures Dedup(base) <= Dedup(base + extra)
    decreases |extra|
  {
    if extra == [] {
      assert base + extra == base;
    } else {
      var init := extra[..|extra| - 1];
      DedupPrefix(base, init);
      assert (base + extra)[..|base + extra| - 1] == base + init;
    }
  }

  /** A list whose keys are already distinct is left as it is. */
  lemma {:induction false} DedupOfUnique(cs: seq<TestCase>)
    requires forall i, j :: 0 <= i < j < |cs| ==> Key(cs[i]) != Key(cs[j])
    ensures Dedup(cs) == cs
    decreases |cs|
  {
    if cs != [] {
      var init := cs[..|cs| - 1];
      var c := cs[|cs| - 1];
      DedupOfUnique(init);
      assert IsFirst(cs, |cs| - 1);
      FirstKeyIsNew(cs, |cs| - 1);
      assert Dedup(cs) == init + [c];
      assert init + [c] == cs;
    }
  }

  /** The key of a first occurrence is not among the keys before it. */
  lemma FirstKeyIsNew(cs: seq<TestCase>, n: nat)
    requires n < |cs| && IsFirst(cs, n)
    ensures Key(cs[n]) !in KeysOf(cs[..n])
  {
    var init := cs[..n];
    forall d | d in init
      ensures Key(d) != Key(cs[n])
    {
      var j :| 0 <= j < |init| && init[j] == d;
      assert Key(cs[j]) != Key(cs[n]);
    }
  }

  /** The cases `load_test_cases` returns: the base list as it is, or the merge of base and extra. */
  function TestCasesOf(base: seq<TestCase>, extra: Option<seq<TestCase>>): seq<TestCase> {
    if extra.Some? then Dedup(base + extra.value) else base
  }

  /** `load_test_cases`, with the parsed files as parameters; `None` when no extra path is given. */
  method LoadTestCases(base: seq<TestCase>, extra: Option<seq<TestCase>>) returns (cases: seq<TestCase>)
    ensures cases == TestCasesOf(base, extra)
  {
    if extra.None? {
      return base;
    }
    var all := base + extra.value;
    var seen: set<(string, string)> := {};
    cases := [];
    for i := 0 to |all|
      invariant cases == Dedup(all[..i])
      invariant seen == KeysOf(cases)
    {
      assert all[..i + 1][..i] == all[..i];
      var c := all[i];
      if Key(c) !in seen {
        KeysOfAppend(cases, c);
        cases := cases + [c];
        seen := seen + {Key(c)};
      }
    }
    assert all[..|all|] == all;
  }

  /** Without an extra file duplicates stay; an extra file, even an empty one, removes them from the base too. */
  lemma ExtraFileMergesBase(c: TestCase)
    ensures TestCasesOf([c, c], None) == [c, c]
    ensures TestCasesOf([c, c], Some([])) == [c]
  {
    var cs := [c, c] + [];
    assert cs[..1] == [c];
    assert [c][..0] == [];
    assert Dedup([c]) == [c];
    assert Key(c) in KeysOf([c]);
    assert Dedup(cs) == [c];
  }

  /** The five tags the classifier returns. */
  predicate ClassifierTag(t: string) {
    t in {"collecting_info", "confirming_info", "created", "error", "unknown"}
  }

  lemma ClassifierStageTag(s: Stage)
    requires IsClassifierStage(s)
    ensures ClassifierTag(s.Tag())
  {
  }

  /** The description of the case at position `i`: its own, or "Case" with its 1-based number. */
  function DescriptionOf(c: TestCase, i: nat): string {
    if c.description.Some? then c.description.value else "Case " + NatToString(i + 1)
  }

  /** The result recorded for case `c` at position `i`. */
  predicate Reports(r: TestResult, c: TestCase, i: nat) {
    r.reply == c.reply && r.expectedStage == c.expectedStage && r.description == DescriptionOf(c, i) &&
    ClassifierTag(r.gotStage) && (r.ok <==> r.gotStage == c.expectedStage)
  }

  /** No entry of the memo `entries` is for the reply `x`. */
  ghost predicate Unseen(entries: seq<(string, Stage)>, x: string) {
    forall j :: 0 <= j < |entries| ==> entries[j].0 != x
  }

  /** Dropping the first `n` entries and appending `e` leaves a reply other than `e`'s unseen. */
  lemma AppendUnseen(s: seq<(string, Stage)>, n: nat, e: (string, Stage), x: string)
    requires n <= |s| && Unseen(s, x) && e.0 != x
    ensures Unseen(s[n..] + [e], x)
  {
    var t := s[n..] + [e];
    forall j | 0 <= j < |t| - 1
      ensures t[j].0 != x
    {
      assert t[j] == s[n + j];
    }
  }

  /** Moving the entry at `i` to the back as `e` leaves a reply other than `e`'s unseen. */
  lemma DropOneUnseen(s: seq<(string, Stage)>, i: nat, e: (string, Stage), x: string)
    requires i < |s| && Unseen(s, x) && e.0 != x
    ensures Unseen(s[..i] + s[i + 1..] + [e], x)
  {
    var t := s[..i] + s[i + 1..] + [e];
    forall j | 0 <= j < |t|
      ensures t[j].0 != x
    {
      if j < i {
        assert t[j] == s[j];
      } else if j < |s| - 1 {
        assert t[j] == s[j + 1];
      }
    }
  }

  /**
   * `run_test_case`: the reply is classified through the cached classifier and the case
   * passes exactly when the tag it returns is the expected stage.
   */
  method RunTestCase(memo: StageMemo, reply: string, expected: string, answer: Option<string>) returns (r: TestResult)
    requires memo.Valid()
    modifies memo
    ensures memo.Valid()
    ensures r.reply == reply && r.expectedStage == expected && r.description == ""
    ensures ClassifierTag(r.gotStage) && (r.ok <==> r.gotStage == expected)
    ensures forall i :: 0 <= i < |old(memo.entries)| && old(memo.entries)[i].0 == reply ==>
              r.gotStage == old(memo.entries)[i].1.Tag()
    ensures Unseen(old(memo.entries), reply) ==> r.gotStage == ClassifyStage(reply, answer).Tag()
    ensures forall x :: x != reply && Unseen(old(memo.entries), x) ==> Unseen(memo.entries, x)
  {
    ghost var before := memo.entries;
    var got := memo.Classify(reply, answer);
    if i :| 0 <= i < |before| && before[i].0 == reply {
      forall x | x != reply && Unseen(before, x)
        ensures Unseen(memo.entries, x)
      {
        DropOneUnseen(before, i, (reply, got), x);
      }
    } else {
      var n := if |before| == memo.MaxSize then 1 else 0;
      assert memo.entries == before[n..] + [(reply, got)];
      forall x | x != reply && Unseen(before, x)
        ensures Unseen(memo.entries, x)
      {
        AppendUnseen(before, n, (reply, got), x);
      }
    }
    ClassifierStageTag(got);
    r := TestResult(reply, expected, got.Tag(), got.Tag() == expected, "");
  }

  /** A case expecting a stage the classifier never returns fails whatever the reply. */
  lemma UnreachableStageFails(r: TestResult, c: TestCase, i: nat)
    requires Reports(r, c, i) && !ClassifierTag(c.expectedStage)
    ensures !r.ok
  {
  }

  /** The failure filter of `run_tests`: the results whose ok is false, in order. */
  function Failed(results: seq<TestResult>): (f: seq<TestResult>)
    ensures |f| <= |results|
    ensures forall r {:trigger r in f} :: r in f <==> r in results && !r.ok
    ensures f == [] <==> forall i :: 0 <= i < |results| ==> results[i].ok
  {
    if results == [] then []
    else
      var rest := Failed(results[1..]);
      assert forall i :: 1 <= i < |results| ==> results[i] == results[1..][i - 1];
      if results[0].ok then rest else [results[0]] + rest
  }

  /**
   * The reply of the case at position `i` is in neither the memo `entries` the run
   * starts with nor an earlier case, so the cached classifier has to ask the agent.
   */
  ghost predicate NewReply(entries: seq<(string, Stage)>, cases: seq<TestCase>, i: nat)
    requires i < |cases|
  {
    Unseen(entries, cases[i].reply) &&
    (forall j :: 0 <= j < i ==> cases[j].reply != cases[i].reply)
  }

  /** One case of `run_tests`: the case is run and its result takes the case's description. */
  method RunCase(memo: StageMemo, c: TestCase, i: nat, answer: Option<string>) returns (r: TestResult)
    requires memo.Valid()
    modifies memo
    ensures memo.Valid()
    ensures Reports(r, c, i)
    ensures Unseen(old(memo.entries), c.reply) ==> r.gotStage == ClassifyStage(c.reply, answer).Tag()
    ensures forall x :: x != c.reply && Unseen(old(memo.entries), x) ==> Unseen(memo.entries, x)
  {
    r := RunTestCase(memo, c.reply, c.expectedStage, answer);
    r := r.(description := DescriptionOf(c, i));
  }

  /** Every result in `results` for a case whose reply is new has the classifier's tag for it. */
  ghost predicate FreshTagged(results: seq<TestResult>, cases: seq<TestCase>, entries: seq<(string, Stage)>,
                              agent: nat -> Option<string>)
    requires |results| <= |cases|
  {
    forall k :: 0 <= k < |results| && NewReply(entries, cases, k) ==>
      results[k].gotStage == ClassifyStage(cases[k].reply, agent(k)).Tag()
  }

  /** Appending a result that carries the classifier's tag when its reply is new keeps every result so tagged. */
  lemma FreshTaggedStep(before: seq<TestResult>, r: TestResult, cases: seq<TestCase>, entries: seq<(string, Stage)>,
                        agent: nat -> Option<string>)
    requires |before| < |cases| && FreshTagged(before, cases, entries, agent)
    requires NewReply(entries, cases, |before|) ==>
               r.gotStage == ClassifyStage(cases[|before|].reply, agent(|before|)).Tag()
    ensures FreshTagged(before + [r], cases, entries, agent)
  {
    var results := before + [r];
    forall k | 0 <= k < |results| && NewReply(entries, cases, k)
      ensures results[k].gotStage == ClassifyStage(cases[k].reply, agent(k)).Tag()
    {
      if k < |before| {
        assert results[k] == before[k];
      }
    }
  }

  /**
   * `run_tests`: every loaded case is run in order, with `agent(i)` as the classifier
   * agent's answer for the case at position `i`, and the failures are filtered out.
   */
  method RunTests(memo: StageMemo, base: seq<TestCase>, extra: Option<seq<TestCase>>, agent: nat -> Option<string>)
    returns (results: seq<TestResult>, failed: seq<TestResult>)
    requires memo.Valid()
    modifies memo
    ensures memo.Valid()
    ensures |results| == |TestCasesOf(base, extra)|
    ensures forall i :: 0 <= i < |results| ==> Reports(results[i], TestCasesOf(base, extra)[i], i)
    ensures failed == Failed(results)
    ensures forall i :: 0 <= i < |results| && NewReply(old(memo.entries), TestCasesOf(base, extra), i) ==>
              results[i].gotStage == ClassifyStage(TestCasesOf(base, extra)[i].reply, agent(i)).Tag()
  {
    var cases := LoadTestCases(base, extra);
    results := [];
    for i := 0 to |cases|
      invariant memo.Valid()
      invariant |results| == i
      invariant forall k :: 0 <= k < i ==> Reports(results[k], cases[k], k)
      invariant forall k :: i <= k < |cases| && NewReply(old(memo.entries), cases, k) ==>
                  Unseen(memo.entries, cases[k].reply)
      invariant FreshTagged(results, cases, old(memo.entries), agent)
    {
      ghost var before := results;
      var r := RunCase(memo, cases[i], i, agent(i));
      results := results + [r];
      FreshTaggedStep(before, r, cases, old(memo.entries), agent);
      assert forall k :: 0 <= k < i ==> results[k] == before[k];
      forall k | i < k < |cases| && NewReply(old(memo.entries), cases, k)
        ensures Unseen(memo.entries, cases[k].reply)
      {
        assert cases[i].reply != cases[k].reply;
      }
    }
    failed := Failed(results);
  }

  /** `results` reports every case of `cases`, in order. */
  ghost predicate ReportsAll(results: seq<TestResult>, cases: seq<TestCase>) {
    |results| == |cases| &&
    forall i {:trigger Reports(results[i], cases[i], i)} :: 0 <= i < |results| ==> Reports(results[i], cases[i], i)
  }

  /** `results` report every case of `cases`, and `nFailed` of them failed. */
  ghost predicate Tallied(results: seq<TestResult>, cases: seq<TestCase>, nFailed: nat) {
    ReportsAll(results, cases) && nFailed == |Failed(results)|
  }

  /**
   * One trial of `main`: the tests are run with that trial's agent answers and the
   * failures counted. `results` are the test results that trial produced.
   */
  method RunTrial(memo: StageMemo, base: seq<TestCase>, extra: Option<seq<TestCase>>,
                  agent: (nat, nat) -> Option<string>, trial: nat) returns (nFailed: nat, ghost results: seq<TestResult>)
    requires memo.Valid()
    modifies memo
    ensures memo.Valid()
    ensures ReportsAll(results, TestCasesOf(base, extra))
    ensures nFailed == |Failed(results)| <= |TestCasesOf(base, extra)|
  {
    var failed;
    results, failed := RunTests(memo, base, extra, (i: nat) => agent(trial, i));
    nFailed := |failed|;
  }

  /** One line of the tuning history. */
  datatype TrialRecord = TrialRecord(trial: nat, nFailed: nat)

  /**
   * The trial loop of `main`. `agent(t, i)` is the classifier agent's answer for case `i`
   * in trial `t`; `suggest(t)` is the improved prompt suggested after trial `t`, `None`
   * when the suggestion call raised. Without auto mode the suggestion is only shown, so
   * the prompt is unchanged; with it the suggestion replaces the prompt.
   */
  method AutoTune(memo: StageMemo, base: seq<TestCase>, extra: Option<seq<TestCase>>, auto: bool, maxTrials: int,
                  prompt: string, agent: (nat, nat) -> Option<string>, suggest: nat -> Option<string>)
    returns (history: seq<TrialRecord>, allPassed: bool, finalPrompt: string, ghost lastResults: seq<TestResult>)
    requires memo.Valid()
    modifies memo
    ensures memo.Valid()
    ensures allPassed ==> ReportsAll(lastResults, TestCasesOf(base, extra)) && Failed(lastResults) == []
    ensures history != [] ==> Tallied(lastResults, TestCasesOf(base, extra), history[|history| - 1].nFailed)
    ensures forall k :: 0 <= k < |history| ==>
              history[k].trial == k + 1 && history[k].nFailed <= |TestCasesOf(base, extra)|
    ensures maxTrials < 1 ==> history == []
    ensures maxTrials >= 1 ==> 1 <= |history| <= maxTrials
    ensures allPassed <==> history != [] && history[|history| - 1].nFailed == 0
    ensures forall k :: 0 <= k < |history| - 1 ==> history[k].nFailed > 0 && auto && suggest(history[k].trial).Some?
    ensures !auto ==> |history| <= 1 && finalPrompt == prompt
    ensures history != [] && |history| < maxTrials ==> allPassed || !auto || suggest(|history|).None?
    ensures auto && history != [] && !allPassed && suggest(|history|).Some? ==> finalPrompt == suggest(|history|).value
  {
    ghost var cases := TestCasesOf(base, extra);
    var trial := 1;
    allPassed := false;
    history := [];
    finalPrompt := prompt;
    lastResults := [];
    while trial <= maxTrials
      invariant memo.Valid()
      invariant |history| == trial - 1 && 1 <= trial && (trial == 1 || trial <= maxTrials + 1)
      invariant !allPassed
      invariant forall k :: 0 <= k < |history| ==>
                  history[k].trial == k + 1 && 0 < history[k].nFailed <= |cases| &&
                  auto && suggest(history[k].trial).Some?
      invariant !auto ==> history == [] && finalPrompt == prompt
      invariant auto && history != [] ==> suggest(|history|).Some? && finalPrompt == suggest(|history|).value
      invariant history != [] ==> Tallied(lastResults, cases, history[|history| - 1].nFailed)
      decreases maxTrials - trial
    {
      var nFailed;
      nFailed, lastResults := RunTrial(memo, base, extra, agent, trial);
      var earlier := history;
      history := history + [TrialRecord(trial, nFailed)];
      assert forall k :: 0 <= k < |earlier| ==> history[k] == earlier[k];
      if nFailed == 0 {
        allPassed := true;
        return;
      }
      if !auto {
        return;
      }
      var improved := suggest(trial);
      if improved.None? {
        return;
      }
      finalPrompt := improved.value;
      trial := trial + 1;
    }
  }
}
