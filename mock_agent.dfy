/**
 * The developer-driven order flow (agent.py, MockAgent.start_order) over a terminal
 * (utils/ui.py, TerminalUI) whose typed lines are a fixed sequence. A read past the
 * last line ends the flow, as `input()` raising at end of file would. Printing is not
 * modelled; the outcome names the message the flow ends with.
 */
module MockOrderAgent {
  import opened Wrappers
  import opened Text
  import opened Store
  import opened OrderModels
  import opened ProductTools
  import opened OrdersTool
  import OrderAssistant

  /** A terminal reading from a fixed sequence of typed lines. */
  class ScriptedUI {
    const inputs: seq<string>
    var pos: nat
    /** The number `prompt_int` reads from each typed line, if the line holds one. */
    ghost const numbers: seq<Option<int>>
    /** The answer `prompt_yes_no` reads from each typed line: yes, no, or neither. */
    ghost const answers: seq<Option<bool>>
    /** Each typed line as `prompt` returns it: stripped of surrounding blanks. */
    ghost const replies: seq<string>

    ghost predicate Valid()
      reads this
    {
      pos <= |inputs| && |numbers| == |inputs| && |answers| == |inputs| && |replies| == |inputs| &&
      (forall k {:trigger Strip(inputs[k])} :: 0 <= k < |inputs| ==> replies[k] == Strip(inputs[k])) &&
      (forall k {:trigger ParseInt(inputs[k])} :: 0 <= k < |inputs| ==> numbers[k] == ParseInt(inputs[k])) &&
      (forall k {:trigger YesNo(inputs[k])} :: 0 <= k < |inputs| ==> answers[k] == YesNo(inputs[k]))
    }

    constructor (inputs: seq<string>)
      ensures Valid() && this.inputs == inputs && pos == 0
      ensures numbers == Numbers(inputs) && answers == Answers(inputs) && replies == Replies(inputs)
    {
      this.inputs := inputs;
      numbers := Numbers(inputs);
      answers := Answers(inputs);
      replies := Replies(inputs);
      pos := 0;
    }

    /** `prompt`: the next line without its surrounding blanks. */
    method Prompt() returns (r: Option<string>)
      requires Valid()
      modifies this
      ensures Valid()
      ensures old(pos) == |inputs| ==> r.None? && pos == old(pos)
      ensures old(pos) < |inputs| ==> r == Some(Strip(inputs[old(pos)])) && pos == old(pos) + 1
    {
      if pos == |inputs| {
        return None;
      }
      r := Some(Strip(inputs[pos]));
      pos := pos + 1;
    }

    /**
     * `prompt_int`: lines are read until one is a whole number between `min` and `max`;
     * every line skipped on the way is not.
     */
    method PromptInt(min: int, max: int) returns (r: Option<int>)
      requires Valid()
      modifies this
      ensures Valid() && pos >= old(pos)
      ensures FirstInt(numbers, old(pos), min, max).None? ==> r.None? && pos == |inputs|
      ensures FirstInt(numbers, old(pos), min, max).Some? ==>
                pos == FirstInt(numbers, old(pos), min, max).value + 1 &&
                r == numbers[pos - 1] && min <= r.value <= max
    {
      while pos < |inputs|
        invariant Valid() && pos >= old(pos)
        invariant FirstInt(numbers, old(pos), min, max) == FirstInt(numbers, pos, min, max)
        decreases |inputs| - pos
      {
        var v := ParseInt(inputs[pos]);
        pos := pos + 1;
        if v.Some? && min <= v.value <= max {
          return v;
        }
      }
      return None;
    }

    /** `prompt_yes_no`: lines are read until one is y, yes, n or no in any case; the answer is whether it said yes. */
    method PromptYesNo() returns (r: Option<bool>)
      requires Valid()
      modifies this
      ensures Valid() && pos >= old(pos)
      ensures FirstYesNo(answers, old(pos)).None? ==> r.None? && pos == |inputs|
      ensures FirstYesNo(answers, old(pos)).Some? ==>
                pos == FirstYesNo(answers, old(pos)).value + 1 && r == answers[pos - 1] && r.Some?
    {
      while pos < |inputs|
        invariant Valid() && pos >= old(pos)
        invariant FirstYesNo(answers, old(pos)) == FirstYesNo(answers, pos)
        decreases |inputs| - pos
      {
        var answer := YesNo(inputs[pos]);
        pos := pos + 1;
        if answer.Some? {
          return answer;
        }
      }
      return None;
    }
  }

  /** The number `prompt_int` reads from each typed line, if the line holds one. */
  function Numbers(inputs: seq<string>): (r: seq<Option<int>>)
    ensures |r| == |inputs|
    ensures forall k {:trigger ParseInt(inputs[k])} :: 0 <= k < |inputs| ==> r[k] == ParseInt(inputs[k])
  {
    if inputs == [] then [] else Numbers(inputs[..|inputs| - 1]) + [ParseInt(inputs[|inputs| - 1])]
  }

  /** The answer `prompt_yes_no` reads from each typed line: yes, no, or neither. */
  function Answers(inputs: seq<string>): (r: seq<Option<bool>>)
    ensures |r| == |inputs|
    ensures forall k {:trigger YesNo(inputs[k])} :: 0 <= k < |inputs| ==> r[k] == YesNo(inputs[k])
  {
    if inputs == [] then [] else Answers(inputs[..|inputs| - 1]) + [YesNo(inputs[|inputs| - 1])]
  }

  /** A number `prompt_int` accepts between `min` and `max`. */
  predicate InRange(v: Option<int>, min: int, max: int) {
    v.Some? && min <= v.value <= max
  }

  /** The position of the first line from `from` on whose number `prompt_int` accepts, if any. */
  function FirstInt(numbers: seq<Option<int>>, from: nat, min: int, max: int): (r: Option<nat>)
    ensures r.Some? ==> from <= r.value < |numbers| && InRange(numbers[r.value], min, max)
    ensures forall j :: from <= j < (if r.Some? then r.value else |numbers|) ==> !InRange(numbers[j], min, max)
    decreases |numbers| - from
  {
    if from >= |numbers| then None
    else if InRange(numbers[from], min, max) then Some(from)
    else FirstInt(numbers, from + 1, min, max)
  }

  /** The position of the first line from `from` on that `prompt_yes_no` accepts, if any. */
  function FirstYesNo(answers: seq<Option<bool>>, from: nat): (r: Option<nat>)
    ensures r.Some? ==> from <= r.value < |answers| && answers[r.value].Some?
    ensures forall j :: from <= j < (if r.Some? then r.value else |answers|) ==> answers[j].None?
    decreases |answers| - from
  {
    if from >= |answers| then None
    else if answers[from].Some? then Some(from)
    else FirstYesNo(answers, from + 1)
  }

  /** How `prompt_yes_no` reads one line: yes, no, or neither. */
  function YesNo(line: string): Option<bool> {
    var resp := Lower(Strip(line));
    if resp == "y" || resp == "yes" then Some(true)
    else if resp == "n" || resp == "no" then Some(false)
    else None
  }

  /** `_select_product` once the number is read: 0 chooses nothing, `n` the n-th listed product. */
  function SelectProduct(ps: seq<Product>, idx: int): (r: Option<Product>)
    requires 0 <= idx <= |ps|
  {
    if idx == 0 then None else Some(ps[idx - 1])
  }

  /**
   * The numbers shown beside the products are the numbers that select them: the
   * product in row `k` is shown as `k + 1`, and typing that number selects it.
   */
  lemma ShownNumberSelects(ps: seq<Product>, k: nat)
    requires k < |ps|
    ensures ParseInt(OrderAssistant.ProductLine(k + 1, ps[k])[0]) == Some(k + 1)
    ensures SelectProduct(ps, k + 1) == Some(ps[k])
  {
    ParseIntOfNat(k + 1);
  }

  /** The cancel row is shown as 0, and typing 0 selects nothing. */
  lemma CancelNumberSelectsNothing(ps: seq<Product>)
    ensures ParseInt(OrderAssistant.CancelRow[0]) == Some(0)
    ensures SelectProduct(ps, 0).None?
  {
    ParseIntOfNat(0);
    assert NatToString(0) == "0";
  }

  /** The largest quantity `prompt_int` accepts when no maximum is given. */
  const MaxQuantity := 1000

  /** The form with the reported fields blanked so that they are asked again. */
  function ClearFields(data: map<string, string>, errs: seq<string>): (r: map<string, string>)
    ensures r.Keys == data.Keys
  {
    map f | f in data :: if f in errs then "" else data[f]
  }

  /**
   * Clearing the reported fields keeps every answer that validated: only fields whose
   * value was rejected are blanked.
   */
  lemma ClearKeepsValidAnswers(data: map<string, string>, email: EmailCheck)
    requires HasAllFields(data) && Validate(data, email).Err?
    ensures var cleared := ClearFields(data, Validate(data, email).error);
            forall f :: f in data ==>
              (cleared[f] == "" <==> (f in OrderFieldSet && CheckField(f, data[f], email).Err?) || data[f] == "") &&
              (CheckField(f, data[f], email).Ok? ==> cleared[f] == data[f])
  {
  }

  predicate SomeBlank(data: map<string, string>) {
    exists f :: f in data && data[f] == ""
  }

  lemma FieldPosition(f: string) returns (j: nat)
    requires f in OrderFieldSet
    ensures j < |OrderFields| && OrderFields[j] == f
  {
    j := if f == "name" then 0 else if f == "phone" then 1 else if f == "email" then 2
         else if f == "address" then 3 else if f == "delivery_time" then 4 else 5;
  }

  /** The typed answers `answers` validate to `form`. */
  predicate ValidatedFrom(answers: map<string, string>, email: EmailCheck, form: OrderInput) {
    HasAllFields(answers) && Validate(answers, email) == Ok(form)
  }

  /** No element of `s` comes again later. */
  predicate NoRepeats(s: seq<string>) {
    s == [] || (s[0] !in s[1..] && NoRepeats(s[1..]))
  }

  /** No field is listed twice, and every listed field is a form field. */
  lemma OrderFieldsDistinct()
    ensures NoRepeats(OrderFields)
    ensures forall k :: 0 <= k < |OrderFields| ==> OrderFields[k] in OrderFieldSet
  {
    var fs := OrderFields;
    forall n | 0 <= n < |fs|
      ensures fs[n..][1..] == fs[n + 1..]
    {
    }
    assert NoRepeats(fs[5..]);
    assert NoRepeats(fs[4..]);
    assert NoRepeats(fs[3..]);
    assert NoRepeats(fs[2..]);
    assert NoRepeats(fs[1..]);
    assert fs[0..] == fs;
  }

  /** The fields of `fs` that are blank in `data`, in order: the ones a round of step 5 asks for. */
  function BlankFields(fs: seq<string>, data: map<string, string>): (r: seq<string>)
    requires forall k :: 0 <= k < |fs| ==> fs[k] in data
    ensures |r| <= |fs|
  {
    if fs == [] then []
    else (if data[fs[0]] == "" then [fs[0]] else []) + BlankFields(fs[1..], data)
  }

  /** The blank fields are exactly the fields of `fs` whose answer is blank. */
  lemma {:induction false} BlankFieldsMembers(fs: seq<string>, data: map<string, string>)
    requires forall k :: 0 <= k < |fs| ==> fs[k] in data
    ensures forall f :: f in BlankFields(fs, data) <==> f in fs && data[f] == ""
  {
    if fs != [] {
      BlankFieldsMembers(fs[1..], data);
      assert fs == [fs[0]] + fs[1..];
    }
  }

  /** A blank field is asked, so a round with a blank field asks something. */
  lemma BlankFieldAsked(fields: seq<string>, data: map<string, string>, j: nat)
    requires j < |fields| && forall k :: 0 <= k < |fields| ==> fields[k] in data
    requires data[fields[j]] == ""
    ensures fields[j] in BlankFields(fields, data) && |BlankFields(fields, data)| > 0
  {
    BlankFieldsMembers(fields, data);
  }

  /** Answering a field that is not listed does not change which listed fields are blank. */
  lemma {:induction false} BlankFieldsIgnore(fs: seq<string>, data: map<string, string>, f: string, v: string)
    requires forall k :: 0 <= k < |fs| ==> fs[k] in data
    requires f !in fs
    ensures BlankFields(fs, data[f := v]) == BlankFields(fs, data)
  {
    if fs != [] {
      BlankFieldsIgnore(fs[1..], data, f, v);
    }
  }

  /** The typed lines as `prompt` returns them: each one stripped. */
  function Replies(inputs: seq<string>): (r: seq<string>)
    ensures |r| == |inputs|
    ensures forall k {:trigger Strip(inputs[k])} :: 0 <= k < |inputs| ==> r[k] == Strip(inputs[k])
  {
    if inputs == [] then [] else Replies(inputs[..|inputs| - 1]) + [Strip(inputs[|inputs| - 1])]
  }

  /**
   * One round of step 5 as a function over the replies `lines`: each of `fields` that is
   * blank in `data` is given the next reply from `pos` on, and filled fields are passed
   * over. The answers and the position reading stopped at, or None when the lines ran
   * out first.
   */
  function AskRound(fields: seq<string>, data: map<string, string>, lines: seq<string>, pos: nat)
    : Option<(map<string, string>, nat)>
    requires forall k :: 0 <= k < |fields| ==> fields[k] in data
    decreases |fields|
  {
    if fields == [] then Some((data, pos))
    else if data[fields[0]] != "" then AskRound(fields[1..], data, lines, pos)
    else if pos >= |lines| then None
    else AskRound(fields[1..], data[fields[0] := lines[pos]], lines, pos + 1)
  }

  /**
   * How far a round reads: it runs out of lines exactly when fewer lines remain than
   * there are blank fields, and otherwise it reads one line per blank field and answers
   * the same fields as before.
   */
  lemma {:induction false} AskRoundReads(fields: seq<string>, data: map<string, string>, lines: seq<string>, pos: nat)
    requires NoRepeats(fields) && forall k :: 0 <= k < |fields| ==> fields[k] in data
    requires pos <= |lines|
    ensures AskRound(fields, data, lines, pos).None? <==> |lines| < pos + |BlankFields(fields, data)|
    ensures AskRound(fields, data, lines, pos).Some? ==>
              AskRound(fields, data, lines, pos).value.1 == pos + |BlankFields(fields, data)| &&
              AskRound(fields, data, lines, pos).value.0.Keys == data.Keys
    decreases |fields|
  {
    if fields != [] {
      var f, rest := fields[0], fields[1..];
      if data[f] != "" {
        AskRoundReads(rest, data, lines, pos);
      } else if pos < |lines| {
        BlankFieldsIgnore(rest, data, f, lines[pos]);
        AskRoundReads(rest, data[f := lines[pos]], lines, pos + 1);
      }
    }
  }

  /** What a round stores: the k-th blank field in field order gets the k-th line read. */
  lemma {:induction false} AskRoundStores(fields: seq<string>, data: map<string, string>, lines: seq<string>, pos: nat, k: nat)
    requires NoRepeats(fields) && forall j :: 0 <= j < |fields| ==> fields[j] in data
    requires AskRound(fields, data, lines, pos).Some? && k < |BlankFields(fields, data)|
    ensures var answers := AskRound(fields, data, lines, pos).value.0;
            BlankFields(fields, data)[k] in answers && pos + k < |lines| &&
            answers[BlankFields(fields, data)[k]] == lines[pos + k]
    decreases |fields|
  {
    var f, rest := fields[0], fields[1..];
    if data[f] != "" {
      assert BlankFields(fields, data) == [] + BlankFields(rest, data);
      AskRoundStores(rest, data, lines, pos, k);
    } else {
      var next := data[f := lines[pos]];
      BlankFieldsIgnore(rest, data, f, lines[pos]);
      assert BlankFields(fields, data) == [f] + BlankFields(rest, next);
      if k == 0 {
        BlankFieldsMembers(rest, data);
        AskRoundKeeps(rest, next, lines, pos + 1, f);
      } else {
        AskRoundStores(rest, next, lines, pos + 1, k - 1);
      }
    }
  }

  /** What a round keeps: the answer to a field it does not ask for is as it was. */
  lemma {:induction false} AskRoundKeeps(fields: seq<string>, data: map<string, string>, lines: seq<string>, pos: nat, f: string)
    requires NoRepeats(fields) && forall j :: 0 <= j < |fields| ==> fields[j] in data
    requires AskRound(fields, data, lines, pos).Some? && f in data && f !in BlankFields(fields, data)
    ensures var answers := AskRound(fields, data, lines, pos).value.0;
            f in answers && answers[f] == data[f]
    decreases |fields|
  {
    if fields != [] {
      var g, rest := fields[0], fields[1..];
      if data[g] != "" {
        assert BlankFields(fields, data) == [] + BlankFields(rest, data);
        AskRoundKeeps(rest, data, lines, pos, f);
      } else {
        BlankFieldsIgnore(rest, data, g, lines[pos]);
        assert BlankFields(fields, data) == [g] + BlankFields(rest, data);
        AskRoundKeeps(rest, data[g := lines[pos]], lines, pos + 1, f);
      }
    }
  }

  /** Every answer in `data` is blank or one of the replies `lines[lo..hi]`. */
  ghost predicate TypedBetween(data: map<string, string>, lines: seq<string>, lo: nat, hi: nat) {
    lo <= hi <= |lines| &&
    forall v :: v in data.Values ==> v == "" || v in lines[lo..hi]
  }

  /** A typed answer is the stripped text of a line read between `lo` and `hi`. */
  lemma TypedAnswerIsALine(data: map<string, string>, lines: seq<string>, inputs: seq<string>, lo: nat, hi: nat, f: string)
    requires |lines| == |inputs| && forall k :: 0 <= k < |inputs| ==> lines[k] == Strip(inputs[k])
    requires TypedBetween(data, lines, lo, hi) && f in data && data[f] != ""
    ensures exists j :: lo <= j < hi && data[f] == Strip(inputs[j])
  {
    assert data[f] in data.Values;
    var k :| 0 <= k < hi - lo && lines[lo..hi][k] == data[f];
    assert lines[lo..hi][k] == lines[lo + k];
    assert lines[lo + k] == Strip(inputs[lo + k]);
  }

  /**
   * One round of step 5 of `start_order` over the form's `fields`: every blank field is
   * asked for, in field order, and its answer stored; filled fields are kept and not
   * asked again. `ended` says the typed lines ran out.
   */
  method AskBlankFields(ui: ScriptedUI, fields: seq<string>, head: map<string, string>)
    returns (data: map<string, string>, ended: bool)
    requires ui.Valid()
    requires forall k :: 0 <= k < |fields| ==> fields[k] in head
    modifies ui
    ensures ui.Valid() && ui.pos >= old(ui.pos)
    ensures ended <==> AskRound(fields, head, ui.replies, old(ui.pos)).None?
    ensures ended ==> ui.pos == |ui.inputs|
    ensures !ended ==> AskRound(fields, head, ui.replies, old(ui.pos)) == Some((data, ui.pos))
  {
    data := head;
    var i := 0;
    ghost var lines := ui.replies;
    while i < |fields|
      invariant i <= |fields| && ui.Valid() && ui.pos >= old(ui.pos)
      invariant data.Keys == head.Keys
      invariant AskRound(fields, head, lines, old(ui.pos)) == AskRound(fields[i..], data, lines, ui.pos)
    {
      var f := fields[i];
      assert fields[i..][1..] == fields[i + 1..];
      if data[f] == "" {
        var answer := ui.Prompt();
        if answer.None? {
          return data, true;
        }
        data := data[f := answer.value];
      }
      i := i + 1;
    }
    ended := false;
  }

  /**
   * A round with a blank field that does not run out of lines reads at least one line,
   * answers the same fields, and its answers are typed: kept from before, or read in
   * the round.
   */
  lemma RoundKeepsTyped(fields: seq<string>, head: map<string, string>, lines: seq<string>, lo: nat, mid: nat, j: nat)
    requires NoRepeats(fields) && forall k :: 0 <= k < |fields| ==> fields[k] in head
    requires j < |fields| && head[fields[j]] == ""
    requires TypedBetween(head, lines, lo, mid)
    requires AskRound(fields, head, lines, mid).Some?
    ensures var (data, hi) := AskRound(fields, head, lines, mid).value;
            mid < hi && data.Keys == head.Keys && TypedBetween(data, lines, lo, hi)
  {
    var round := AskRound(fields, head, lines, mid).value;
    var data, hi := round.0, round.1;
    var blank := BlankFields(fields, head);
    AskRoundReads(fields, head, lines, mid);
    BlankFieldAsked(fields, head, j);
    assert mid < hi <= |lines|;
    var typed := lines[lo..hi];
    assert typed == lines[lo..mid] + lines[mid..hi];
    forall f | f in data && data[f] != ""
      ensures data[f] in typed
    {
      if f in blank {
        var k :| 0 <= k < |blank| && blank[k] == f;
        AskRoundStores(fields, head, lines, mid, k);
        assert data[f] == lines[mid..hi][k];
      } else {
        AskRoundKeeps(fields, head, lines, mid, f);
        assert data[f] == head[f] && head[f] in lines[lo..mid];
      }
    }
  }

  /** Blanking the reported fields leaves a form with a blank field whose other answers are still typed. */
  lemma ClearedRound(data: map<string, string>, email: EmailCheck)
    requires data.Keys == OrderFieldSet && HasAllFields(data) && Validate(data, email).Err?
    ensures var cleared := ClearFields(data, Validate(data, email).error);
            cleared.Keys == OrderFieldSet && SomeBlank(cleared)
  {
    var errs := Validate(data, email).error;
    assert errs[0] in OrderFieldSet;
    assert ClearFields(data, errs)[errs[0]] == "";
  }

  /** Blanking fields keeps every remaining answer a typed line. */
  lemma ClearKeepsTyped(data: map<string, string>, errs: seq<string>, lines: seq<string>, lo: nat, hi: nat)
    requires TypedBetween(data, lines, lo, hi)
    ensures TypedBetween(ClearFields(data, errs), lines, lo, hi)
  {
    var cleared := ClearFields(data, errs);
    forall f | f in cleared && cleared[f] != ""
      ensures cleared[f] in lines[lo..hi]
    {
      assert cleared[f] == data[f];
    }
  }

  /**
   * Steps 5 to 8 of `start_order`: every blank field is asked for, in field order; the
   * form is validated; each reported field is blanked and the round repeats until the
   * form validates or the typed lines run out. Each round asks at least one question,
   * and every answer kept is a line typed during the collection.
   */
  method CollectOrderInput(ui: ScriptedUI, email: EmailCheck) returns (form: Option<OrderInput>, data: map<string, string>)
    requires ui.Valid()
    modifies ui
    ensures ui.Valid() && ui.pos >= old(ui.pos)
    ensures form.None? ==> ui.pos == |ui.inputs|
    ensures form.Some? ==> HasAllFields(data) && Validate(data, email) == Ok(form.value)
    ensures form.Some? ==> TypedBetween(data, ui.replies, old(ui.pos), ui.pos)
  {
    data := map f | f in OrderFieldSet :: "";
    assert data["name"] == "";
    var fields := OrderFields;
    OrderFieldsDistinct();
    while true
      invariant ui.Valid() && ui.pos >= old(ui.pos)
      invariant data.Keys == OrderFieldSet && SomeBlank(data)
      invariant TypedBetween(data, ui.replies, old(ui.pos), ui.pos)
      decreases |ui.inputs| - ui.pos
    {
      var head, mid := data, ui.pos;
      ghost var blank :| blank in head && head[blank] == "";
      ghost var at := FieldPosition(blank);
      var ended;
      data, ended := AskBlankFields(ui, fields, head);
      if ended {
        return None, data;
      }
      RoundKeepsTyped(fields, head, ui.replies, old(ui.pos), mid, at);
      var checked := Validate(data, email);
      if checked.Ok? {
        return Some(checked.value), data;
      }
      ClearedRound(data, email);
      ClearKeepsTyped(data, checked.error, ui.replies, old(ui.pos), ui.pos);
      data := ClearFields(data, checked.error);
    }
  }

  /** What `_select_product` reads: a product, the 0 that cancels, or nothing before the lines ran out. */
  datatype Selection = Picked(product: Product) | Zero | Exhausted

  /**
   * `_select_product`: the catalogue is listed and a number from 0 to its length is
   * read; 0 picks nothing and `n` picks the n-th listed product. The number is the
   * first line from the current one on that is a number in that range.
   */
  method ChooseProduct(ui: ScriptedUI, products: Table<ProductRow>) returns (s: Selection, listed: seq<Product>)
    requires ui.Valid() && products.Valid()
    modifies ui
    ensures ui.Valid() && ui.pos >= old(ui.pos)
    ensures IsListing(products.rows, listed)
    ensures FirstInt(ui.numbers, old(ui.pos), 0, |listed|).None? <==> s.Exhausted?
    ensures s.Exhausted? ==> ui.pos == |ui.inputs|
    ensures !s.Exhausted? ==> ui.pos == FirstInt(ui.numbers, old(ui.pos), 0, |listed|).value + 1
    ensures !s.Exhausted? ==> (s.Zero? <==> ui.numbers[ui.pos - 1] == Some(0))
    ensures s.Picked? ==> s.product == listed[ui.numbers[ui.pos - 1].value - 1]
    ensures s.Picked? ==> s.product.id in products.rows && s.product == ToProduct(s.product.id, products.rows[s.product.id])
  {
    listed := ListProducts(products);
    var idx := ui.PromptInt(0, |listed|);
    if idx.None? {
      return Exhausted, listed;
    }
    var chosen := SelectProduct(listed, idx.value);
    if chosen.None? {
      return Zero, listed;
    }
    s := Picked(chosen.value);
  }

  /**
   * The line holding the quantity when the numbers typed from `from` on pick a product
   * from `listed`: the first number from 1 to 1000 after the product's number.
   */
  function QuantityLine(numbers: seq<Option<int>>, from: nat, listed: seq<Product>): (r: Option<nat>)
    ensures r.Some? ==> from < r.value < |numbers| && InRange(numbers[r.value], 1, MaxQuantity)
  {
    var at := FirstInt(numbers, from, 0, |listed|);
    if at.None? || numbers[at.value] == Some(0) then None
    else FirstInt(numbers, at.value + 1, 1, MaxQuantity)
  }

  /** The line answering the confirmation: the first yes or no after the quantity. */
  function ConfirmLine(numbers: seq<Option<int>>, answers: seq<Option<bool>>, from: nat, listed: seq<Product>): (r: Option<nat>)
    ensures r.Some? ==> from < r.value < |answers| && answers[r.value].Some?
  {
    var aq := QuantityLine(numbers, from, listed);
    if aq.None? then None else FirstYesNo(answers, aq.value + 1)
  }

  /**
   * The numbers typed from `from` on pick product `p` and quantity `q`: the first number
   * from 0 to the listing's length is some `n` other than 0 and `p` is the n-th listed
   * product, and the quantity line that follows reads `q`.
   */
  predicate Picks(numbers: seq<Option<int>>, from: nat, listed: seq<Product>, p: Product, q: int) {
    var at := FirstInt(numbers, from, 0, |listed|);
    at.Some? && numbers[at.value] != Some(0) && p == listed[numbers[at.value].value - 1] &&
    QuantityLine(numbers, from, listed).Some? && Some(q) == numbers[QuantityLine(numbers, from, listed).value]
  }

  /** Once the product line `at` and the quantity line `aq` are known, the lines read so far pick the product and quantity they name. */
  lemma PicksRead(numbers: seq<Option<int>>, answers: seq<Option<bool>>, from: nat, listed: seq<Product>, at: nat, aq: nat)
    requires FirstInt(numbers, from, 0, |listed|) == Some(at) && numbers[at] != Some(0)
    requires FirstInt(numbers, at + 1, 1, MaxQuantity) == Some(aq)
    ensures QuantityLine(numbers, from, listed) == Some(aq)
    ensures ConfirmLine(numbers, answers, from, listed) == FirstYesNo(answers, aq + 1)
    ensures Picks(numbers, from, listed, listed[numbers[at].value - 1], numbers[aq].value)
  {
  }

  /** How `start_order` ends. */
  datatype Outcome =
    | Cancelled
    | NotEnoughStock(product: Product, quantity: int)
    | Declined(product: Product, quantity: int)
    | PaymentFailed(product: Product, quantity: int, answers: map<string, string>, form: OrderInput)
    | Completed(product: Product, quantity: int, answers: map<string, string>, form: OrderInput, orderId: int)
    | InputEnded

  /** The order `start_order` stores: the product, the quantity, the total, and the validated recipient and delivery. */
  function OrderOf(p: Product, quantity: int, unitPrice: int, form: OrderInput): OrderRow {
    OrderRow(p.id, p.name, quantity, unitPrice * quantity, form.name, form.email, form.phone,
             form.address, form.deliveryTime, form.paymentMethod)
  }

  /** A product and quantity the flow may go on with: listed, in range, and in stock. */
  predicate Accepted(rows: map<int, ProductRow>, p: Product, quantity: int) {
    p.id in rows && p == ToProduct(p.id, rows[p.id]) &&
    1 <= quantity <= MaxQuantity && CheckStock(rows, p, quantity)
  }

  /** Steps 1 to 4 of `start_order` end the flow, or agree on a product and a quantity. */
  datatype OrderLine = Stop(outcome: Outcome) | Go(product: Product, quantity: int)

  /** The outcomes that carry a product and a quantity. */
  predicate HasOrderLine(o: Outcome) {
    o.NotEnoughStock? || o.Declined? || o.PaymentFailed? || o.Completed?
  }

  /**
   * Steps 1 to 4 of `start_order` as read from the typed lines, given as the number and
   * the yes or no each line holds: how the steps end, and the position reading stopped at.
   */
  function ReadOrderLine(numbers: seq<Option<int>>, answers: seq<Option<bool>>, from: nat,
                         listed: seq<Product>, rows: map<int, ProductRow>): (OrderLine, nat)
  {
    match FirstInt(numbers, from, 0, |listed|)
    case None => (Stop(InputEnded), |numbers|)
    case Some(at) =>
      if numbers[at] == Some(0) then (Stop(Cancelled), at + 1)
      else ReadQuantity(numbers, answers, at + 1, listed[numbers[at].value - 1], rows)
  }

  /** Steps 2 to 4 for the product `p`, reading from the line at `from` on. */
  function ReadQuantity(numbers: seq<Option<int>>, answers: seq<Option<bool>>, from: nat,
                        p: Product, rows: map<int, ProductRow>): (OrderLine, nat)
  {
    match FirstInt(numbers, from, 1, MaxQuantity)
    case None => (Stop(InputEnded), |numbers|)
    case Some(aq) =>
      var q := numbers[aq].value;
      if !CheckStock(rows, p, q) then (Stop(NotEnoughStock(p, q)), aq + 1)
      else
        match FirstYesNo(answers, aq + 1)
        case None => (Stop(InputEnded), |answers|)
        case Some(ac) => (if answers[ac].value then Go(p, q) else Stop(Declined(p, q)), ac + 1)
  }

  /**
   * What steps 1 to 4 read and decide. The flow stops with a cancel exactly when the
   * product line says 0, and a stop for the end of the input has read every line. Any
   * product and quantity are the ones the typed numbers pick from the listing. Short
   * stock stops right after the quantity line and the product really is short; a yes or
   * a no comes from the confirmation line, the last line read; and the flow goes on, or
   * is declined, only with a listed product and a quantity from 1 to 1000 in stock.
   */
  lemma ReadOrderLineMeaning(numbers: seq<Option<int>>, answers: seq<Option<bool>>, from: nat,
                             listed: seq<Product>, rows: map<int, ProductRow>)
    requires IsListing(rows, listed) && |answers| == |numbers| && from <= |numbers|
    ensures var (line, pos) := ReadOrderLine(numbers, answers, from, listed, rows);
            from <= pos <= |numbers| &&
            (line.Stop? ==> line.outcome.Cancelled? || line.outcome.InputEnded? ||
                            line.outcome.NotEnoughStock? || line.outcome.Declined?) &&
            (line == Stop(InputEnded) ==> pos == |numbers|) &&
            (line == Stop(Cancelled) <==>
               FirstInt(numbers, from, 0, |listed|).Some? && numbers[FirstInt(numbers, from, 0, |listed|).value] == Some(0)) &&
            (line.Go? ==> Picks(numbers, from, listed, line.product, line.quantity)) &&
            (line.Stop? && HasOrderLine(line.outcome) ==>
               Picks(numbers, from, listed, line.outcome.product, line.outcome.quantity)) &&
            (line.Stop? && line.outcome.NotEnoughStock? ==>
               pos == QuantityLine(numbers, from, listed).value + 1 &&
               line.outcome.product.id in rows && !CheckStock(rows, line.outcome.product, line.outcome.quantity)) &&
            (line.Go? || (line.Stop? && line.outcome.Declined?) ==>
               ConfirmLine(numbers, answers, from, listed) == Some(pos - 1) && answers[pos - 1] == Some(line.Go?)) &&
            (line.Stop? && line.outcome.Declined? ==> Accepted(rows, line.outcome.product, line.outcome.quantity)) &&
            (line.Go? ==> Accepted(rows, line.product, line.quantity))
  {
    var at := FirstInt(numbers, from, 0, |listed|);
    if at.Some? && numbers[at.value] != Some(0) {
      var p := listed[numbers[at.value].value - 1];
      assert ReadOrderLine(numbers, answers, from, listed, rows) == ReadQuantity(numbers, answers, at.value + 1, p, rows);
      var aq := FirstInt(numbers, at.value + 1, 1, MaxQuantity);
      if aq.Some? {
        PicksRead(numbers, answers, from, listed, at.value, aq.value);
      }
    }
  }

  /**
   * Steps 1 to 4 of `start_order`: choose a product (0 cancels), read the quantity,
   * check the stock and ask for confirmation. Only the terminal is read. The steps end
   * as `ReadOrderLine` says for the lines typed and the catalogue listed.
   */
  method AgreeOrderLine(ui: ScriptedUI, products: Table<ProductRow>) returns (line: OrderLine, listed: seq<Product>)
    requires ui.Valid() && products.Valid()
    modifies ui
    ensures ui.Valid() && ui.pos >= old(ui.pos)
    ensures IsListing(products.rows, listed)
    ensures (line, ui.pos) == ReadOrderLine(ui.numbers, ui.answers, old(ui.pos), listed, products.rows)
  {
    // 1. product selection
    var selection;
    selection, listed := ChooseProduct(ui, products);
    if selection.Exhausted? {
      return Stop(InputEnded), listed;
    }
    if selection.Zero? {
      return Stop(Cancelled), listed;
    }
    line := AgreeQuantity(ui, products, selection.product);
  }

  /** Steps 2 to 4 of `start_order` once `product` is chosen: quantity, stock, confirmation. */
  method AgreeQuantity(ui: ScriptedUI, products: Table<ProductRow>, product: Product) returns (line: OrderLine)
    requires ui.Valid()
    modifies ui
    ensures ui.Valid() && ui.pos >= old(ui.pos)
    ensures (line, ui.pos) == ReadQuantity(ui.numbers, ui.answers, old(ui.pos), product, products.rows)
  {
    // 2. quantity
    var quantity := ui.PromptInt(1, MaxQuantity);
    if quantity.None? {
      return Stop(InputEnded);
    }
    // 3. stock
    if !CheckStock(products.rows, product, quantity.value) {
      return Stop(NotEnoughStock(product, quantity.value));
    }
    // 4. confirmation
    var confirmed := ui.PromptYesNo();
    if confirmed.None? {
      return Stop(InputEnded);
    }
    if !confirmed.value {
      return Stop(Declined(product, quantity.value));
    }
    return Go(product, quantity.value);
  }

  /**
   * Steps 5 to 8 of `start_order` and the write: collect and validate the form, pay,
   * and only then take the quantity off the stock and store the order. The answers
   * are lines typed during this step.
   */
  method FinishOrder(ui: ScriptedUI, products: Table<ProductRow>, orders: Table<OrderRow>,
                     email: EmailCheck, paid: bool, product: Product, quantity: int) returns (outcome: Outcome)
    requires ui.Valid() && products.Valid() && orders.Valid()
    requires Accepted(products.rows, product, quantity)
    modifies ui, products, orders
    ensures ui.Valid() && products.Valid() && orders.Valid() && ui.pos >= old(ui.pos)
    ensures outcome.InputEnded? || outcome.PaymentFailed? || outcome.Completed?
    ensures outcome.InputEnded? ==> ui.pos == |ui.inputs|
    ensures !outcome.Completed? ==> products.rows == old(products.rows) && orders.rows == old(orders.rows)
    ensures outcome.PaymentFailed? || outcome.Completed? ==>
              outcome.product == product && outcome.quantity == quantity &&
              ValidatedFrom(outcome.answers, email, outcome.form) &&
              TypedBetween(outcome.answers, ui.replies, old(ui.pos), ui.pos)
    ensures outcome.PaymentFailed? ==> !paid
    ensures outcome.Completed? ==>
              paid && outcome.orderId !in old(orders.rows) &&
              products.rows == Decremented(old(products.rows), product.id, quantity) &&
              orders.rows == old(orders.rows)[outcome.orderId := OrderOf(product, quantity, product.price, outcome.form)]
  {
    var unitPrice := GetPrice(products.rows, product);
    var form, data := CollectOrderInput(ui, email);
    if form.None? {
      return InputEnded;
    }
    if !paid {
      return PaymentFailed(product, quantity, data, form.value);
    }
    DecrementStock(products, product.id, quantity);
    var id := SaveOrder(orders, OrderOf(product, quantity, unitPrice, form.value));
    return Completed(product, quantity, data, form.value, id);
  }

  /**
   * `start_order`: choose a product (0 cancels), read the quantity, check the stock,
   * confirm, collect and validate the form, pay, and only then take the quantity off
   * the stock and store the order. Every way out before the end leaves both tables as
   * they were. The payment tool's answer is `paid`; the repository's tool always pays.
   */
  method StartOrder(ui: ScriptedUI, products: Table<ProductRow>, orders: Table<OrderRow>,
                    email: EmailCheck, paid: bool) returns (outcome: Outcome, listed: seq<Product>)
    requires ui.Valid() && products.Valid() && orders.Valid()
    modifies ui, products, orders
    ensures ui.Valid() && products.Valid() && orders.Valid()
    ensures IsListing(old(products.rows), listed)
    ensures outcome.InputEnded? ==> ui.pos == |ui.inputs|
    ensures outcome.Cancelled? <==>
              FirstInt(ui.numbers, old(ui.pos), 0, |listed|).Some? &&
              ui.numbers[FirstInt(ui.numbers, old(ui.pos), 0, |listed|).value] == Some(0)
    ensures HasOrderLine(outcome) ==> Picks(ui.numbers, old(ui.pos), listed, outcome.product, outcome.quantity)
    ensures !outcome.Completed? ==> products.rows == old(products.rows) && orders.rows == old(orders.rows)
    ensures outcome.NotEnoughStock? ==>
              outcome.product.id in old(products.rows) &&
              !CheckStock(old(products.rows), outcome.product, outcome.quantity)
    ensures outcome.Declined? || outcome.PaymentFailed? || outcome.Completed? ==>
              Accepted(old(products.rows), outcome.product, outcome.quantity) &&
              ConfirmLine(ui.numbers, ui.answers, old(ui.pos), listed).Some? &&
              ui.answers[ConfirmLine(ui.numbers, ui.answers, old(ui.pos), listed).value] ==
                Some(!outcome.Declined?)
    ensures outcome.PaymentFailed? || outcome.Completed? ==>
              ValidatedFrom(outcome.answers, email, outcome.form) &&
              TypedBetween(outcome.answers, ui.replies,
                           ConfirmLine(ui.numbers, ui.answers, old(ui.pos), listed).value + 1, ui.pos)
    ensures outcome.PaymentFailed? ==> !paid
    ensures outcome.Completed? ==>
              paid && outcome.orderId !in old(orders.rows) &&
              products.rows == Decremented(old(products.rows), outcome.product.id, outcome.quantity) &&
              orders.rows == old(orders.rows)[outcome.orderId :=
                OrderOf(outcome.product, outcome.quantity, outcome.product.price, outcome.form)]
  {
    var line;
    line, listed := AgreeOrderLine(ui, products);
    ReadOrderLineMeaning(ui.numbers, ui.answers, old(ui.pos), listed, products.rows);
    if line.Stop? {
      return line.outcome, listed;
    }
    outcome := FinishOrder(ui, products, orders, email, paid, line.product, line.quantity);
  }
}
