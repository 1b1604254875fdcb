/**
 * The chat turn of backend/main.py: the stage marker `<!-- stage: (\w+) -->`, the
 * `normalize_marker` rewrite that moves the first marker to the front, the endpoint's
 * single retry with its error-stage fallback, and the translation of the raw history
 * into agent messages. The agent is an oracle: each run's outcome is a parameter.
 */
module Chat {
  import opened Wrappers
  import opened Text
  import opened Messages

  const MarkerOpen: string := "<!-- stage: "
  const MarkerClose: string := " -->"

  /** The regular expression's `\w`, on ASCII. */
  predicate IsWordChar(c: char) {
    ('a' <= c <= 'z') || ('A' <= c <= 'Z') || ('0' <= c <= '9') || c == '_'
  }

  /** The length of the longest run of word characters at the start of `s`. */
  function WordRun(s: string): (n: nat)
    ensures n <= |s|
    ensures forall i :: 0 <= i < n ==> IsWordChar(s[i])
    ensures n < |s| ==> !IsWordChar(s[n])
  {
    if s != [] && IsWordChar(s[0]) then 1 + WordRun(s[1..]) else 0
  }

  /** A run of `k` word characters followed by a non-word character or the end is the word run. */
  lemma {:induction false} WordRunExact(x: string, k: nat)
    requires k <= |x| && forall i :: 0 <= i < k ==> IsWordChar(x[i])
    requires k == |x| || !IsWordChar(x[k])
    ensures WordRun(x) == k
  {
    if k > 0 {
      WordRunExact(x[1..], k - 1);
    }
  }

  /**
   * The length of the marker matched at the very start of `s`, or 0 when none is. The
   * greedy `\w+` is followed by a space, which is not a word character, so only the
   * longest word run can complete a match.
   */
  function MarkerLen(s: string): (n: nat)
    ensures n == 0 || (|MarkerOpen| + 1 + |MarkerClose| <= n <= |s| && StartsWith(s, MarkerOpen))
  {
    if !StartsWith(s, MarkerOpen) then 0
    else
      var rest := s[|MarkerOpen|..];
      var w := WordRun(rest);
      if w > 0 && StartsWith(rest[w..], MarkerClose) then |MarkerOpen| + w + |MarkerClose| else 0
  }

  /** `re.match(r"^<!-- stage: (\w+) -->", s)` succeeds. */
  predicate StartsWithMarker(s: string) {
    MarkerLen(s) > 0
  }

  /** `m` is exactly one marker: the opening, a non-empty run of word characters, the closing. */
  predicate IsMarker(m: string) {
    |m| > |MarkerOpen| + |MarkerClose| &&
    m[..|MarkerOpen|] == MarkerOpen && m[|m| - |MarkerClose|..] == MarkerClose &&
    forall i :: |MarkerOpen| <= i < |m| - |MarkerClose| ==> IsWordChar(m[i])
  }

  /** What is matched at the start of a text is a marker. */
  lemma MatchIsMarker(s: string)
    requires MarkerLen(s) > 0
    ensures IsMarker(s[..MarkerLen(s)])
  {
    var n := MarkerLen(s);
    var m := s[..n];
    var rest := s[|MarkerOpen|..];
    var w := WordRun(rest);
    assert m[..|MarkerOpen|] == s[..|MarkerOpen|];
    assert m[n - |MarkerClose|..] == rest[w..][..|MarkerClose|];
    forall i | |MarkerOpen| <= i < n - |MarkerClose|
      ensures IsWordChar(m[i])
    {
      assert m[i] == rest[i - |MarkerOpen|];
    }
  }

  /** A marker matches at the start of any text it begins, whatever follows it. */
  lemma MarkerMatchesItself(m: string, t: string)
    requires IsMarker(m)
    ensures MarkerLen(m + t) == |m|
  {
    var s := m + t;
    var k := |m| - |MarkerOpen| - |MarkerClose|;
    assert s[..|MarkerOpen|] == MarkerOpen;
    var rest := s[|MarkerOpen|..];
    assert rest[k..][..|MarkerClose|] == m[|m| - |MarkerClose|..];
    assert rest[k] == ' ';
    WordRunExact(rest, k);
  }

  /** A marker starts at position `j` of `s`. */
  predicate MarkerAt(s: string, j: nat)
    requires j <= |s|
  {
    MarkerLen(s[j..]) > 0
  }

  /** `re.search`: the position of the leftmost marker at or after `from`. */
  function FindMarker(s: string, from: nat): (r: Option<nat>)
    requires from <= |s|
    ensures r.Some? ==> from <= r.value <= |s| && MarkerAt(s, r.value)
    ensures r.Some? ==> forall j :: from <= j < r.value ==> !MarkerAt(s, j)
    ensures r.None? <==> forall j :: from <= j <= |s| ==> !MarkerAt(s, j)
    decreases |s| - from
  {
    if MarkerAt(s, from) then Some(from)
    else if from == |s| then None
    else FindMarker(s, from + 1)
  }

  /** No marker starts anywhere in `s`. */
  predicate NoMarker(s: string) {
    forall j :: 0 <= j <= |s| ==> !MarkerAt(s, j)
  }

  /** `re.sub(marker, "", s)`: scans left to right and deletes every non-overlapping match. */
  function RemoveMarkers(s: string): (r: string)
    ensures |r| <= |s|
    decreases |s|
  {
    if s == [] then []
    else
      var n := MarkerLen(s);
      if n > 0 then RemoveMarkers(s[n..]) else [s[0]] + RemoveMarkers(s[1..])
  }

  /** A text without markers is left as it is. */
  lemma {:induction false} RemoveMarkersNoMarker(s: string)
    requires NoMarker(s)
    ensures RemoveMarkers(s) == s
    decreases |s|
  {
    if s != [] {
      assert !MarkerAt(s, 0) && s[0..] == s;
      assert NoMarker(s[1..]) by {
        forall j | 0 <= j <= |s[1..]|
          ensures !MarkerAt(s[1..], j)
        {
          assert s[1..][j..] == s[j + 1..];
          assert !MarkerAt(s, j + 1);
        }
      }
      RemoveMarkersNoMarker(s[1..]);
    }
  }

  /** The leftmost marker of a reply that holds one: `marker_match.group(0)`. */
  function FirstMarker(reply: string): string
    requires FindMarker(reply, 0).Some?
  {
    var tail := reply[FindMarker(reply, 0).value..];
    tail[..MarkerLen(tail)]
  }

  /**
   * normalize_marker: the first marker, a newline, then the reply with every marker
   * removed and surrounding whitespace stripped; a reply without a marker is unchanged.
   */
  function NormalizeMarker(reply: string): string {
    if FindMarker(reply, 0).None? then reply
    else FirstMarker(reply) + "\n" + Strip(RemoveMarkers(reply))
  }

  /** The first marker is a marker on its own. */
  lemma FirstMarkerIsMarker(reply: string)
    requires FindMarker(reply, 0).Some?
    ensures IsMarker(FirstMarker(reply))
  {
    var i := FindMarker(reply, 0).value;
    assert MarkerAt(reply, i);
    MatchIsMarker(reply[i..]);
  }

  /** A reply holding a marker anywhere comes back starting with its first marker. */
  lemma NormalizeMarkerMarked(reply: string)
    requires FindMarker(reply, 0).Some?
    ensures NormalizeMarker(reply) == FirstMarker(reply) + "\n" + Strip(RemoveMarkers(reply))
    ensures StartsWithMarker(NormalizeMarker(reply))
  {
    var m := FirstMarker(reply);
    var rest := "\n" + Strip(RemoveMarkers(reply));
    FirstMarkerIsMarker(reply);
    MarkerMatchesItself(m, rest);
    assert m + rest == m + "\n" + Strip(RemoveMarkers(reply));
  }

  /** A normalised reply starts with a marker exactly when the reply held one anywhere. */
  lemma NormalizeMarkerStartsWithMarker(reply: string)
    ensures StartsWithMarker(NormalizeMarker(reply)) <==> !NoMarker(reply)
  {
    if FindMarker(reply, 0).None? {
      assert reply[0..] == reply;
      assert !MarkerAt(reply, 0);
    } else {
      NormalizeMarkerMarked(reply);
    }
  }

  /** A reply without a marker is returned as it is. */
  lemma NormalizeMarkerUnmarked(reply: string)
    requires NoMarker(reply)
    ensures NormalizeMarker(reply) == reply
  {
  }

  /** Deleting markers skips a marker at the front. */
  lemma RemoveMarkersAfterMarker(m: string, t: string)
    requires IsMarker(m)
    ensures RemoveMarkers(m + t) == RemoveMarkers(t)
  {
    MarkerMatchesItself(m, t);
    assert (m + t)[|m|..] == t;
  }

  /** A newline followed by a marker-free text has no marker to delete. */
  lemma RemoveMarkersNewline(b: string)
    requires NoMarker(b)
    ensures RemoveMarkers("\n" + b) == "\n" + b
  {
    NewlineNotMarker(b);
    assert ("\n" + b)[1..] == b;
    RemoveMarkersNoMarker(b);
  }

  /** A text that starts with a marker has that marker as its first one. */
  lemma FirstMarkerAtFront(m: string, t: string)
    requires IsMarker(m)
    ensures FindMarker(m + t, 0) == Some(0)
    ensures FirstMarker(m + t) == m
  {
    var r := m + t;
    MarkerMatchesItself(m, t);
    assert r[0..] == r;
    assert MarkerAt(r, 0);
    assert r[0..0 + MarkerLen(r[0..])] == m;
  }

  /** An already normalised reply with a marker-free body is a fixed point. */
  lemma NormalizeOfNormalized(m: string, b: string)
    requires IsMarker(m)
    requires NoMarker(b) && Strip(b) == b
    ensures NormalizeMarker(m + "\n" + b) == m + "\n" + b
  {
    var r := m + ("\n" + b);
    assert m + "\n" + b == r;
    FirstMarkerAtFront(m, "\n" + b);
    RemoveMarkersAfterMarker(m, "\n" + b);
    RemoveMarkersNewline(b);
    StripNewline(b);
    assert NormalizeMarker(r) == m + "\n" + Strip("\n" + b);
  }

  /**
   * Normalising twice gives the same text as normalising once, provided the stripped
   * body left after deleting the markers holds no marker of its own.
   */
  lemma NormalizeMarkerIdempotent(reply: string)
    requires NoMarker(Strip(RemoveMarkers(reply)))
    ensures NormalizeMarker(NormalizeMarker(reply)) == NormalizeMarker(reply)
  {
    if FindMarker(reply, 0).Some? {
      var b := Strip(RemoveMarkers(reply));
      FirstMarkerIsMarker(reply);
      StripOfStripped(b);
      NormalizeOfNormalized(FirstMarker(reply), b);
    }
  }

  /** No marker starts where the text does not start with '<'. */
  lemma NoMarkerWithoutAngle(s: string)
    requires s == [] || s[0] != '<'
    ensures MarkerLen(s) == 0
  {
    assert MarkerOpen[0] == '<';
  }

  /** A text without '<' holds no marker. */
  lemma NoAngleNoMarker(s: string)
    requires forall i :: 0 <= i < |s| ==> s[i] != '<'
    ensures NoMarker(s)
  {
    forall j | 0 <= j <= |s|
      ensures !MarkerAt(s, j)
    {
      NoMarkerWithoutAngle(s[j..]);
    }
  }

  /** Characters at which no marker starts are copied through. */
  lemma {:induction false} RemoveMarkersKeepsPrefix(p: string, t: string)
    requires forall j :: 0 <= j < |p| ==> MarkerLen((p + t)[j..]) == 0
    ensures RemoveMarkers(p + t) == p + RemoveMarkers(t)
  {
    if p != [] {
      var s := p + t;
      assert s[0..] == s;
      assert s[1..] == p[1..] + t;
      forall j | 0 <= j < |p[1..]|
        ensures MarkerLen((p[1..] + t)[j..]) == 0
      {
        assert (p[1..] + t)[j..] == s[j + 1..];
      }
      RemoveMarkersKeepsPrefix(p[1..], t);
      assert RemoveMarkers(s) == [p[0]] + RemoveMarkers(p[1..] + t);
      assert [p[0]] + (p[1..] + RemoveMarkers(t)) == p + RemoveMarkers(t);
    } else {
      assert p + t == t;
    }
  }

  /** The opening of a marker, a word and the closing form a marker. */
  lemma AssembledMarker(w: string)
    requires w != [] && forall i :: 0 <= i < |w| ==> IsWordChar(w[i])
    ensures IsMarker(MarkerOpen + w + MarkerClose)
  {
    var m2 := MarkerOpen + w + MarkerClose;
    assert m2[..|MarkerOpen|] == MarkerOpen;
    assert m2[|m2| - |MarkerClose|..] == MarkerClose;
    forall i | |MarkerOpen| <= i < |m2| - |MarkerClose|
      ensures IsWordChar(m2[i])
    {
      assert m2[i] == w[i - |MarkerOpen|];
    }
  }

  /** No marker starts inside an opening that is followed by a '<'. */
  lemma OpeningBeforeAngle(t: string)
    requires t != [] && t[0] == '<'
    ensures forall j :: 0 <= j < |MarkerOpen| ==> MarkerLen((MarkerOpen + t)[j..]) == 0
  {
    var reply := MarkerOpen + t;
    forall j | 0 <= j < |MarkerOpen|
      ensures MarkerLen(reply[j..]) == 0
    {
      if j == 0 {
        assert reply[0..] == reply;
        assert reply[|MarkerOpen|..] == t;
        WordRunExact(t, 0);
      } else {
        assert reply[j..][0] == MarkerOpen[j] != '<';
        NoMarkerWithoutAngle(reply[j..]);
      }
    }
  }

  /** In `<!-- stage: ` + m + t, the first marker is m, and deleting markers keeps the outer opening. */
  lemma NestedMarker(m: string, t: string)
    requires IsMarker(m)
    ensures FindMarker(MarkerOpen + m + t, 0).Some? && FirstMarker(MarkerOpen + m + t) == m
    ensures RemoveMarkers(MarkerOpen + m + t) == MarkerOpen + RemoveMarkers(t)
  {
    var reply := MarkerOpen + (m + t);
    assert MarkerOpen + m + t == reply;
    assert (m + t)[0] == m[0] == '<' by {
      assert m[..|MarkerOpen|][0] == MarkerOpen[0];
    }
    OpeningBeforeAngle(m + t);
    assert reply[|MarkerOpen|..] == m + t;
    FirstMarkerAtFront(m, t);
    assert MarkerAt(reply, |MarkerOpen|);
    FindMarkerSkips(reply, |MarkerOpen|);
    MarkerMatchesItself(m, t);
    RemoveMarkersKeepsPrefix(MarkerOpen, m + t);
    RemoveMarkersAfterMarker(m, t);
  }

  /** A second pass over a marker, a newline and a second marker keeps only the first marker. */
  lemma SecondPassDropsMarker(m: string, m2: string)
    requires IsMarker(m) && IsMarker(m2)
    ensures NormalizeMarker(m + "\n" + m2) == m + "\n"
  {
    var r := m + ("\n" + m2);
    assert m + "\n" + m2 == r;
    FirstMarkerAtFront(m, "\n" + m2);
    RemoveMarkersAfterMarker(m, "\n" + m2);
    NewlineNotMarker(m2);
    assert ("\n" + m2)[1..] == m2;
    assert m2 == m2 + [];
    RemoveMarkersAfterMarker(m2, []);
    assert RemoveMarkers("\n" + m2) == "\n";
    StripNewline([]);
    assert "\n" + [] == "\n";
    NormalizeMarkerMarked(r);
  }

  lemma ClosingNoAngle(w: string, tail: string)
    requires (forall i :: 0 <= i < |w| ==> IsWordChar(w[i])) && tail == w + MarkerClose
    ensures forall i :: 0 <= i < |tail| ==> tail[i] != '<'
  {
    forall i | 0 <= i < |tail|
      ensures tail[i] != '<'
    {
      if i >= |w| {
        assert tail[i] == MarkerClose[i - |w|];
      } else {
        assert tail[i] == w[i];
      }
    }
  }

  /** A word followed by the closing holds no marker, so deleting markers leaves it alone. */
  lemma ClosingNoMarker(w: string)
    requires forall i :: 0 <= i < |w| ==> IsWordChar(w[i])
    ensures RemoveMarkers(w + MarkerClose) == w + MarkerClose
  {
    var tail := w + MarkerClose;
    ClosingNoAngle(w, tail);
    NoAngleNoMarker(tail);
    RemoveMarkersNoMarker(tail);
  }

  /** In a marker nested in an opening, the inner marker is found first and deleting it assembles the outer one. */
  lemma NestedRemoval(m: string, w: string)
    requires IsMarker(m)
    requires forall i :: 0 <= i < |w| ==> IsWordChar(w[i])
    ensures FindMarker(MarkerOpen + m + w + MarkerClose, 0).Some?
    ensures FirstMarker(MarkerOpen + m + w + MarkerClose) == m
    ensures RemoveMarkers(MarkerOpen + m + w + MarkerClose) == MarkerOpen + w + MarkerClose
  {
    var tail := w + MarkerClose;
    assert MarkerOpen + m + w + MarkerClose == MarkerOpen + m + tail;
    assert MarkerOpen + w + MarkerClose == MarkerOpen + tail;
    ClosingNoMarker(w);
    NestedMarker(m, tail);
  }

  /** The first pass over a marker nested in an opening keeps the inner marker and the assembled outer one. */
  lemma NestedFirstPass(m: string, w: string)
    requires IsMarker(m)
    requires w != [] && forall i :: 0 <= i < |w| ==> IsWordChar(w[i])
    ensures NormalizeMarker(MarkerOpen + m + w + MarkerClose) == m + "\n" + (MarkerOpen + w + MarkerClose)
  {
    var m2 := MarkerOpen + w + MarkerClose;
    NestedRemoval(m, w);
    AssembledMarker(w);
    StripOfStripped(m2);
  }

  /**
   * Normalisation is not idempotent in general: a marker nested inside the opening of
   * another (`<!-- stage: <!-- stage: a -->b -->`) is taken first, and deleting it
   * assembles a second marker that a further pass deletes.
   */
  lemma NormalizeMarkerNotIdempotent(m: string, w: string)
    requires IsMarker(m)
    requires w != [] && forall i :: 0 <= i < |w| ==> IsWordChar(w[i])
    ensures NormalizeMarker(MarkerOpen + m + w + MarkerClose) == m + "\n" + (MarkerOpen + w + MarkerClose)
    ensures NormalizeMarker(NormalizeMarker(MarkerOpen + m + w + MarkerClose)) == m + "\n"
  {
    NestedFirstPass(m, w);
    AssembledMarker(w);
    SecondPassDropsMarker(m, MarkerOpen + w + MarkerClose);
  }

  /** With no marker before `i` and one at `i`, the search finds `i`. */
  lemma {:induction false} FindMarkerSkips(s: string, i: nat)
    requires i <= |s| && MarkerAt(s, i)
    requires forall j :: 0 <= j < i ==> !MarkerAt(s, j)
    ensures FindMarker(s, 0) == Some(i)
  {
    FindMarkerFrom(s, 0, i);
  }

  lemma {:induction false} FindMarkerFrom(s: string, from: nat, i: nat)
    requires from <= i <= |s| && MarkerAt(s, i)
    requires forall j :: from <= j < i ==> !MarkerAt(s, j)
    ensures FindMarker(s, from) == Some(i)
    decreases i - from
  {
    if from < i {
      FindMarkerFrom(s, from + 1, i);
    }
  }

  lemma NewlineNotMarker(b: string)
    ensures MarkerLen("\n" + b) == 0
  {
    assert ("\n" + b)[0] == '\n';
  }

  /** Stripping a leading newline off a stripped text gives the text back. */
  lemma StripNewline(b: string)
    requires Strip(b) == b
    ensures Strip("\n" + b) == b
  {
    if b == [] {
      assert "\n" + b == "\n";
    } else {
      assert "\n" + b + [] == "\n" + b;
      StripOfPadding("\n", b, []);
    }
  }

  /** The outcome of one agent run: the reply text, or the text of the exception it raised. */
  datatype RunOutcome = Output(text: string) | Raised(message: string)

  const NoMarkerReply: string :=
    ErrorMarker + "\n**Assistant error:** No stage marker in reply. Please try again or contact support."

  function InternalErrorReply(message: string): string {
    ErrorMarker + "\n**Assistant error:** Internal server error: " + message
  }

  /** The JSON body of a chat response and how many agent runs produced it. */
  datatype ChatResponse = ChatResponse(reply: string, history: seq<Entry>, runs: nat)

  /** The endpoint's reply after the first run, with the second run's outcome consulted at most once. */
  function ChatReply(first: RunOutcome, second: RunOutcome): (r: (string, nat))
    ensures 1 <= r.1 <= 2
    ensures first.Raised? ==> r == (InternalErrorReply(first.message), 1)
    ensures first.Output? && StartsWithMarker(NormalizeMarker(first.text)) ==> r == (NormalizeMarker(first.text), 1)
    ensures first.Output? && !StartsWithMarker(NormalizeMarker(first.text)) ==>
              r.1 == 2 &&
              r.0 == match second
                     case Raised(e) => InternalErrorReply(e)
                     case Output(t) => if StartsWithMarker(NormalizeMarker(t)) then NormalizeMarker(t) else NoMarkerReply
  {
    match first
    case Raised(e) => (InternalErrorReply(e), 1)
    case Output(t) =>
      var reply := NormalizeMarker(t);
      if StartsWithMarker(reply) then (reply, 1)
      else
        match second
        case Raised(e) => (InternalErrorReply(e), 2)
        case Output(t2) =>
          var reply2 := NormalizeMarker(t2);
          if StartsWithMarker(reply2) then (reply2, 2) else (NoMarkerReply, 2)
  }

  /** An agent message built from a raw history entry. */
  datatype ModelMessage = Request(part: Part) | Response(text: Option<string>)

  /** The message an entry becomes: system and user entries requests, assistant entries responses. */
  function MessageOf(e: Entry): seq<ModelMessage> {
    if e.role == Some("system") then [Request(SystemPart(e.content))]
    else if e.role == Some("user") then [Request(UserPart(e.content))]
    else if e.role == Some("assistant") then [Response(e.content)]
    else []
  }

  /** The messages of a history, in order, with other roles dropped. */
  function Translate(history: seq<Entry>): seq<ModelMessage> {
    if history == [] then [] else MessageOf(history[0]) + Translate(history[1..])
  }

  predicate AllDicts(history: seq<Entry>) {
    forall i :: 0 <= i < |history| ==> history[i].DictEntry?
  }

  /**
   * openai_to_model_messages as a function: an entry that is not a dictionary has no
   * `get`, and the translation raises (`None`).
   */
  function ToModelMessages(history: seq<Entry>): Option<seq<ModelMessage>> {
    if AllDicts(history) then Some(Translate(history)) else None
  }

  predicate IsChatRole(e: Entry) {
    e.role == Some("system") || e.role == Some("user") || e.role == Some("assistant")
  }

  /** openai_to_model_messages: the append loop, raising at the first entry that is not a dictionary. */
  method OpenAiToModelMessages(history: seq<Entry>) returns (result: Option<seq<ModelMessage>>)
    ensures result == ToModelMessages(history)
  {
    var acc: seq<ModelMessage> := [];
    for i := 0 to |history|
      invariant AllDicts(history[..i])
      invariant acc == Translate(history[..i])
    {
      var msg := history[i];
      if msg.ObjectEntry? {
        return None;
      }
      if msg.role == Some("system") {
        acc := acc + [Request(SystemPart(msg.content))];
      } else if msg.role == Some("user") {
        acc := acc + [Request(UserPart(msg.content))];
      } else if msg.role == Some("assistant") {
        acc := acc + [Response(msg.content)];
      }
      TranslateAppend(history[..i], [msg]);
      assert history[..i + 1] == history[..i] + [msg];
    }
    assert history[..|history|] == history;
    return Some(acc);
  }

  /** Order is kept: the messages of a concatenation are the concatenation of the messages. */
  lemma {:induction false} TranslateAppend(a: seq<Entry>, b: seq<Entry>)
    ensures Translate(a + b) == Translate(a) + Translate(b)
  {
    if a == [] {
      assert a + b == b;
    } else {
      assert (a + b)[1..] == a[1..] + b;
      TranslateAppend(a[1..], b);
    }
  }

  /** At most one message per entry, and exactly one when every role is system, user or assistant. */
  lemma {:induction false} TranslateLength(history: seq<Entry>)
    ensures |Translate(history)| <= |history|
    ensures (forall i :: 0 <= i < |history| ==> IsChatRole(history[i])) ==> |Translate(history)| == |history|
  {
    if history != [] {
      TranslateLength(history[1..]);
    }
  }

  /**
   * chat_endpoint: the history is translated before the guarded block, so an entry that
   * is not a dictionary raises out of the endpoint (`None`); otherwise the reply comes
   * from at most two runs and the raw history is echoed.
   */
  function ChatEndpoint(history: seq<Entry>, first: RunOutcome, second: RunOutcome): (r: Option<ChatResponse>)
    ensures r.None? <==> ToModelMessages(history).None?
    ensures r.Some? ==> r.value.history == history && 1 <= r.value.runs <= 2
    ensures r.Some? ==> StartsWithMarker(r.value.reply)
  {
    if ToModelMessages(history).None? then None
    else
      ChatReplyHasMarker(first, second);
      var r := ChatReply(first, second);
      Some(ChatResponse(r.0, history, r.1))
  }

  const ErrorMarker: string := "<!-- stage: error -->"

  /** Any text after the error marker leaves a reply that starts with a marker. */
  lemma ErrorMarkerFirst(t: string)
    ensures StartsWithMarker(ErrorMarker + t)
  {
    var m := ErrorMarker;
    assert IsMarker(m) by {
      assert m[..|MarkerOpen|] == MarkerOpen;
      assert m[|m| - |MarkerClose|..] == MarkerClose;
      assert m[12..17] == "error";
    }
    MarkerMatchesItself(m, t);
  }

  /** The internal-error reply begins with the error marker. */
  lemma InternalErrorReplyHasMarker(message: string)
    ensures StartsWithMarker(InternalErrorReply(message))
  {
    var pre := "\n**Assistant error:** Internal server error: ";
    assert InternalErrorReply(message) == ErrorMarker + (pre + message);
    ErrorMarkerFirst(pre + message);
  }

  /** The no-marker reply begins with the error marker. */
  lemma NoMarkerReplyHasMarker()
    ensures StartsWithMarker(NoMarkerReply)
  {
    var fail := "\n**Assistant error:** No stage marker in reply. Please try again or contact support.";
    assert NoMarkerReply == ErrorMarker + fail;
    ErrorMarkerFirst(fail);
  }

  /** Every reply the endpoint returns begins with a stage marker. */
  lemma ChatReplyHasMarker(first: RunOutcome, second: RunOutcome)
    ensures StartsWithMarker(ChatReply(first, second).0)
  {
    match first
    case Raised(e) =>
      InternalErrorReplyHasMarker(e);
    case Output(t) =>
      if !StartsWithMarker(NormalizeMarker(t)) {
        match second
        case Raised(e) =>
          InternalErrorReplyHasMarker(e);
        case Output(t2) =>
          NoMarkerReplyHasMarker();
      }
  }
}
