/**
 * Message-history entries as the backend receives them, and the role filter of
 * backend/utils.py. An entry is either a dictionary or some other object; `role` and
 * `content` are read from dictionary keys or object attributes, missing ones reading as
 * `None`.
 */
module Messages {
  import opened Wrappers

  datatype Entry =
    | DictEntry(role: Option<string>, content: Option<string>)
    | ObjectEntry(role: Option<string>, content: Option<string>)

  /** A prompt part handed to the agent. */
  datatype Part = UserPart(content: Option<string>) | SystemPart(content: Option<string>)

  predicate IsPromptRole(e: Entry) {
    e.role == Some("user") || e.role == Some("system")
  }

  /** The part an entry becomes, when its role is user or system. */
  function PartOf(e: Entry): Part
    requires IsPromptRole(e)
  {
    if e.role == Some("user") then UserPart(e.content) else SystemPart(e.content)
  }

  /** The user and system entries of `history`, in order, as prompt parts. */
  function KeptParts(history: seq<Entry>): seq<Part> {
    if history == [] then []
    else (if IsPromptRole(history[0]) then [PartOf(history[0])] else []) + KeptParts(history[1..])
  }

  /** normalize_message_history: appends a part for each user or system entry and skips the rest. */
  method NormalizeMessageHistory(history: seq<Entry>) returns (result: seq<Part>)
    ensures result == KeptParts(history)
  {
    result := [];
    for i := 0 to |history|
      invariant result == KeptParts(history[..i])
    {
      var m := history[i];
      if m.role == Some("user") {
        result := result + [UserPart(m.content)];
      } else if m.role == Some("system") {
        result := result + [SystemPart(m.content)];
      }
      KeptPartsAppend(history[..i], [m]);
      assert history[..i + 1] == history[..i] + [m];
    }
    assert history[..|history|] == history;
  }

  /** The filter works entry by entry: it distributes over concatenation. */
  lemma {:induction false} KeptPartsAppend(a: seq<Entry>, b: seq<Entry>)
    ensures KeptParts(a + b) == KeptParts(a) + KeptParts(b)
  {
    if a == [] {
      assert a + b == b;
    } else {
      var h := if IsPromptRole(a[0]) then [PartOf(a[0])] else [];
      assert (a + b)[0] == a[0] && (a + b)[1..] == a[1..] + b;
      assert KeptParts(a + b) == h + KeptParts(a[1..] + b);
      KeptPartsAppend(a[1..], b);
      assert h + (KeptParts(a[1..]) + KeptParts(b)) == (h + KeptParts(a[1..])) + KeptParts(b);
    }
  }

  /** The output is never longer than the input. */
  lemma {:induction false} KeptPartsShorter(history: seq<Entry>)
    ensures |KeptParts(history)| <= |history|
  {
    if history != [] {
      KeptPartsShorter(history[1..]);
    }
  }

  /** Assistant entries and entries with any other role or none are dropped. */
  lemma {:induction false} OtherRolesDropped(history: seq<Entry>)
    requires forall i :: 0 <= i < |history| ==> !IsPromptRole(history[i])
    ensures KeptParts(history) == []
  {
    if history != [] {
      OtherRolesDropped(history[1..]);
    }
  }

  /** A history of only user and system entries is kept whole, entry for entry. */
  lemma {:induction false} PromptRolesKept(history: seq<Entry>)
    requires forall i :: 0 <= i < |history| ==> IsPromptRole(history[i])
    ensures |KeptParts(history)| == |history|
    ensures forall i :: 0 <= i < |history| ==> KeptParts(history)[i] == PartOf(history[i])
  {
    if history != [] {
      PromptRolesKept(history[1..]);
    }
  }
}
