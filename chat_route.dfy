/** `POST` of src/app/api/chat/route.ts: validate the request, pick the agent's system
    prompt, build the message list sent to the model, and extract the cited sources from
    the model's answer.

    The model call is a parameter (`Completion`, what the call produced), the prompt texts
    are a parameter (`Prompts`), and the four regular-expression match lists are given by a
    parameter `find` from the answer text to the lists `String.prototype.match` returns. */
module ChatRoute {
  import opened JsBuiltins

  /** An entry of `chatHistory` as the client sends it. */
  datatype HistoryEntry = HistoryEntry(role: string, content: string)

  /** The JSON body: each field may be missing (or null). */
  datatype ChatRequest = ChatRequest(
    message: Option<string>,
    agentType: Option<string>,
    chatHistory: Option<seq<HistoryEntry>>)

  /** The body as `request.json()` gives it: the object, or the message of the error it
      throws on a malformed body. */
  datatype Body = Parsed(request: ChatRequest) | Malformed(errorMessage: string)

  /** `LEGAL_AGENT_PROMPT`, `COMMERCIAL_AGENT_PROMPT` and `CONTRACT_AGENT_PROMPT`. */
  datatype Prompts = Prompts(legal: string, commercial: string, contract: string)

  /** A message of the list sent to the model. */
  datatype OutMessage = OutMessage(role: string, content: string)

  /** What the completion call produced: `choices[0]?.message?.content` (None when any step
      of the chain is missing), or a thrown value, with its message when it is an Error.
      `Threw` also stands for a failing `ZAI.create()`, which the source meets before it
      builds the message list; the handler still reports that list as sent. */
  datatype Completion = Answered(content: Option<string>) | Threw(error: Option<string>)

  /** The four lists `response.match(...)` returns for the RN, RI, Lei and Cláusula
      patterns; None is the `null` of no match. */
  datatype Matches = Matches(
    rn: Option<seq<string>>,
    ri: Option<seq<string>>,
    lei: Option<seq<string>>,
    clause: Option<seq<string>>)

  datatype Response =
    | Success(response: string, sources: seq<string>, agentType: Option<string>)
    | Failure(status: int, error: string)

  const MissingMessage: string := "Mensagem é obrigatória"
  const EmptyAnswer: string := "Resposta vazia do modelo"
  const UnknownError: string := "Erro desconhecido"

  /** `!message`: missing, null and the empty string are all rejected. */
  predicate HasMessage(request: ChatRequest)
  {
    request.message.Some? && request.message.value != []
  }

  /** `AGENT_PROMPTS[agentType] || LEGAL_AGENT_PROMPT`. */
  function SystemPrompt(prompts: Prompts, agentType: Option<string>): (p: string)
    ensures agentType == Some("commercial") && prompts.commercial != [] ==> p == prompts.commercial
    ensures agentType == Some("contract") && prompts.contract != [] ==> p == prompts.contract
    ensures agentType !in {Some("commercial"), Some("contract")} ==> p == prompts.legal
  {
    var found :=
      if agentType == Some("legal") then prompts.legal
      else if agentType == Some("commercial") then prompts.commercial
      else if agentType == Some("contract") then prompts.contract
      else "";
    if found != [] then found else prompts.legal
  }

  /** `msg.role === "user" ? "user" : "assistant"`. */
  function Normalize(entry: HistoryEntry): OutMessage
  {
    OutMessage(if entry.role == "user" then "user" else "assistant", entry.content)
  }

  /** `chatHistory?.slice(-10) || []`. */
  function RecentHistory(history: Option<seq<HistoryEntry>>): (h: seq<HistoryEntry>)
    ensures history.None? ==> h == []
    ensures history.Some? ==> |h| == Min(10, |history.value|) && h == history.value[|history.value| - |h|..]
  {
    if history.Some? then SliceLast(history.value, 10) else []
  }

  function NormalizeAll(h: seq<HistoryEntry>): (ms: seq<OutMessage>)
    ensures |ms| == |h|
  {
    seq(|h|, i requires 0 <= i < |h| => Normalize(h[i]))
  }

  /** The list sent to the model. */
  function Outgoing(systemPrompt: string, history: Option<seq<HistoryEntry>>, message: string): seq<OutMessage>
  {
    [OutMessage("assistant", systemPrompt)] + NormalizeAll(RecentHistory(history)) + [OutMessage("user", message)]
  }

  /** The pushes that build `messages`. */
  method BuildMessages(systemPrompt: string, history: Option<seq<HistoryEntry>>, message: string)
    returns (messages: seq<OutMessage>)
    ensures messages == Outgoing(systemPrompt, history, message)
  {
    messages := [OutMessage("assistant", systemPrompt)];
    var recentHistory := if history.Some? then SliceLast(history.value, 10) else [];
    assert recentHistory == RecentHistory(history);
    for i := 0 to |recentHistory|
      invariant messages == [OutMessage("assistant", systemPrompt)] + NormalizeAll(recentHistory[..i])
    {
      var msg := recentHistory[i];
      NormalizeStep(recentHistory, i);
      messages := messages + [OutMessage(if msg.role == "user" then "user" else "assistant", msg.content)];
    }
    assert recentHistory[..|recentHistory|] == recentHistory;
    messages := messages + [OutMessage("user", message)];
  }

  lemma NormalizeStep(h: seq<HistoryEntry>, i: int)
    requires 0 <= i < |h|
    ensures NormalizeAll(h[..i + 1]) == NormalizeAll(h[..i]) + [Normalize(h[i])]
  {
  }

  /** The list sent holds the system prompt first, with role "assistant", then the last
      min(10, |history|) entries of the history in order with their roles normalised, then
      the user's message: at most 12 entries. */
  lemma OutgoingShape(systemPrompt: string, history: Option<seq<HistoryEntry>>, message: string)
    ensures var out := Outgoing(systemPrompt, history, message);
      var n := if history.Some? then Min(10, |history.value|) else 0;
      && |out| == n + 2 <= 12
      && out[0] == OutMessage("assistant", systemPrompt)
      && out[|out| - 1] == OutMessage("user", message)
      && (forall i :: 0 <= i < |out| ==> out[i].role in {"user", "assistant"})
      && (history.Some? ==> forall k :: 1 <= k <= n ==>
            out[k].content == history.value[|history.value| - n + k - 1].content
            && (out[k].role == "user" <==> history.value[|history.value| - n + k - 1].role == "user"))
  {
    var out := Outgoing(systemPrompt, history, message);
    var h := RecentHistory(history);
    forall i | 0 <= i < |out| ensures out[i].role in {"user", "assistant"} {
      if 0 < i < |out| - 1 {
        assert out[i] == Normalize(h[i - 1]);
      }
    }
    if history.Some? {
      var n := Min(10, |history.value|);
      forall k | 1 <= k <= n
        ensures out[k].content == history.value[|history.value| - n + k - 1].content
        ensures out[k].role == "user" <==> history.value[|history.value| - n + k - 1].role == "user"
      {
        assert out[k] == Normalize(h[k - 1]);
        assert h[k - 1] == history.value[|history.value| - n + k - 1];
      }
    }
  }

  // ---------------------------------------------------------------------------
  // Sources
  // ---------------------------------------------------------------------------

  function UpperAll(s: seq<string>): (r: seq<string>)
    ensures |r| == |s|
  {
    seq(|s|, i requires 0 <= i < |s| => ToUpper(s[i]))
  }

  /** `[...new Set(matches)]`, upper-cased when `upper`, or nothing for a null list. */
  function Group(matches: Option<seq<string>>, upper: bool): (g: seq<string>)
    ensures matches.None? ==> g == []
    ensures matches.Some? ==> |g| <= |matches.value|
  {
    if matches.None? then []
    else if upper then UpperAll(Dedupe(matches.value))
    else Dedupe(matches.value)
  }

  /** The sources before the slice: RN, RI, Lei and Cláusula groups, in that order. */
  function AllSources(m: Matches): seq<string>
  {
    Group(m.rn, true) + Group(m.ri, true) + Group(m.lei, false) + Group(m.clause, false)
  }

  /** The conditional pushes into `sources`. */
  method CollectSources(m: Matches) returns (sources: seq<string>)
    ensures sources == AllSources(m)
  {
    sources := [];
    if m.rn.Some? {
      sources := sources + UpperAll(Dedupe(m.rn.value));
    }
    if m.ri.Some? {
      sources := sources + UpperAll(Dedupe(m.ri.value));
    }
    if m.lei.Some? {
      sources := sources + Dedupe(m.lei.value);
    }
    if m.clause.Some? {
      sources := sources + Dedupe(m.clause.value);
    }
  }

  /** The Lei and Cláusula groups keep each match once, as written, in the order of first
      occurrence. The RN and RI groups are the upper-case forms of those same matches, in the
      same order: every source is the upper-case form of a match and every match's
      upper-case form is a source. */
  lemma GroupContents(matches: seq<string>)
    ensures forall x :: x in Group(Some(matches), false) <==> x in matches
    ensures NoDuplicates(Group(Some(matches), false))
    ensures var g := Group(Some(matches), false);
      forall i, j :: 0 <= i < j < |g| ==> IndexOf(matches, g[i]) < IndexOf(matches, g[j])
    ensures |Group(Some(matches), true)| == |Group(Some(matches), false)|
    ensures forall i :: 0 <= i < |Group(Some(matches), true)| ==>
              Group(Some(matches), true)[i] == ToUpper(Group(Some(matches), false)[i])
    ensures forall x :: x in Group(Some(matches), true) ==> exists y :: y in matches && x == ToUpper(y)
    ensures forall y :: y in matches ==> ToUpper(y) in Group(Some(matches), true)
    ensures NoDuplicates(matches) ==> Group(Some(matches), false) == matches
  {
    var d := Dedupe(matches);
    DedupeOrder(matches);
    forall x | x in Group(Some(matches), true) ensures exists y :: y in matches && x == ToUpper(y) {
      var i :| 0 <= i < |d| && UpperAll(d)[i] == x;
      assert d[i] in d;
    }
    forall y | y in matches ensures ToUpper(y) in Group(Some(matches), true) {
      var i :| 0 <= i < |d| && d[i] == y;
      assert UpperAll(d)[i] == ToUpper(y);
    }
    if NoDuplicates(matches) {
      DedupeDistinct(matches);
    }
  }

  /** Deduplication happens before upper-casing: "rn 465" and "RN 465" are two matches and
      give two identical sources. */
  lemma RnCaseVariantsBothKept()
    ensures Group(Some(["rn 465", "RN 465"]), true) == ["RN 465", "RN 465"]
  {
    var m := ["rn 465", "RN 465"];
    assert Dedupe(m) == m by {
      assert NoDuplicates(m) by {
        assert m[0][0] != m[1][0];
      }
      DedupeDistinct(m);
    }
    assert ToUpper("rn 465") == "RN 465";
    assert ToUpper("RN 465") == "RN 465";
  }

  // ---------------------------------------------------------------------------
  // POST
  // ---------------------------------------------------------------------------

  /** The handler. `sent` is the list passed to the model, None when the model is never
      called. */
  method Post(body: Body, prompts: Prompts, completion: Completion, find: string -> Matches)
    returns (result: Response, sent: Option<seq<OutMessage>>)
    ensures body.Malformed? ==> result == Failure(500, body.errorMessage) && sent == None
    ensures body.Parsed? && !HasMessage(body.request) ==> result == Failure(400, MissingMessage) && sent == None
    ensures body.Parsed? && HasMessage(body.request) ==>
              sent == Some(Outgoing(SystemPrompt(prompts, body.request.agentType), body.request.chatHistory, body.request.message.value))
    ensures body.Parsed? && HasMessage(body.request) ==>
              result == Answer(completion, find, body.request.agentType)
  {
    sent := None;
    if body.Malformed? {
      return Failure(500, body.errorMessage), sent;
    }
    var request := body.request;
    if request.message.None? || request.message.value == [] {
      return Failure(400, MissingMessage), sent;
    }
    var systemPrompt := SystemPrompt(prompts, request.agentType);
    var messages := BuildMessages(systemPrompt, request.chatHistory, request.message.value);
    sent := Some(messages);
    if completion.Threw? {
      return Failure(500, if completion.error.Some? then completion.error.value else UnknownError), sent;
    }
    var response := completion.content;
    if response.None? || response.value == [] {
      return Failure(500, EmptyAnswer), sent;
    }
    var sources := CollectSources(find(response.value));
    result := Success(response.value, SliceTo(sources, 5), request.agentType);
  }

  /** The response once the model was called. */
  function Answer(completion: Completion, find: string -> Matches, agentType: Option<string>): (r: Response)
    ensures r.Success? ==> completion.Answered? && completion.content == Some(r.response) && r.response != []
    ensures r.Success? ==> |r.sources| <= 5
    ensures r.Failure? ==> r.status == 500
    ensures completion.Answered? && completion.content in {None, Some([])} ==> r == Failure(500, EmptyAnswer)
  {
    match completion
    case Threw(error) => Failure(500, if error.Some? then error.value else UnknownError)
    case Answered(content) =>
      if content.None? || content.value == [] then Failure(500, EmptyAnswer)
      else Success(content.value, SliceTo(AllSources(find(content.value)), 5), agentType)
  }

  /** The returned sources are the first five of the RN, RI, Lei, Cláusula groups, in that
      order: when the RN group alone has five or more, no other group shows. */
  lemma SourcesOrder(m: Matches)
    ensures var all := AllSources(m);
      SliceTo(all, 5) == all[..Min(5, |all|)]
    ensures |Group(m.rn, true)| >= 5 ==> SliceTo(AllSources(m), 5) == Group(m.rn, true)[..5]
  {
    var all := AllSources(m);
    var rn := Group(m.rn, true);
    if |rn| >= 5 {
      assert all == rn + (Group(m.ri, true) + Group(m.lei, false) + Group(m.clause, false));
      assert all[..5] == rn[..5];
    }
  }
}
