/**
 * The `/api/chat` handler of BallotBuddy: it turns the conversation posted by
 * the browser into the message list sent to the completion provider (one
 * fixed system instruction, then the user and assistant turns in order), and
 * turns the provider's outcome into the reply envelope `{answer, sources}`.
 *
 * JSON decoding and the provider call are foreign code: they appear as the
 * function parameters `decode` and `provider`.
 */
module ChatService {
  import opened Wrappers
  import opened Text

  /** One element of the decoded `messages` field; `None` is a key the JSON object lacks. */
  datatype RawMessage = RawMessage(role: Option<string>, content: Option<string>)

  /** One entry of the message list handed to the completion provider. */
  datatype ChatMessage = ChatMessage(role: string, content: string)

  /** A reference link shown under an answer. */
  datatype Source = Source(name: string, url: string)

  /** The JSON body of every reply, on success and on failure alike. */
  datatype Response = Response(answer: string, sources: seq<Source>)

  /**
   * What the provider call gave back: the content of each choice of the
   * completion (`None` where the content is null), or an exception.
   */
  datatype ProviderOutcome = Returned(choices: seq<Option<string>>) | Raised

  /** What one request does: the list sent to the provider and the reply sent back. */
  datatype Exchange = Exchange(request: seq<ChatMessage>, response: Response)

  /** The fixed instruction that restricts the assistant to Georgia voting questions. */
  const SystemPrompt: string :=
    "You are BallotBuddy, an AI assistant that ONLY answers questions "
    + "about voting in the U.S. state of Georgia.\n\n"
    + "STYLE:\n"
    + "- Answer in clear, professional markdown.\n"
    + "- Start with a short 1\U{2013}2 sentence overview.\n"
    + "- Then provide a numbered list of steps or key points.\n"
    + "- Use bullets for sub-points and keep sentences concise.\n"
    + "- Avoid giant paragraphs; break information into sections.\n\n"
    + "CONTENT RULES:\n"
    + "1. Answer only Georgia voting, elections, registration, voter ID, "
    + "polling places, absentee/early voting, and related civic-process questions.\n"
    + "2. Base your answers on information that can be sourced from accredited "
    + "Georgia government websites, such as the Georgia Secretary of State "
    + "Election Division (sos.ga.gov), the 'My Voter Page' portal (mvp.sos.ga.gov), "
    + "and Georgia.gov.\n"
    + "3. Always note that rules and dates can change and encourage the user to "
    + "confirm details on official Georgia election websites.\n"
    + "4. If the question is outside Georgia voting, politely refuse and say you "
    + "only handle Georgia voting information.\n"
    + "5. If you are unsure, say so and point the user to official Georgia "
    + "election offices or the My Voter Page.\n"

  const SystemMessage: ChatMessage := ChatMessage("system", SystemPrompt)

  /** The apology returned when the provider call raises. */
  const FallbackAnswer: string :=
    "I\U{2019}m having trouble contacting the BallotBuddy model right now. "
    + "For urgent help with voting, please contact your local election office "
    + "or call the non-partisan voter hotline at 866-OUR-VOTE."

  const Hotline: string := "866-OUR-VOTE"

  /** The official links attached to every successful answer. */
  const DefaultSources: seq<Source> := [
    Source("Georgia Secretary of State \U{2013} Elections", "https://sos.ga.gov/elections"),
    Source("Georgia My Voter Page (MVP)", "https://mvp.sos.ga.gov/"),
    Source("Georgia DDS \U{2013} Free Voter ID", "https://dds.georgia.gov/voter-id")
  ]

  // ----- Reading the request -----

  /**
   * The decoded conversation: the `messages` field, `"[]"` when the field is
   * absent, and the empty list when decoding fails.
   */
  function UserMessages(field: Option<string>, decode: string -> Option<seq<RawMessage>>): (ms: seq<RawMessage>)
    ensures decode(field.GetOr("[]")).None? ==> ms == []
    ensures decode(field.GetOr("[]")).Some? ==> ms == decode(field.GetOr("[]")).value
  {
    decode(field.GetOr("[]")).GetOr([])
  }

  /** An entry is forwarded exactly when its role is "user" or "assistant". */
  predicate Kept(m: RawMessage)
  {
    m.role == Some("user") || m.role == Some("assistant")
  }

  /** The provider entry for a forwarded message: its role, and its content or "" when it has none. */
  function Normalize(m: RawMessage): ChatMessage
    requires Kept(m)
  {
    ChatMessage(m.role.value, m.content.GetOr(""))
  }

  /** The forwarded entries of `ms`, built one element at a time as the handler's loop does. */
  function Forwarded(ms: seq<RawMessage>): (r: seq<ChatMessage>)
    ensures |r| <= |ms|
    ensures forall k :: 0 <= k < |r| ==> r[k].role == "user" || r[k].role == "assistant"
  {
    if ms == [] then []
    else
      var last := ms[|ms| - 1];
      Forwarded(ms[..|ms| - 1]) + (if Kept(last) then [Normalize(last)] else [])
  }

  /** The complete list sent to the provider. */
  function ProviderRequest(ms: seq<RawMessage>): (r: seq<ChatMessage>)
    ensures 1 <= |r| <= |ms| + 1 && r[0] == SystemMessage
    ensures forall k :: 1 <= k < |r| ==> r[k].role != "system"
  {
    [SystemMessage] + Forwarded(ms)
  }

  /**
   * The positions in `ms` of the forwarded entries: strictly increasing, the
   * k-th forwarded entry comes from the k-th of them, and a position is among
   * them exactly when its entry has a user or assistant role.
   */
  ghost function KeptIndices(ms: seq<RawMessage>): (idx: seq<nat>)
    ensures |idx| == |Forwarded(ms)|
    ensures forall k :: 0 <= k < |idx| ==> idx[k] < |ms| && Kept(ms[idx[k]])
    ensures forall k, l :: 0 <= k < l < |idx| ==> idx[k] < idx[l]
  {
    if ms == [] then []
    else
      var last := |ms| - 1;
      var prefix := ms[..last];
      var idx := KeptIndices(prefix);
      assert forall k :: 0 <= k < |idx| ==> ms[idx[k]] == prefix[idx[k]];
      idx + (if Kept(ms[last]) then [last] else [])
  }

  /** Entry k of the forwarded list is the normalised entry at the k-th kept position. */
  lemma {:induction false} ForwardedAtKeptIndex(ms: seq<RawMessage>, k: nat)
    requires k < |KeptIndices(ms)|
    ensures Forwarded(ms)[k] == Normalize(ms[KeptIndices(ms)[k]])
  {
    var last := |ms| - 1;
    var prefix := ms[..last];
    var idx, f := KeptIndices(prefix), Forwarded(prefix);
    if Kept(ms[last]) {
      assert KeptIndices(ms) == idx + [last] && Forwarded(ms) == f + [Normalize(ms[last])];
    } else {
      assert KeptIndices(ms) == idx && Forwarded(ms) == f;
    }
    if k < |idx| {
      ForwardedAtKeptIndex(prefix, k);
      assert ms[idx[k]] == prefix[idx[k]];
    }
  }

  /** Every position whose entry has a user or assistant role is a kept position. */
  lemma {:induction false} KeptIndicesComplete(ms: seq<RawMessage>)
    ensures forall i :: 0 <= i < |ms| && Kept(ms[i]) ==> i in KeptIndices(ms)
  {
    if ms != [] {
      var last := |ms| - 1;
      var prefix := ms[..last];
      KeptIndicesComplete(prefix);
      var idx := KeptIndices(prefix);
      assert KeptIndices(ms) == idx + (if Kept(ms[last]) then [last] else []);
      forall i | 0 <= i < last && Kept(ms[i])
        ensures i in KeptIndices(ms)
      {
        assert prefix[i] == ms[i];
      }
    }
  }

  /** The handler's loop: start from the system entry, append each user or assistant entry. */
  method BuildChatMessages(userMessages: seq<RawMessage>) returns (chat: seq<ChatMessage>)
    ensures chat == ProviderRequest(userMessages)
  {
    chat := [SystemMessage];
    for i := 0 to |userMessages|
      invariant chat == [SystemMessage] + Forwarded(userMessages[..i])
    {
      var m := userMessages[i];
      assert userMessages[..i + 1][..i] == userMessages[..i];
      if m.role == Some("user") || m.role == Some("assistant") {
        chat := chat + [ChatMessage(m.role.value, m.content.GetOr(""))];
      }
    }
    assert userMessages[..|userMessages|] == userMessages;
  }

  // ----- Shaping the reply -----

  /**
   * `completion.choices[0].message.content`, when reading it raises nothing:
   * an exception from the call, an empty choice list and a null content all
   * end in the handler's `except` branch.
   */
  function CompletionText(outcome: ProviderOutcome): (t: Option<string>)
    ensures t.Some? ==> outcome.Returned? && |outcome.choices| > 0 && outcome.choices[0] == t
    ensures outcome.Raised? || (outcome.Returned? && |outcome.choices| == 0) ==> t.None?
    ensures outcome.Returned? && |outcome.choices| > 0 ==> t == outcome.choices[0]
  {
    match outcome
    case Raised => None
    case Returned(choices) => if |choices| == 0 then None else choices[0]
  }

  /** The reply envelope for a provider outcome. */
  function Respond(outcome: ProviderOutcome): (r: Response)
    ensures r.sources == [] <==> CompletionText(outcome).None?
    ensures CompletionText(outcome).None? ==> r.answer == FallbackAnswer
    ensures CompletionText(outcome).Some? ==>
      IsTrimOf(r.answer, CompletionText(outcome).value, PythonWhitespace) && |r.sources| == 3
  {
    match CompletionText(outcome)
    case None => Response(FallbackAnswer, [])
    case Some(text) => Response(PyStrip(text), DefaultSources)
  }

  /** One request end to end: the provider is handed the built list and answers it. */
  function ChatExchange(field: Option<string>, decode: string -> Option<seq<RawMessage>>,
                        provider: seq<ChatMessage> -> ProviderOutcome): (x: Exchange)
    ensures 1 <= |x.request| <= 1 + |UserMessages(field, decode)| && x.request[0] == SystemMessage
    ensures x.response.sources == [] <==> CompletionText(provider(x.request)).None?
    ensures CompletionText(provider(x.request)).None? ==> x.response.answer == FallbackAnswer
    ensures forall ms :: decode(field.GetOr("[]")) == Some(ms) ==> x.request == [SystemMessage] + Forwarded(ms)
    ensures forall a :: CompletionText(provider(x.request)) == Some(a) ==>
      x.response == Response(PyStrip(a), DefaultSources)
  {
    var request := ProviderRequest(UserMessages(field, decode));
    Exchange(request, Respond(provider(request)))
  }

  /** The handler itself, with its loop. */
  method ApiChat(field: Option<string>, decode: string -> Option<seq<RawMessage>>,
                 provider: seq<ChatMessage> -> ProviderOutcome) returns (x: Exchange)
    ensures x == ChatExchange(field, decode, provider)
  {
    var chat := BuildChatMessages(UserMessages(field, decode));
    x := Exchange(chat, Respond(provider(chat)));
  }

  // ----- Properties of the request -----

  /**
   * The provider list is one system entry holding the fixed prompt followed
   * by one entry per user or assistant message, and no later entry has any
   * other role.
   */
  lemma ProviderRequestShape(ms: seq<RawMessage>)
    ensures |ProviderRequest(ms)| == 1 + |KeptIndices(ms)|
    ensures ProviderRequest(ms)[0] == SystemMessage
    ensures forall k :: 1 <= k < |ProviderRequest(ms)| ==>
      ProviderRequest(ms)[k].role == "user" || ProviderRequest(ms)[k].role == "assistant"
  {
    var idx := KeptIndices(ms);
    forall k | 1 <= k < |ProviderRequest(ms)|
      ensures ProviderRequest(ms)[k].role == "user" || ProviderRequest(ms)[k].role == "assistant"
    {
      ForwardedAtKeptIndex(ms, k - 1);
      assert ProviderRequest(ms)[k] == Forwarded(ms)[k - 1] == Normalize(ms[idx[k - 1]]);
    }
  }

  /** A provider entry after the head is exactly the normalised form of some user or assistant message. */
  lemma ForwardedMembers(ms: seq<RawMessage>, x: ChatMessage)
    ensures x in Forwarded(ms) <==> exists i :: 0 <= i < |ms| && Kept(ms[i]) && Normalize(ms[i]) == x
  {
    var idx := KeptIndices(ms);
    KeptIndicesComplete(ms);
    if x in Forwarded(ms) {
      var k :| 0 <= k < |Forwarded(ms)| && Forwarded(ms)[k] == x;
      ForwardedAtKeptIndex(ms, k);
      assert Kept(ms[idx[k]]) && Normalize(ms[idx[k]]) == x;
    }
    if i :| 0 <= i < |ms| && Kept(ms[i]) && Normalize(ms[i]) == x {
      var k :| 0 <= k < |idx| && idx[k] == i;
      ForwardedAtKeptIndex(ms, k);
      assert Forwarded(ms)[k] == x;
    }
  }

  /** Forwarding respects concatenation, so the relative order of the kept entries is preserved. */
  lemma {:induction false} ForwardedAppend(a: seq<RawMessage>, b: seq<RawMessage>)
    ensures Forwarded(a + b) == Forwarded(a) + Forwarded(b)
  {
    if b == [] {
      assert a + b == a;
    } else {
      var b' := b[..|b| - 1];
      assert (a + b)[..|a + b| - 1] == a + b';
      ForwardedAppend(a, b');
    }
  }

  /**
   * Nothing is ever added and something is dropped exactly when some entry
   * has another role; when none has, entry i is forwarded as entry i.
   */
  lemma {:induction false} ForwardedLength(ms: seq<RawMessage>)
    ensures |Forwarded(ms)| <= |ms|
    ensures |Forwarded(ms)| == |ms| <==> forall i :: 0 <= i < |ms| ==> Kept(ms[i])
    ensures (forall i :: 0 <= i < |ms| ==> Kept(ms[i])) ==>
      forall i :: 0 <= i < |ms| ==> Forwarded(ms)[i] == Normalize(ms[i])
  {
    if ms != [] {
      var prefix := ms[..|ms| - 1];
      ForwardedLength(prefix);
      assert forall i :: 0 <= i < |prefix| ==> prefix[i] == ms[i];
    }
  }

  /** A field that does not decode is handled exactly like a conversation with no messages. */
  lemma MalformedFieldActsAsEmpty(s: string, decode: string -> Option<seq<RawMessage>>,
                                  provider: seq<ChatMessage> -> ProviderOutcome)
    requires decode(s) == None
    requires decode("[]") == Some([])
    ensures ChatExchange(Some(s), decode, provider) == ChatExchange(Some("[]"), decode, provider)
    ensures ChatExchange(Some(s), decode, provider) == ChatExchange(None, decode, provider)
    ensures ChatExchange(Some(s), decode, provider).request == [SystemMessage]
  {
  }

  // ----- Properties of the reply -----

  /** The fallback apology is not empty and points to the voter hotline. */
  lemma FallbackNamesHotline()
    ensures FallbackAnswer != [] && Contains(FallbackAnswer, Hotline)
  {
    assert OccursAt(FallbackAnswer, Hotline, 176);
  }

  /** Whatever two successful answers say, their sources are the same three links. */
  lemma SourcesIndependentOfAnswer(o1: ProviderOutcome, o2: ProviderOutcome)
    requires CompletionText(o1).Some? && CompletionText(o2).Some?
    ensures Respond(o1).sources == Respond(o2).sources == DefaultSources
  {
  }

  /** A successful answer neither starts nor ends with whitespace. */
  lemma SuccessfulAnswerIsStripped(o: ProviderOutcome)
    requires CompletionText(o).Some?
    ensures var a := Respond(o).answer;
      a == [] || (a[0] !in PythonWhitespace && a[|a| - 1] !in PythonWhitespace)
  {
    assert Respond(o).answer == Trim(CompletionText(o).value, PythonWhitespace);
  }

  /**
   * A conversation of one user question whose provider answers `answer`:
   * the provider sees the prompt and the question, the reply carries the
   * stripped answer and the three links.
   */
  lemma OneQuestionScenario(field: string, question: string, answer: string,
                            decode: string -> Option<seq<RawMessage>>,
                            provider: seq<ChatMessage> -> ProviderOutcome)
    requires decode(field) == Some([RawMessage(Some("user"), Some(question))])
    requires provider([SystemMessage, ChatMessage("user", question)]) == Returned([Some(answer)])
    ensures ChatExchange(Some(field), decode, provider) == Exchange(
      [SystemMessage, ChatMessage("user", question)],
      Response(PyStrip(answer), DefaultSources))
  {
    var ms := [RawMessage(Some("user"), Some(question))];
    assert UserMessages(Some(field), decode) == ms;
    assert ms[..0] == [];
    assert Forwarded(ms) == [ChatMessage("user", question)];
    var request := ProviderRequest(ms);
    assert request == [SystemMessage, ChatMessage("user", question)];
    assert CompletionText(provider(request)) == Some(answer);
  }

  /**
   * A field that does not decode, with a provider answering `answer`: the
   * provider sees the system instruction alone and the answer still comes
   * through with the three links.
   */
  lemma MalformedFieldScenario(field: string, answer: string,
                               decode: string -> Option<seq<RawMessage>>,
                               provider: seq<ChatMessage> -> ProviderOutcome)
    requires decode(field) == None
    requires provider([SystemMessage]) == Returned([Some(answer)])
    ensures ChatExchange(Some(field), decode, provider)
            == Exchange([SystemMessage], Response(PyStrip(answer), DefaultSources))
  {
    var request := ProviderRequest(UserMessages(Some(field), decode));
    assert request == [SystemMessage];
    assert CompletionText(provider(request)) == Some(answer);
  }
}
