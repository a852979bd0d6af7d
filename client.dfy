/**
 * The conversation state of the browser page: the `messages` list, the
 * `pendingFiles` list and the `sending` flag, with the submit handler,
 * `sendToBackend` and `goToLandingView`.
 *
 * `sendToBackend` suspends at `await fetch(...)` and again at
 * `await res.json()`; nothing between the two touches the page state, so
 * both are one suspension here. It is modelled as `BeginSend` (everything
 * before the first `await`) and `CompleteSend` (everything after the
 * second, for a given way the request ended), so that what other handlers
 * may do while a request is in flight can be stated.
 */
module Client {
  import opened Wrappers
  import opened Text
  import opened ChatService

  /** A message of the conversation; `typing` marks the placeholder shown while a reply is awaited. */
  datatype ClientMessage = ClientMessage(role: string, content: string, sources: Option<seq<Source>>, typing: bool)

  /** A file chosen in the file picker (only its identity matters here). */
  datatype FileRef = FileRef(name: string)

  /** The form posted to `/api/chat`: the `messages` list and the `files` parts. */
  datatype Payload = Payload(messages: seq<ClientMessage>, files: seq<FileRef>)

  /**
   * How the request ended: the reply body parsed as JSON, or an exception
   * (the network failed, or the body was not JSON).
   */
  datatype FetchResult = Delivered(body: Response) | FetchFailed

  const Placeholder: ClientMessage := ClientMessage("assistant", "Thinking\U{2026}", None, true)

  /** Shown when the reply's answer is empty. */
  const NoAnswerText: string := "Sorry, I couldn\U{2019}t generate a response."

  /** Shown when the request itself failed. */
  const ServerUnreachableText: string :=
    "I\U{2019}m having trouble reaching the BallotBuddy server right now. "
    + "For urgent help with voting, you can call 866-OUR-VOTE."

  function UserMessage(text: string): ClientMessage
  {
    ClientMessage("user", text, None, false)
  }

  /** The assistant message pushed once the request has ended: never empty, never a placeholder. */
  function ReplyMessage(result: FetchResult): (m: ClientMessage)
    ensures m.role == "assistant" && !m.typing && m.content != []
    ensures result.Delivered? && result.body.answer != [] ==> m.content == result.body.answer
    ensures result.Delivered? ==> m.sources == Some(result.body.sources)
    ensures result.FetchFailed? ==> m.sources == None && Contains(m.content, Hotline)
  {
    match result
    case Delivered(body) =>
      ClientMessage("assistant", if body.answer == [] then NoAnswerText else body.answer, Some(body.sources), false)
    case FetchFailed =>
      assert OccursAt(ServerUnreachableText, Hotline, 104);
      ClientMessage("assistant", ServerUnreachableText, None, false)
  }

  ghost predicate NoPlaceholder(s: seq<ClientMessage>)
  {
    forall i :: 0 <= i < |s| ==> !s[i].typing
  }

  ghost predicate ChatRoles(s: seq<ClientMessage>)
  {
    forall i :: 0 <= i < |s| ==> s[i].role == "user" || s[i].role == "assistant"
  }

  /** `messages.filter(m => !m.typing)`: exactly the messages that are not placeholders. */
  function WithoutTyping(s: seq<ClientMessage>): (r: seq<ClientMessage>)
    ensures NoPlaceholder(r) && |r| <= |s|
    ensures forall m :: m in r <==> m in s && !m.typing
  {
    if s == [] then []
    else WithoutTyping(s[..|s| - 1]) + (if s[|s| - 1].typing then [] else [s[|s| - 1]])
  }

  /** Filtering works message by message, so the kept messages stay in their order. */
  lemma {:induction false} WithoutTypingAppend(a: seq<ClientMessage>, b: seq<ClientMessage>)
    ensures WithoutTyping(a + b) == WithoutTyping(a) + WithoutTyping(b)
  {
    if b == [] {
      assert a + b == a;
    } else {
      var b' := b[..|b| - 1];
      assert (a + b)[..|a + b| - 1] == a + b';
      WithoutTypingAppend(a, b');
    }
  }

  /** Filtering keeps a list without placeholders as it is. */
  lemma {:induction false} WithoutTypingKeeps(s: seq<ClientMessage>)
    requires NoPlaceholder(s)
    ensures WithoutTyping(s) == s
  {
    if s != [] {
      WithoutTypingKeeps(s[..|s| - 1]);
    }
  }

  /** `s.indexOf(x)`: the first position holding `x`, or -1. */
  function IndexOf<T(==)>(s: seq<T>, x: T): (r: int)
    ensures -1 <= r < |s|
    ensures r == -1 <==> x !in s
    ensures 0 <= r ==> s[r] == x && x !in s[..r]
  {
    if s == [] then -1
    else if s[0] == x then 0
    else
      var j := IndexOf(s[1..], x);
      assert s[1..][..j + 1] == s[1..j + 2] by { if j >= 0 { assert j + 2 <= |s|; } }
      if j == -1 then -1 else j + 1
  }

  class Conversation {
    var messages: seq<ClientMessage>
    var pendingFiles: seq<FileRef>
    var sending: bool

    /**
     * Every message is a user or assistant message; while no request is in
     * flight there is no placeholder, and while one is, the placeholder is
     * the last message and the only one (unless the list was reset meanwhile).
     */
    ghost predicate Valid()
      reads this
    {
      && ChatRoles(messages)
      && if sending then
           messages == [] || (messages[|messages| - 1] == Placeholder && NoPlaceholder(messages[..|messages| - 1]))
         else NoPlaceholder(messages)
    }

    /** The state when the page loads. */
    constructor ()
      ensures Valid() && messages == [] && pendingFiles == [] && !sending
    {
      messages := [];
      pendingFiles := [];
      sending := false;
    }

    /** The file picker's `change` handler: the chosen files replace the pending ones. */
    method SelectFiles(files: seq<FileRef>)
      requires Valid()
      modifies this
      ensures Valid()
      ensures pendingFiles == files && messages == old(messages) && sending == old(sending)
    {
      pendingFiles := files;
    }

    /** "New question": both lists are emptied. */
    method GoToLandingView()
      requires Valid()
      modifies this
      ensures Valid()
      ensures messages == [] && pendingFiles == [] && sending == old(sending)
    {
      messages := [];
      pendingFiles := [];
    }

    /**
     * `sendToBackend` up to its `await`: raise the flag, show the
     * placeholder, and build the form from the list without the placeholder.
     */
    method BeginSend() returns (payload: Payload)
      requires Valid() && !sending
      modifies this
      ensures Valid() && sending
      ensures messages == old(messages) + [Placeholder] && pendingFiles == old(pendingFiles)
      ensures payload == Payload(old(messages), old(pendingFiles))
    {
      sending := true;
      messages := messages + [Placeholder];
      assert messages[..|messages| - 1] == old(messages);
      WithoutTypingKeeps(old(messages));
      payload := Payload(WithoutTyping(messages), pendingFiles);
    }

    /** Removes the first placeholder, if any is left (`indexOf` then `splice`). */
    method RemovePlaceholder()
      requires Valid() && sending
      modifies this
      ensures NoPlaceholder(messages) && ChatRoles(messages)
      ensures messages == if old(messages) == [] then [] else old(messages)[..|old(messages)| - 1]
      ensures pendingFiles == old(pendingFiles) && sending == old(sending)
    {
      var idx := IndexOf(messages, Placeholder);
      if idx != -1 {
        messages := messages[..idx] + messages[idx + 1..];
      }
    }

    /**
     * `sendToBackend` after its `await`: the placeholder goes, one assistant
     * message comes, the pending files are cleared only when a reply arrived,
     * and the flag is lowered in every case.
     */
    method CompleteSend(result: FetchResult)
      requires Valid() && sending
      modifies this
      ensures Valid() && !sending
      ensures messages == (if old(messages) == [] then [] else old(messages)[..|old(messages)| - 1])
                          + [ReplyMessage(result)]
      ensures pendingFiles == if result.Delivered? then [] else old(pendingFiles)
    {
      match result {
        case Delivered(body) =>
          RemovePlaceholder();
          messages := messages + [ReplyMessage(result)];
          pendingFiles := [];
        case FetchFailed =>
          RemovePlaceholder();
          messages := messages + [ReplyMessage(result)];
      }
      sending := false;
    }

    /**
     * `sendToBackend` as one step: the server is sent the conversation as
     * it was, and exactly one assistant message is appended.
     */
    method SendToBackend(result: FetchResult) returns (payload: Payload)
      requires Valid() && !sending
      modifies this
      ensures Valid() && !sending
      ensures payload == Payload(old(messages), old(pendingFiles))
      ensures messages == old(messages) + [ReplyMessage(result)]
      ensures pendingFiles == if result.Delivered? then [] else old(pendingFiles)
    {
      payload := BeginSend();
      CompleteSend(result);
    }

    /**
     * The submit handler up to the `await`: ignored while a request is in
     * flight or when there is neither text nor a pending file; otherwise the
     * trimmed text becomes a user message and the request is sent.
     */
    method StartSubmit(inputValue: string) returns (payload: Option<Payload>)
      requires Valid()
      modifies this
      ensures Valid()
      ensures SubmitIgnored(old(sending), inputValue, old(pendingFiles)) ==>
        payload == None && messages == old(messages) && pendingFiles == old(pendingFiles) && sending == old(sending)
      ensures !SubmitIgnored(old(sending), inputValue, old(pendingFiles)) ==>
        && payload == Some(Payload(old(messages) + [UserMessage(JsTrim(inputValue))], old(pendingFiles)))
        && messages == old(messages) + [UserMessage(JsTrim(inputValue)), Placeholder]
        && pendingFiles == old(pendingFiles) && sending
    {
      if sending {
        return None;
      }
      var text := JsTrim(inputValue);
      if text == [] && pendingFiles == [] {
        return None;
      }
      AppendKeepsRoles(messages, UserMessage(text));
      AppendKeepsNoPlaceholder(messages, UserMessage(text));
      messages := messages + [UserMessage(text)];
      var p := BeginSend();
      payload := Some(p);
    }

    /** A whole submit, when nothing else happens while the request is in flight. */
    method HandleSubmit(inputValue: string, result: FetchResult) returns (payload: Option<Payload>)
      requires Valid()
      modifies this
      ensures Valid()
      ensures SubmitIgnored(old(sending), inputValue, old(pendingFiles)) ==>
        payload == None && messages == old(messages) && pendingFiles == old(pendingFiles) && sending == old(sending)
      ensures !SubmitIgnored(old(sending), inputValue, old(pendingFiles)) ==>
        && payload == Some(Payload(old(messages) + [UserMessage(JsTrim(inputValue))], old(pendingFiles)))
        && messages == old(messages) + [UserMessage(JsTrim(inputValue)), ReplyMessage(result)]
        && pendingFiles == (if result.Delivered? then [] else old(pendingFiles))
        && !sending
    {
      ghost var asked := messages + [UserMessage(JsTrim(inputValue))];
      payload := StartSubmit(inputValue);
      if payload.Some? {
        assert messages == asked + [Placeholder];
        assert messages[..|messages| - 1] == asked;
        CompleteSend(result);
        assert messages == asked + [ReplyMessage(result)];
        assert asked + [ReplyMessage(result)]
               == old(messages) + [UserMessage(JsTrim(inputValue)), ReplyMessage(result)];
      }
    }
  }

  /** The submit handler's guard: a request is in flight, or there is neither text nor a file to send. */
  predicate SubmitIgnored(sending: bool, inputValue: string, pendingFiles: seq<FileRef>): (ignored: bool)
    ensures ignored <==>
      sending || ((forall i :: 0 <= i < |inputValue| ==> inputValue[i] in JsWhitespace) && pendingFiles == [])
  {
    sending || (JsTrim(inputValue) == [] && pendingFiles == [])
  }

  lemma AppendKeepsRoles(s: seq<ClientMessage>, m: ClientMessage)
    requires ChatRoles(s) && (m.role == "user" || m.role == "assistant")
    ensures ChatRoles(s + [m])
  {
    assert forall i :: 0 <= i < |s| ==> (s + [m])[i] == s[i];
  }

  lemma AppendKeepsNoPlaceholder(s: seq<ClientMessage>, m: ClientMessage)
    requires NoPlaceholder(s) && !m.typing
    ensures NoPlaceholder(s + [m])
  {
    assert forall i :: 0 <= i < |s| ==> (s + [m])[i] == s[i];
  }

  // ----- Interleavings at the await -----

  /**
   * A second submit while the first request is in flight is ignored: the
   * conversation ends with the first question and its one reply.
   */
  method SubmitWhileAwaiting(first: string, second: string, result: FetchResult)
    returns (secondIgnored: bool, final: seq<ClientMessage>)
    requires JsTrim(first) != []
    ensures secondIgnored
    ensures final == [UserMessage(JsTrim(first)), ReplyMessage(result)]
  {
    var c := new Conversation();
    var p1 := c.StartSubmit(first);
    assert c.sending && c.messages == [UserMessage(JsTrim(first)), Placeholder];
    var p2 := c.StartSubmit(second);
    assert c.messages == [UserMessage(JsTrim(first)), Placeholder];
    secondIgnored := p2 == None;
    c.CompleteSend(result);
    final := c.messages;
  }

  /**
   * "New question" pressed while a request is in flight: the placeholder
   * vanishes with the old list, and the late reply still lands, alone, in
   * the new conversation.
   */
  method ResetWhileAwaiting(question: string, result: FetchResult)
    returns (final: seq<ClientMessage>)
    requires JsTrim(question) != []
    ensures final == [ReplyMessage(result)]
  {
    var c := new Conversation();
    var p := c.StartSubmit(question);
    assert c.sending;
    c.GoToLandingView();
    c.CompleteSend(result);
    final := c.messages;
  }

  // ----- What the server makes of a payload -----

  /** The payload's messages as the server decodes them: role and content, nothing else. */
  function Wire(ms: seq<ClientMessage>): (w: seq<RawMessage>)
    ensures |w| == |ms|
    ensures forall i :: 0 <= i < |ms| ==> (Kept(w[i]) <==> ms[i].role == "user" || ms[i].role == "assistant")
    ensures forall i :: 0 <= i < |ms| && Kept(w[i]) ==> Normalize(w[i]) == ChatMessage(ms[i].role, ms[i].content)
  {
    seq(|ms|, i requires 0 <= i < |ms| => RawMessage(Some(ms[i].role), Some(ms[i].content)))
  }

  /** The messages as the provider sees them. */
  function ChatView(ms: seq<ClientMessage>): seq<ChatMessage>
  {
    seq(|ms|, i requires 0 <= i < |ms| => ChatMessage(ms[i].role, ms[i].content))
  }

  /**
   * Every message the page sends reaches the provider, in order, after the
   * system instruction; the sources the page keeps are not sent on.
   */
  lemma ServerForwardsWholeConversation(ms: seq<ClientMessage>)
    requires ChatRoles(ms)
    ensures ProviderRequest(Wire(ms)) == [SystemMessage] + ChatView(ms)
  {
    var w := Wire(ms);
    assert forall i :: 0 <= i < |w| ==> Kept(w[i]);
    ForwardedLength(w);
  }
}
