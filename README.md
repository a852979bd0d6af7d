# BallotBuddy chat cycle in Dafny

BallotBuddy is a one-page chat assistant for Georgia voting questions,
contained in a single Flask application file (`ballotbuddy_app.py`). This
project models the part of it that has behaviour to prove: one round trip of
a conversation.

* **Server.** The `/api/chat` handler `api_chat` decodes the posted
  `messages` field. A field that does not decode counts as an empty
  conversation. The handler puts the fixed system instruction in front of the
  messages and keeps only user and assistant entries. Content that is missing
  becomes `""`. It then calls the completion provider. On success the reply
  is the stripped first choice plus the three official Georgia links. On any
  failure it is a fixed apology that names the 866-OUR-VOTE hotline, with no
  links.
* **Message rendering.** The page's `formatMessageHtml` escapes `&`, `<` and
  `>`, then turns line feeds into `<br/>`.
* **Page state.** The page keeps `messages`, `pendingFiles` and `sending`. It
  has three handlers over them:
  * the submit handler and its guard;
  * `sendToBackend`, which shows a "Thinking…" placeholder, posts the
    conversation without the placeholder, and swaps the placeholder for the
    reply or for a "server unreachable" message;
  * the "New question" reset, `goToLandingView`.

## Layout

* `wrappers.dfy` holds `Option`.
* `text.dfy` holds whitespace trimming and substring occurrence.
  * Python's `str.strip()` and JavaScript's `String.prototype.trim()` remove
    different character sets, so each has its own set.
  * `Trim` is specified by `IsTrimOf`: the result is the input with
    whitespace cut from both ends and nothing else changed.
* `chat_service.dfy` models the `/api/chat` handler.
  * JSON decoding is the function parameter `decode`. `None` means
    `json.loads` raised.
  * The provider call is the function parameter `provider`, which returns a
    `ProviderOutcome`.
  * The handler's loop is the method `BuildChatMessages`. It is proved equal
    to the recursive specification `Forwarded`.
  * `KeptIndices` gives the positions that are forwarded. It ties each
    forwarded entry to the message it came from.
* `html_format.dfy` models `formatMessageHtml` with JavaScript's global
  `replace` calls, and an inverse built from the same replacements.
  * The round trip is proved through "escape levels". At level k, the first
    k of the four rewritten characters are already written as their
    replacement.
* `client.dfy` models the page state as the class `Conversation`.
  * `sendToBackend` suspends at `await fetch(...)` and again at
    `await res.json()` (`ballotbuddy_app.py:1125-1126`). Nothing between the
    two touches the page state, so the model treats them as one suspension.
    `sendToBackend` is split there into `BeginSend` and `CompleteSend`, so
    other handlers can run in between. `SendToBackend` composes the two.
  * How the request ended is the parameter `FetchResult`. It is either a
    parsed reply or an exception.

Two behaviours of the code that are easy to miss are modelled as written:

* Pending attachments are cleared only on the success path
  (`ballotbuddy_app.py:1137`), so a failed request keeps them.
  `CompleteSend` states this.
* While the request is read, only decoding errors are caught
  (`ballotbuddy_app.py:1227-1231`): a field that does not decode counts as an
  empty conversation, while a decoded value of the wrong shape raises in the
  loop at 1258-1260, outside any `try` (see "Left out"). Errors of the
  provider call and of reading its first choice are caught at 1262-1269 and
  give the fallback reply.

## Model

| member | source | states |
|---|---|---|
| Text.Trim | ballotbuddy_app.py:1268 | Only whitespace is removed, and only from the ends; the rest of the text is kept unchanged; neither end of the result is whitespace |
| Text.TrimOfTrimmed | ballotbuddy_app.py:1268 | Text that neither starts nor ends with whitespace is left unchanged by stripping |
| Text.TrimIdempotent | ballotbuddy_app.py:1268 | Stripping twice gives the same result as stripping once |
| Text.PyStrip | ballotbuddy_app.py:1268 | The stripped answer is the completion text with Python whitespace cut from both ends only, and neither end of it is whitespace |
| Text.JsTrim | ballotbuddy_app.py:1098 | The trimmed input is the input with JavaScript whitespace cut from both ends only, neither end of it is whitespace, and it is empty exactly when the input is blank |
| Text.TrimEmptyIffBlank | ballotbuddy_app.py:1098-1099 | The trimmed input is empty exactly when every character of the input is whitespace, so the submit guard sees only blank input as empty |
| ChatService.UserMessages | ballotbuddy_app.py:1227-1231 | The conversation is exactly the decoded list when decoding succeeds and empty when it fails; with the `"[]"` default a missing field is empty too (see MalformedFieldActsAsEmpty) |
| ChatService.Forwarded | ballotbuddy_app.py:1258-1260 | The forwarded entries are never more than the messages and all have the user or assistant role; which ones and in what order is stated by ForwardedAtKeptIndex, KeptIndicesComplete and ForwardedAppend |
| ChatService.ProviderRequest | ballotbuddy_app.py:1257-1260 | The provider list is never empty, starts with the system instruction and has no system entry after it; at most one entry per message is added |
| ChatService.KeptIndices | ballotbuddy_app.py:1257-1260 | One strictly increasing position in the posted list for each forwarded entry, and each such position holds a user or assistant message |
| ChatService.ForwardedAtKeptIndex | ballotbuddy_app.py:1257-1260 | The k-th forwarded entry has the role and content (or `""` when content is missing) of the message at the k-th kept position |
| ChatService.KeptIndicesComplete | ballotbuddy_app.py:1259 | Every message whose role is "user" or "assistant" is forwarded |
| ChatService.BuildChatMessages | ballotbuddy_app.py:1257-1260 | The handler's loop produces the system entry followed by the forwarded entries in order |
| ChatService.ProviderRequestShape | ballotbuddy_app.py:1257-1260 | The provider list has the system instruction first, then one entry per kept message, and no later entry has any role but user or assistant |
| ChatService.ForwardedMembers | ballotbuddy_app.py:1258-1260 | An entry is forwarded if and only if it is the normalised form of some user or assistant message of the input |
| ChatService.ForwardedAppend | ballotbuddy_app.py:1258-1260 | Filtering commutes with concatenation, so the relative order of the messages is preserved |
| ChatService.ForwardedLength | ballotbuddy_app.py:1258-1260 | Nothing is added; the list shrinks exactly when some message has another role; when none does, entry i is message i |
| ChatService.MalformedFieldActsAsEmpty | ballotbuddy_app.py:1227-1231 | A field that fails to decode leads to the same exchange as `"[]"` and as a missing field: the provider sees only the system instruction |
| ChatService.CompletionText | ballotbuddy_app.py:1268-1269 | A text is read only from the first choice of a returned completion; a returned completion with choices gives exactly its first choice's content; an exception or an empty choice list gives none (a null content also gives none) |
| ChatService.Respond | ballotbuddy_app.py:1262-1298 | Sources are empty exactly when the provider failed; on failure the answer is the fallback apology; on success the answer is the stripped completion text and there are three sources |
| ChatService.ApiChat | ballotbuddy_app.py:1219-1298 | The handler's result is the exchange given by the request built from the decoded field and the reply built from the provider's outcome on that request |
| ChatService.ChatExchange | ballotbuddy_app.py:1227-1298 | The provider is handed a list that starts with the system instruction and has at most one entry per decoded message; a decoded conversation reaches the provider as the system instruction followed by its forwarded entries; the reply has no sources exactly when the provider's answer to that list cannot be read, and then carries the fallback apology; a readable answer comes back stripped with the three default links |
| ChatService.FallbackNamesHotline | ballotbuddy_app.py:1271-1280 | The fallback answer is not empty and contains the hotline 866-OUR-VOTE |
| ChatService.SourcesIndependentOfAnswer | ballotbuddy_app.py:1282-1298 | Any two successful replies carry the same three default links, whatever the answers say |
| ChatService.SuccessfulAnswerIsStripped | ballotbuddy_app.py:1268 | A successful answer neither starts nor ends with whitespace |
| ChatService.OneQuestionScenario | ballotbuddy_app.py:1227-1298 | For a one-question conversation, the provider receives the system instruction and the question, and the reply is the stripped answer with the default links |
| ChatService.MalformedFieldScenario | ballotbuddy_app.py:1227-1298 | For a field that does not decode, the provider receives only the system instruction, and its answer still comes back with the default links |
| HtmlFormat.ReplaceChar | ballotbuddy_app.py:969-972 | Text without the character is left unchanged; every character of the result is either a character of the text other than the replaced one or a character of the replacement, so the replaced character is gone when the replacement lacks it; a non-empty replacement never shortens the text |
| HtmlFormat.ReplaceCharAppend | ballotbuddy_app.py:969-972 | A global replacement acts character by character: replacing in a concatenation is replacing in each part |
| HtmlFormat.FormatMessageHtml | ballotbuddy_app.py:966-973 | The HTML is empty exactly when the text is empty |
| HtmlFormat.FormatIsEncode | ballotbuddy_app.py:968-972 | The four chained replacements write each character as its own entity or tag, independently of its neighbours |
| HtmlFormat.FormatRoundTrip | ballotbuddy_app.py:966-973 | Undoing the replacements in reverse order recovers the message text exactly |
| HtmlFormat.FormatInjective | ballotbuddy_app.py:966-973 | Two different messages never render to the same HTML |
| HtmlFormat.FormatHasNoLineFeed | ballotbuddy_app.py:972 | No line feed remains in the HTML |
| HtmlFormat.FormatOnlyBreakTags | ballotbuddy_app.py:966-973 | Every `<` in the HTML opens a `<br/>` and every `>` closes one, so no other markup can be injected |
| Client.ReplyMessage | ballotbuddy_app.py:1131-1149 | The appended message is a non-empty assistant message and not a placeholder; a non-empty answer is shown as it came; a delivered reply keeps its sources; a failed request shows a message naming the hotline, with no sources |
| Client.WithoutTyping | ballotbuddy_app.py:1122 | A message is in the filtered list exactly when it is in the original and is not a placeholder; the list is no longer than the original |
| Client.WithoutTypingAppend | ballotbuddy_app.py:1122 | The filter acts message by message, so the kept messages keep their relative order |
| Client.WithoutTypingKeeps | ballotbuddy_app.py:1122 | A list without placeholders passes the filter unchanged |
| Client.IndexOf | ballotbuddy_app.py:1128 | The result is -1 exactly when the element is absent; otherwise it is the first position holding the element |
| Client.Conversation.constructor | ballotbuddy_app.py:894-897 | The page starts with no messages, no pending files and no request in flight |
| Client.Conversation.SelectFiles | ballotbuddy_app.py:1076-1079 | The chosen files replace the pending ones; nothing else changes |
| Client.Conversation.GoToLandingView | ballotbuddy_app.py:1056-1058 | Both lists are emptied; the in-flight flag is not touched |
| Client.Conversation.BeginSend | ballotbuddy_app.py:1115-1123 | The flag is raised; the placeholder is appended; the form carries the conversation as it was before the placeholder, plus the pending files |
| Client.Conversation.RemovePlaceholder | ballotbuddy_app.py:1128-1129 | The placeholder, if still present, is removed; no placeholder is left |
| Client.Conversation.CompleteSend | ballotbuddy_app.py:1125-1153 | The placeholder is replaced by exactly one reply message; pending files are cleared only when a reply was delivered; the flag is lowered in every case |
| Client.Conversation.SendToBackend | ballotbuddy_app.py:1114-1154 | Sends the conversation as it stood and appends exactly one assistant message |
| Client.Conversation.StartSubmit | ballotbuddy_app.py:1095-1105 | Ignored while a request is in flight or when there is neither trimmed text nor a pending file; otherwise the trimmed text is appended as a user message and sent together with it |
| Client.Conversation.HandleSubmit | ballotbuddy_app.py:1093-1106 | A whole submit with no interleaving: the conversation gains the question and its one reply, and the form carried the question |
| Client.SubmitWhileAwaiting | ballotbuddy_app.py:1097 | A second submit during a pending request is ignored, and the conversation ends with the first question and its single reply |
| Client.ResetWhileAwaiting | ballotbuddy_app.py:1128-1136 | After a reset during a pending request, the late reply still lands, alone, in the new conversation |
| Client.SubmitIgnored | ballotbuddy_app.py:1097-1099 | A submit is ignored exactly when a request is in flight, or when the input is blank and no file is pending |
| Client.Wire | ballotbuddy_app.py:1122 | One decoded entry per sent message; the server keeps an entry exactly when the message has the user or assistant role, and then forwards its role and content |
| Client.ServerForwardsWholeConversation | ballotbuddy_app.py:1257-1260 | Every message the page sends reaches the provider, in order, after the system instruction |

## Left out

- JSON decoding (`json.loads`, `JSON.stringify`, `res.json()`) is not modelled; it is the parameter `decode` on the server and part of `FetchResult` on the page.
- ChatService.UserMessages: a `messages` value that decodes to something other than a list is not modelled. An empty object or an empty string iterates as nothing and behaves like `[]`. A non-empty object, or a list with an element that is not an object, makes the loop at 1258-1260 raise outside the `try`, and that error reply is not modelled.
- ChatService.RawMessage: a role that is not a string is dropped at 1259 like any other role, which the model expresses by any string other than "user" and "assistant". A content of `null` or of another non-string type is forwarded as it is at 1260 (`m.get` gives `None` for an explicit `null`, not `""`). It is not representable in `RawMessage`, whose `None` content means only that the key is missing. If the provider then rejects the request, that is the fallback path inside the `try`.
- The provider call (the OpenAI client, the model name, the temperature) is not modelled; it is the parameter `provider`, and only the content of the first choice matters.
- The server ignores uploaded files; the model's handler takes no files.
- The server's logging (`print`), and the page's `console.error`, are not modelled.
- Flask routing, `jsonify`, HTTP status codes, `render_template_string`, the page template and the `PORT` setting are not modelled.
- `res.ok` is never checked by the page; an error status whose body parses is modelled like any delivered reply.
- `data.answer` of a non-string type, and `data.sources` that are not an array (the page substitutes `[]`), are not modelled; a reply always carries a string and a list.
- Rendering (`renderMessages`, `renderAttachedFiles`), `goToChatView`, clearing the input boxes, and removing an attachment chip are not modelled; they only touch the page, except that the chip's remove button deletes one pending file.
- Speech synthesis, the theme, settings, `localStorage` persistence and the topic cards are not modelled.
- Client.IndexOf: finds the placeholder by value rather than by object identity. This is the same here, because `Valid` keeps the placeholder as the only typing message.
- Client.Conversation: interleavings are modelled only at the `await`s of `sendToBackend`, and its two `await`s (1125 and 1126) are one step. No handler that runs between them can be observed separately.
