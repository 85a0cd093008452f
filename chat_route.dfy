/** `POST /api/chat` of backend/index.js: the transcript sent to the language model
    is the fixed system prompt followed by the client's messages, normalised. The
    reply falls back to a fixed sentence when the model returns nothing. The model
    call itself is a parameter. */
module ChatRoute {
  import opened Maybe

  datatype Role = System | User | Assistant

  /** A message of the transcript handed to the model. */
  datatype ChatMessage = ChatMessage(role: Role, content: string)

  /** One element of the request's `messages`. A field is `None` when it is absent,
      `null` or not a string; an element that is `null` has all three `None`. */
  datatype ClientMessage = ClientMessage(role: Option<string>, content: Option<string>, text: Option<string>)

  /** The request's `messages`: an array, or anything else. */
  datatype ClientMessages = NotAnArray | Messages(items: seq<ClientMessage>)

  const SystemPrompt: string :=
    "You are a gentle, supportive companion in a mood journaling app. " +
    "You listen, validate feelings, and offer small, realistic suggestions. " +
    "You are NOT a therapist and must remind users you cannot give medical advice."

  const SystemMessage: ChatMessage := ChatMessage(System, SystemPrompt)

  const FallbackReply: string := "I'm here with you. I'm listening."
  const ChatServerError: string := "chat server error"
  const UnavailableReply: string := "Sorry\U{2014}chat is unavailable right now. Please try again in a moment."

  /** `m?.content || m?.text`, with the empty string for a falsy result: `content` when
      it is a non-empty string, `text` otherwise. */
  function ContentOf(m: ClientMessage): (c: string)
    ensures m.content.Some? && m.content.value != "" ==> c == m.content.value
    ensures (m.content.None? || m.content.value == "") ==> c == m.text.GetOr("")
  {
    if m.content.Some? && m.content.value != "" then m.content.value else m.text.GetOr("")
  }

  /** `m.role === "user" ? "user" : "assistant"`. */
  function RoleOf(role: Option<string>): (r: Role)
    ensures r != System
    ensures r == User <==> role == Some("user")
  {
    if role == Some("user") then User else Assistant
  }

  /** What one kept client message becomes. */
  function Converted(m: ClientMessage): ChatMessage {
    ChatMessage(RoleOf(m.role), ContentOf(m))
  }

  /** The client's part of the transcript: each message with content, converted, in
      order; messages without content are dropped. */
  function Normalised(items: seq<ClientMessage>): (ms: seq<ChatMessage>)
    ensures |ms| <= |items|
  {
    if items == [] then []
    else
      var m := items[|items| - 1];
      Normalised(items[..|items| - 1]) + (if ContentOf(m) == "" then [] else [Converted(m)])
  }

  /** The whole transcript: the system prompt, then the client's messages when
      `messages` is an array. */
  function Transcript(messages: ClientMessages): (t: seq<ChatMessage>)
    ensures |t| >= 1 && t[0] == SystemMessage
    ensures messages.Messages? ==> |t| <= |messages.items| + 1
  {
    [SystemMessage] + (if messages.Messages? then Normalised(messages.items) else [])
  }

  /** The handler's loop that builds `chatMessages`. */
  method BuildChatMessages(messages: ClientMessages) returns (chatMessages: seq<ChatMessage>)
    ensures chatMessages == Transcript(messages)
  {
    chatMessages := [SystemMessage];
    if messages.Messages? {
      var items := messages.items;
      for i := 0 to |items|
        invariant chatMessages == [SystemMessage] + Normalised(items[..i])
      {
        assert items[..i + 1][..i] == items[..i];
        var m := items[i];
        var content := if m.content.Some? && m.content.value != "" then m.content.value else m.text.GetOr("");
        if content == "" {
          continue;
        }
        chatMessages := chatMessages + [ChatMessage(if m.role == Some("user") then User else Assistant, content)];
      }
      assert items[..|items|] == items;
    }
  }

  // ---- what the normalisation promises ----

  /** Normalising a concatenation normalises each part: the kept messages stay in their
      order. */
  lemma {:induction false} NormalisedAppend(a: seq<ClientMessage>, b: seq<ClientMessage>)
    ensures Normalised(a + b) == Normalised(a) + Normalised(b)
  {
    if b == [] {
      assert a + b == a;
    } else {
      assert (a + b)[..|a + b| - 1] == a + b[..|b| - 1];
      NormalisedAppend(a, b[..|b| - 1]);
    }
  }

  /** A message without content is dropped; one with content yields exactly one message
      with that content, as a user message exactly when its role was "user". */
  lemma NormalisedSingle(m: ClientMessage)
    ensures ContentOf(m) == "" ==> Normalised([m]) == []
    ensures ContentOf(m) != "" ==> Normalised([m]) == [ChatMessage(RoleOf(m.role), ContentOf(m))]
    ensures ContentOf(m) != "" ==> (Normalised([m])[0].role == User <==> m.role == Some("user"))
  {
    assert [m][..0] == [];
  }

  /** Every message of the client's part has content, is not a system message, and is
      the conversion of some client message that has content. */
  lemma {:induction false} NormalisedMessages(items: seq<ClientMessage>)
    ensures forall i :: 0 <= i < |Normalised(items)| ==>
      Normalised(items)[i].role != System && Normalised(items)[i].content != "" &&
      exists j :: 0 <= j < |items| && ContentOf(items[j]) != "" && Normalised(items)[i] == Converted(items[j])
  {
    if items != [] {
      var init := items[..|items| - 1];
      NormalisedMessages(init);
      forall i | 0 <= i < |Normalised(init)|
        ensures exists j :: 0 <= j < |items| && ContentOf(items[j]) != "" && Normalised(init)[i] == Converted(items[j])
      {
        var j :| 0 <= j < |init| && ContentOf(init[j]) != "" && Normalised(init)[i] == Converted(init[j]);
        assert items[j] == init[j];
      }
    }
  }

  /** When every client message has content, none is dropped and each is converted in
      place. */
  lemma {:induction false} NormalisedKeepsAll(items: seq<ClientMessage>)
    requires forall j :: 0 <= j < |items| ==> ContentOf(items[j]) != ""
    ensures |Normalised(items)| == |items|
    ensures forall i :: 0 <= i < |items| ==> Normalised(items)[i] == Converted(items[i])
  {
    if items != [] {
      NormalisedKeepsAll(items[..|items| - 1]);
    }
  }

  /** The transcript opens with the system prompt and holds no other system message, so
      no client message can pose as the system. Without an array it is the prompt alone. */
  lemma ExactlyOneSystemMessage(messages: ClientMessages)
    ensures var t := Transcript(messages);
      |t| >= 1 && t[0] == SystemMessage &&
      (forall i :: 1 <= i < |t| ==> t[i].role != System)
    ensures messages.NotAnArray? ==> Transcript(messages) == [SystemMessage]
  {
    if messages.Messages? {
      NormalisedMessages(messages.items);
    }
  }

  // ---- the reply ----

  /** `completion.choices?.[0]?.message?.content || "I'm here with you. I'm listening."`:
      the model's content when it is a non-empty string, the fallback otherwise. */
  function ReplyOf(content: Option<string>): (reply: string)
    ensures reply != ""
    ensures content.Some? && content.value != "" ==> reply == content.value
    ensures (content.None? || content.value == "") ==> reply == FallbackReply
  {
    if content.Some? && content.value != "" then content.value else FallbackReply
  }

  /** The JSON the handler answers with: `{ reply }`, or the 500 body. */
  datatype ChatResponse = Reply(reply: string) | ServerError(error: string, reply: string)

  /** The handler's answer for the model call's outcome: `None` when the call throws,
      otherwise the content of the first choice (`None` when there is none). */
  function ChatResult(completion: Option<Option<string>>): (r: ChatResponse)
    ensures completion.None? <==> r.ServerError?
    ensures r.ServerError? ==> r.error == ChatServerError && r.reply == UnavailableReply
    ensures r.Reply? ==> r.reply == ReplyOf(completion.value)
  {
    match completion
    case None => ServerError(ChatServerError, UnavailableReply)
    case Some(content) => Reply(ReplyOf(content))
  }

  /** Whatever happens, the body carries a non-empty reply. */
  lemma ReplyNeverEmpty(completion: Option<Option<string>>)
    ensures ChatResult(completion).reply != ""
  {
  }
}
