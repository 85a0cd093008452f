/** The state of components/SupportChatCard.native.jsx and its `handleSend`. A send is
    two steps because the request is awaited in between. `BeginSend` runs up to the
    request and returns the payload it posts (if any). `CompleteSend` runs once the
    request settles, with its outcome as a parameter. */
module SupportChat {
  import opened Maybe
  import opened Strings
  import opened ChatRoute

  /** A message of the card: `{ role, text }`. */
  datatype CardMessage = CardMessage(role: string, text: string)

  /** A message of the posted payload: `{ role, content }`. */
  datatype PayloadMessage = PayloadMessage(role: string, content: string)

  /** How the `axios.post` settles: with a body whose `reply` is `None` when missing or
      not a string, or by throwing (a network error or a non-2xx status). */
  datatype SendOutcome = Replied(reply: Option<string>) | Failed

  const Greeting: CardMessage :=
    CardMessage("assistant",
      "Hi, I\U{2019}m your AI buddy. I can listen and give gentle suggestions, " +
      "but I\U{2019}m not a professional. What\U{2019}s on your mind?")

  const NoReply: string := "(No reply received)"
  const Apology: string := "Sorry, I had trouble connecting right now. Please try again."

  /** `messages.map((m) => ({ role: m.role, content: m.text }))`. */
  function PayloadOf(messages: seq<CardMessage>): (p: seq<PayloadMessage>)
    ensures |p| == |messages|
    ensures forall i :: 0 <= i < |messages| ==> p[i].role == messages[i].role && p[i].content == messages[i].text
  {
    seq(|messages|, i requires 0 <= i < |messages| => PayloadMessage(messages[i].role, messages[i].text))
  }

  /** The assistant message that a settled request appends: the reply when it is a
      non-empty string, "(No reply received)" when it is not, an apology when the
      request failed. */
  function ReplyText(outcome: SendOutcome): (text: string)
    ensures text != ""
    ensures outcome.Failed? ==> text == Apology
    ensures outcome.Replied? && outcome.reply.Some? && outcome.reply.value != "" ==> text == outcome.reply.value
    ensures outcome.Replied? && (outcome.reply.None? || outcome.reply.value == "") ==> text == NoReply
  {
    match outcome
    case Failed => Apology
    case Replied(reply) => if reply.Some? && reply.value != "" then reply.value else NoReply
  }

  /** What the card can hold. It keeps the greeting first, and every message has text.
      Every user message has been trimmed and is not blank. Every other message is an
      assistant message. */
  predicate WellFormed(messages: seq<CardMessage>) {
    |messages| >= 1 && messages[0] == Greeting &&
    forall i :: 0 <= i < |messages| ==>
      messages[i].text != "" &&
      (messages[i].role == "user" || messages[i].role == "assistant") &&
      (messages[i].role == "user" ==> messages[i].text == Trim(messages[i].text))
  }

  class SupportCard {
    var isOpen: bool
    var messages: seq<CardMessage>
    var input: string
    var loading: bool

    predicate Valid()
      reads this
    {
      WellFormed(messages)
    }

    /** The initial state: closed, the greeting alone, no input, not loading. */
    constructor ()
      ensures Valid()
      ensures !isOpen && messages == [Greeting] && input == "" && !loading
    {
      isOpen := false;
      messages := [Greeting];
      input := "";
      loading := false;
    }

    /** The switch's `onValueChange={setIsOpen}`. */
    method SetOpen(open: bool)
      modifies this
      ensures isOpen == open && messages == old(messages) && input == old(input) && loading == old(loading)
    {
      isOpen := open;
    }

    /** The text field's `onChangeText={setInput}`. */
    method SetInput(text: string)
      modifies this
      ensures input == text && isOpen == old(isOpen) && messages == old(messages) && loading == old(loading)
    {
      input := text;
    }

    /** `handleSend` up to the request. An input that trims to nothing (a blank one, by
        `TrimEmptyIffBlank`) or a send already under way returns at once and changes
        nothing. Otherwise the trimmed input is appended as one user message, the input
        is cleared, loading is set, and the payload with the whole new transcript is
        returned. */
    method BeginSend() returns (payload: Option<seq<PayloadMessage>>)
      requires Valid()
      modifies this
      ensures Valid()
      ensures isOpen == old(isOpen)
      ensures payload.None? <==> Trim(old(input)) == [] || old(loading)
      ensures payload.None? ==> messages == old(messages) && input == old(input) && loading == old(loading)
      ensures payload.Some? ==>
        messages == old(messages) + [CardMessage("user", Trim(old(input)))] &&
        input == "" && loading && payload.value == PayloadOf(messages)
    {
      var text := Trim(input);
      if text == [] || loading {
        return None;
      }
      TrimIdempotent(input);
      AppendKeepsWellFormed(messages, CardMessage("user", text));
      var newMessages := messages + [CardMessage("user", text)];
      messages := newMessages;
      input := "";
      loading := true;
      payload := Some(PayloadOf(newMessages));
    }

    /** `handleSend` after the request settles: exactly one assistant message is
        appended, to the messages as they are by then, and loading is cleared. */
    method CompleteSend(outcome: SendOutcome)
      requires Valid()
      modifies this
      ensures Valid()
      ensures messages == old(messages) + [CardMessage("assistant", ReplyText(outcome))]
      ensures !loading && input == old(input) && isOpen == old(isOpen)
    {
      var replyText := ReplyText(outcome);
      AppendKeepsWellFormed(messages, CardMessage("assistant", replyText));
      messages := messages + [CardMessage("assistant", replyText)];
      loading := false;
    }

    /** A whole `handleSend` when nothing else happens while the request is out: either
        nothing changes, or the transcript grows by the user's trimmed message and then
        the one assistant message for the outcome, and the card is ready to send again. */
    method HandleSend(outcome: SendOutcome) returns (payload: Option<seq<PayloadMessage>>)
      requires Valid()
      modifies this
      ensures Valid()
      ensures isOpen == old(isOpen)
      ensures payload.None? <==> Trim(old(input)) == [] || old(loading)
      ensures payload.None? ==> messages == old(messages) && input == old(input) && loading == old(loading)
      ensures payload.Some? ==>
        messages == old(messages) + [CardMessage("user", Trim(old(input))), CardMessage("assistant", ReplyText(outcome))] &&
        input == "" && !loading &&
        payload.value == PayloadOf(old(messages) + [CardMessage("user", Trim(old(input)))])
    {
      payload := BeginSend();
      if payload.Some? {
        CompleteSend(outcome);
      }
    }
  }

  /** Appending a message with text keeps the card well formed, when it is an assistant
      message or a trimmed user message. */
  lemma AppendKeepsWellFormed(messages: seq<CardMessage>, m: CardMessage)
    requires WellFormed(messages)
    requires m.text != "" && (m.role == "user" || m.role == "assistant")
    requires m.role == "user" ==> m.text == Trim(m.text)
    ensures WellFormed(messages + [m])
  {
    var ms := messages + [m];
    assert ms[|messages|] == m;
    assert forall i :: 0 <= i < |messages| ==> ms[i] == messages[i];
  }

  /** Trimming a trimmed string changes nothing. */
  lemma TrimIdempotent(s: string)
    ensures Trim(Trim(s)) == Trim(s)
  {
    var t := Trim(s);
    if t != [] {
      assert LeadingSpaces(t) == 0;
      assert TrimEnd(t) == t;
    }
  }

  // ---- the card and the chat route together ----

  /** How the server's `express.json` reads a payload message: `role` and `content` are
      strings and there is no `text`. */
  function AsClientMessage(p: PayloadMessage): ClientMessage {
    ClientMessage(Some(p.role), Some(p.content), None)
  }

  function AsClientMessages(payload: seq<PayloadMessage>): (ms: seq<ClientMessage>)
    ensures |ms| == |payload| && forall i :: 0 <= i < |payload| ==> ms[i] == AsClientMessage(payload[i])
  {
    seq(|payload|, i requires 0 <= i < |payload| => AsClientMessage(payload[i]))
  }

  /** The payload a well-formed card posts reaches the model whole: after the system
      prompt comes every card message, greeting included, in order, with its text.
      User messages arrive as user messages and the rest as assistant messages. */
  lemma PayloadReachesModel(messages: seq<CardMessage>)
    requires WellFormed(messages)
    ensures var t := Transcript(Messages(AsClientMessages(PayloadOf(messages))));
      |t| == |messages| + 1 && t[0] == SystemMessage &&
      forall i :: 0 <= i < |messages| ==> t[i + 1] == ChatMessage(RoleOf(Some(messages[i].role)), messages[i].text)
  {
    var payload := PayloadOf(messages);
    var items := AsClientMessages(payload);
    forall j | 0 <= j < |items| ensures ContentOf(items[j]) == messages[j].text != "" {
      assert items[j] == ClientMessage(Some(messages[j].role), Some(messages[j].text), None);
    }
    NormalisedKeepsAll(items);
    var n := Normalised(items);
    var t := Transcript(Messages(items));
    assert t == [SystemMessage] + n;
    forall i | 0 <= i < |messages| ensures t[i + 1] == ChatMessage(RoleOf(Some(messages[i].role)), messages[i].text) {
      assert n[i] == Converted(items[i]);
      assert t[i + 1] == n[i];
    }
  }

  /** How the card's `axios.post` settles on the chat route's answer: a 200 body is
      read for its `reply`; the 500 makes the call throw. */
  function OutcomeOf(response: ChatResponse): SendOutcome {
    match response
    case Reply(reply) => Replied(Some(reply))
    case ServerError(_, _) => Failed
  }

  /** What the card shows for what the model did. A model failure shows the card's
      apology, not the route's 500 reply. Otherwise the card shows the model's content,
      or the route's fallback sentence when that content is empty. So the card's own
      "(No reply received)" never appears, unless the model itself wrote those words. */
  lemma RouteReplyShown(completion: Option<Option<string>>)
    ensures completion.None? ==> ReplyText(OutcomeOf(ChatResult(completion))) == Apology
    ensures completion.Some? ==> ReplyText(OutcomeOf(ChatResult(completion))) == ReplyOf(completion.value)
    ensures ReplyText(OutcomeOf(ChatResult(completion))) == NoReply ==>
      completion.Some? && completion.value == Some(NoReply)
  {
  }
}
