/** The chat panel (src/components/chat/ChatInterface.tsx): it turns the
    stored chat history, one record per question-and-answer exchange, into
    the list of speech bubbles, and guards the send form against blank
    input. Sending itself is the caller's `onSendMessage`, an input here. */
module ChatInterface {
  import opened Basics

  /** One stored exchange (`ChatMessage` of src/types/content.ts). */
  datatype ChatMessage = ChatMessage(id: int, prompt: string, response: string, timestamp: string)

  datatype Sender = FromUser | FromBot

  datatype DisplayMessage = DisplayMessage(id: int, text: string, sender: Sender, timestamp: string)

  /** The two bubbles of one exchange: the user's prompt numbered `2·id − 1`
      and the bot's response numbered `2·id`, both stamped with the
      exchange's time. */
  function BubblesOf(chat: ChatMessage): (b: seq<DisplayMessage>)
    ensures |b| == 2
    ensures b[0].sender == FromUser && b[0].text == chat.prompt && b[0].id == 2 * chat.id - 1
    ensures b[1].sender == FromBot && b[1].text == chat.response && b[1].id == 2 * chat.id
    ensures b[0].timestamp == chat.timestamp == b[1].timestamp
  {
    [DisplayMessage(chat.id * 2 - 1, chat.prompt, FromUser, chat.timestamp),
     DisplayMessage(chat.id * 2, chat.response, FromBot, chat.timestamp)]
  }

  /** The `flatMap` over the history: bubble `k` is bubble `k mod 2` of
      exchange `k div 2`, so bubbles `2i` and `2i + 1` are the prompt and the
      response of exchange `i`, in history order. */
  function DisplayMessages(history: seq<ChatMessage>): (msgs: seq<DisplayMessage>)
    ensures |msgs| == 2 * |history|
    ensures forall k | 0 <= k < |msgs| :: msgs[k] == BubblesOf(history[k / 2])[k % 2]
  {
    if history == [] then []
    else
      var rest := DisplayMessages(history[1..]);
      var msgs := BubblesOf(history[0]) + rest;
      forall k | 2 <= k < |msgs|
        ensures msgs[k] == BubblesOf(history[k / 2])[k % 2]
      {
        assert msgs[k] == rest[k - 2];
        assert (k - 2) / 2 == k / 2 - 1 && (k - 2) % 2 == k % 2;
        assert history[1..][k / 2 - 1] == history[k / 2];
      }
      msgs
  }

  /** Reads the history back out of a list of bubbles, two at a time. */
  function Exchanges(msgs: seq<DisplayMessage>): (history: seq<ChatMessage>)
    requires |msgs| % 2 == 0
    ensures |history| == |msgs| / 2
    decreases |msgs|
  {
    if msgs == [] then []
    else [ChatMessage(msgs[1].id / 2, msgs[0].text, msgs[1].text, msgs[1].timestamp)] + Exchanges(msgs[2..])
  }

  /** Flattening loses nothing: the history can be read back from the
      bubbles. */
  lemma {:induction false} ExchangesOfDisplayMessages(history: seq<ChatMessage>)
    ensures Exchanges(DisplayMessages(history)) == history
  {
    if history != [] {
      var head := BubblesOf(history[0]);
      var rest := DisplayMessages(history[1..]);
      assert DisplayMessages(history) == head + rest;
      assert (head + rest)[2..] == rest;
      ExchangesOfDisplayMessages(history[1..]);
      assert (history[0].id * 2) / 2 == history[0].id;
      assert [history[0]] + history[1..] == history;
    }
  }

  /** Bubble `k` carries id `2·id − 1` of exchange `k div 2` at an even
      position (the prompt) and `2·id` at an odd one (the response). */
  lemma BubbleIdAt(history: seq<ChatMessage>, k: int)
    requires 0 <= k < 2 * |history|
    ensures DisplayMessages(history)[k].id == 2 * history[k / 2].id - 1 + k % 2
  {
    var b := BubblesOf(history[k / 2]);
    assert DisplayMessages(history)[k] == b[k % 2];
    if k % 2 == 0 {
      assert b[k % 2] == b[0];
    } else {
      assert b[k % 2] == b[1];
    }
  }

  predicate DistinctIds(history: seq<ChatMessage>) {
    forall x, y | 0 <= x < y < |history| :: history[x].id != history[y].id
  }

  /** Exchanges with distinct ids give bubbles with distinct ids, so the
      bubble ids are usable as React keys. */
  lemma {:induction false} DistinctBubbleIds(history: seq<ChatMessage>, a: int, b: int)
    requires DistinctIds(history)
    requires 0 <= a < b < 2 * |history|
    ensures DisplayMessages(history)[a].id != DisplayMessages(history)[b].id
  {
    BubbleIdAt(history, a);
    BubbleIdAt(history, b);
    if a / 2 != b / 2 {
      assert a / 2 < b / 2;
      assert history[a / 2].id != history[b / 2].id;
    }
  }

  /** The form's state after a submit: the text left in the input and the
      message handed to `onSendMessage`, if any. */
  datatype SendOutcome = SendOutcome(input: string, sent: Option<string>)

  /** `handleSendMessage`: a blank input sends nothing and stays as it is;
      otherwise the trimmed text is sent and the input is cleared. The sent
      text is never blank and carries no surrounding whitespace. */
  function HandleSend(input: string): (o: SendOutcome)
    ensures o.sent.None? <==> IsBlank(input)
    ensures o.sent.None? ==> o.input == input
    ensures o.sent.Some? ==> o.input == "" && o.sent.value == Trim(input)
    ensures o.sent.Some? ==> !IsBlank(o.sent.value) && Trim(o.sent.value) == o.sent.value
  {
    if IsBlank(input) then SendOutcome(input, None)
    else
      TrimIdempotent(input);
      SendOutcome("", Some(Trim(input)))
  }

  /** The Send button's `disabled` attribute: set exactly when pressing the
      button would send nothing. */
  function SendDisabled(input: string): (disabled: bool)
    ensures disabled <==> HandleSend(input).sent.None?
    ensures !disabled ==> HandleSend(input).input == ""
  {
    Trim(input) == ""
  }

  /** The button is disabled exactly when pressing it would send nothing. */
  lemma DisabledIffNothingSent(input: string)
    ensures SendDisabled(input) <==> HandleSend(input).sent.None?
  {
  }
}
