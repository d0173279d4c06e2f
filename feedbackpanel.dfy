/**
 * The feedback panel: the icon for each alert kind, and the Pico AI chat,
 * whose reply is the first entry of a fixed keyword table whose key occurs in
 * the trimmed, lower-cased question. The reply texts themselves are opaque:
 * each is named by the question it answers.
 */
module FeedbackPanel {
  import opened Wrappers
  import opened PicoTypes
  import opened Text

  // ----------------------------------------------------------------- icons

  /** The icons `getIcon` draws. */
  datatype Icon = CheckIcon | AlertIcon | CrossIcon | InfoIcon

  /** `getIcon(type)`: a tick, a warning sign and a cross for the three named kinds, the info sign for anything else. */
  function GetIcon(kind: string): (icon: Icon)
    ensures icon == CheckIcon <==> kind == "success"
    ensures icon == AlertIcon <==> kind == "warning"
    ensures icon == CrossIcon <==> kind == "error"
  {
    if kind == "success" then CheckIcon
    else if kind == "warning" then AlertIcon
    else if kind == "error" then CrossIcon
    else InfoIcon
  }

  /** Every message kind has its own icon; an info message gets the fallback. */
  lemma KindIconsDistinct(a: FeedbackKind, b: FeedbackKind)
    ensures GetIcon(KindName(a)) == GetIcon(KindName(b)) <==> a == b
    ensures GetIcon(KindName(Info)) == InfoIcon
  {
  }

  // ---------------------------------------------------------- the chat bot

  /** The canned replies, named by the question each answers. */
  datatype Reply = ConnectLed | WhatResistor | LedNotWorking | WhatGround | UseButton | DefaultReply

  /** `Object.entries(PICO_AI_RESPONSES)`: keys in declaration order, `default` among them. */
  const Responses: seq<(string, Reply)> := [
    ("how do i connect an led", ConnectLed),
    ("what is a resistor", WhatResistor),
    ("why is my led not working", LedNotWorking),
    ("what is ground", WhatGround),
    ("how to use a button", UseButton),
    ("default", DefaultReply)
  ]

  /** The position of the first entry whose key occurs in `message`, or -1. */
  function MatchIndex(entries: seq<(string, Reply)>, message: string): (k: int)
    ensures -1 <= k < |entries|
    ensures k >= 0 ==> Contains(message, entries[k].0) && forall j :: 0 <= j < k ==> !Contains(message, entries[j].0)
    ensures k < 0 <==> forall j :: 0 <= j < |entries| ==> !Contains(message, entries[j].0)
    decreases |entries|
  {
    if |entries| == 0 then -1
    else if Contains(message, entries[0].0) then 0
    else
      var k := MatchIndex(entries[1..], message);
      if k < 0 then -1 else k + 1
  }

  /** `aiInput.trim().toLowerCase()` */
  function Normalize(input: string): string {
    ToLower(Trim(input))
  }

  /** The reply to a question: the first matching entry's reply, or the default. */
  function Answer(input: string): Reply {
    var k := MatchIndex(Responses, Normalize(input));
    if k < 0 then DefaultReply else Responses[k].1
  }

  /** The reply belongs to the first key, in table order, that occurs in the normalised question. */
  lemma AnswerIsFirstMatch(input: string, i: nat)
    requires i < |Responses| && Contains(Normalize(input), Responses[i].0)
    requires forall j :: 0 <= j < i ==> !Contains(Normalize(input), Responses[j].0)
    ensures Answer(input) == Responses[i].1
  {
  }

  /** When two keys occur in the question, the one declared first answers it. */
  lemma EarlierKeyWins(input: string, i: nat, j: nat)
    requires i < j < |Responses|
    requires Contains(Normalize(input), Responses[i].0) && Contains(Normalize(input), Responses[j].0)
    ensures Answer(input) != Responses[j].1
  {
    var k := MatchIndex(Responses, Normalize(input));
    assert 0 <= k <= i;
    RepliesDistinct();
    assert Answer(input) == Responses[k].1;
  }

  /** Every entry of the table has its own reply. */
  lemma RepliesDistinct()
    ensures forall a, b :: 0 <= a < b < |Responses| ==> Responses[a].1 != Responses[b].1
  {
  }

  /** The default reply is given exactly when none of the five question keys occurs. */
  lemma DefaultIffNoQuestionKey(input: string)
    ensures Answer(input) == DefaultReply <==>
      forall j :: 0 <= j < |Responses| - 1 ==> !Contains(Normalize(input), Responses[j].0)
  {
    var m := Normalize(input);
    var k := MatchIndex(Responses, m);
    if 0 <= k < |Responses| - 1 {
      assert Answer(input) == Responses[k].1 != DefaultReply;
      assert Contains(m, Responses[k].0);
    } else if k == |Responses| - 1 {
      assert Answer(input) == DefaultReply;
    }
  }

  /** A line of the conversation: the greeting, a question as typed, or a canned reply. */
  datatype ChatLine = Greeting | Question(text: string) | Answered(reply: Reply)

  /** A reply waiting for its timer: delivered after `delay` milliseconds. */
  datatype PendingReply = PendingReply(delay: nat, reply: Reply)

  /** The delay before Pico AI answers. */
  const ReplyDelay: nat := 500

  /** The chat tab's own state: the conversation and the input field. */
  class Chat {
    var messages: seq<ChatLine>
    var input: string

    constructor()
      ensures messages == [Greeting] && input == ""
    {
      messages, input := [Greeting], "";
    }

    /**
     * `handleAiSubmit`: blank input is ignored; otherwise the text is appended
     * as typed, the field is cleared, and the reply is scheduled.
     */
    method Submit() returns (pending: Option<PendingReply>)
      modifies this
      ensures Trim(old(input)) == [] ==> pending.None? && messages == old(messages) && input == old(input)
      ensures Trim(old(input)) != [] ==>
        pending == Some(PendingReply(ReplyDelay, Answer(old(input))))
        && messages == old(messages) + [Question(old(input))] && input == ""
    {
      if Trim(input) == [] {
        return None;
      }
      var reply := Answer(input);
      messages := messages + [Question(input)];
      input := "";
      pending := Some(PendingReply(ReplyDelay, reply));
    }

    /** The timer fires: the reply is appended. */
    method Deliver(reply: Reply)
      modifies this
      ensures messages == old(messages) + [Answered(reply)] && input == old(input)
    {
      messages := messages + [Answered(reply)];
    }
  }
}
