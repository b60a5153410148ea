/** The assistant chat widget: a fixed keyword lookup chooses the reply, and
    sending appends the user's message at once and the reply one second later. */
module Chatbot {
  import opened Js

  datatype Sender = User | Bot

  /** A chat message; the timestamp is not modelled. */
  datatype Message = Message(id: int, text: string, sender: Sender)

  /** A reply timer: what its callback captured when it was scheduled, the id
      it will give the reply and the input it will answer. */
  datatype Timer = Timer(replyId: int, input: string)

  /** The reply a timer's callback appends. */
  function ReplyOf(t: Timer): Message {
    Message(t.replyId, BotResponse(t.input), Bot)
  }

  const Greeting := Message(1, "Hello! I'm your assistant. How can I help you today?", Bot)

  const MarketReply := "I can help you with market analysis. Would you like to see the latest market trends?"
  const AcquisitionReply := "I can assist with property acquisition data. What specific information are you looking for?"
  const UrlReply := "I can help you manage your URLs. Do you need to add, edit, or analyze any URLs?"
  const DefaultReply := "I'm here to help with your dashboard needs. You can ask me about market data, properties, or URL management."

  /** `getBotResponse`: the first matching keyword of the lower-cased input wins. */
  function BotResponse(userInput: string): (r: string)
    ensures r == MarketReply || r == AcquisitionReply || r == UrlReply || r == DefaultReply
  {
    var input := Lower(userInput);
    if Includes(input, "market") then MarketReply
    else if Includes(input, "property") || Includes(input, "acquisition") then AcquisitionReply
    else if Includes(input, "url") then UrlReply
    else DefaultReply
  }

  /** Exactly one template is chosen, and each template is chosen exactly when
      its keywords occur and no keyword of higher priority does. */
  lemma BotResponseChoice(userInput: string)
    ensures var r, input := BotResponse(userInput), Lower(userInput);
      && (r == MarketReply || r == AcquisitionReply || r == UrlReply || r == DefaultReply)
      && (r == MarketReply <==> Includes(input, "market"))
      && (r == AcquisitionReply <==>
            !Includes(input, "market") && (Includes(input, "property") || Includes(input, "acquisition")))
      && (r == UrlReply <==>
            !Includes(input, "market") && !Includes(input, "property") && !Includes(input, "acquisition")
            && Includes(input, "url"))
      && (r == DefaultReply <==>
            !Includes(input, "market") && !Includes(input, "property") && !Includes(input, "acquisition")
            && !Includes(input, "url"))
  {
    TemplatesDiffer();
  }

  lemma TemplatesDiffer()
    ensures MarketReply != AcquisitionReply && MarketReply != UrlReply && MarketReply != DefaultReply
    ensures AcquisitionReply != UrlReply && AcquisitionReply != DefaultReply && UrlReply != DefaultReply
  {
    assert |MarketReply| == 84 && |AcquisitionReply| == 91;
    assert |UrlReply| == 79 && |DefaultReply| == 108;
  }

  /** Letter case does not matter: shouting gets the same reply. */
  lemma {:induction false} BotResponseIgnoresCase(userInput: string)
    ensures BotResponse(Upper(userInput)) == BotResponse(userInput)
  {
    CaseRoundTrips(userInput);
  }

  /** Keywords match anywhere, even inside other words. */
  lemma KeywordInsideWord()
    ensures BotResponse("curly") == UrlReply
  {
    assert Lower("curly") == "curly";
    assert OccursAt("curly", "url", 1);
    assert !Includes("curly", "market") && !Includes("curly", "property") && !Includes("curly", "acquisition");
  }

  /** "market" takes priority over the other keywords, whatever the case. */
  lemma MarketFirst()
    ensures BotResponse("Property MARKET") == MarketReply
  {
    assert Lower("Property MARKET") == "property market";
    assert OccursAt("property market", "market", 9);
  }

  /** Input without any keyword gets the general answer. */
  lemma NoKeyword()
    ensures BotResponse("hello") == DefaultReply
  {
    assert Lower("hello") == "hello";
    assert !Includes("hello", "url") by {
      forall i | 0 <= i <= 2 ensures !OccursAt("hello", "url", i) {
        assert "hello"[i] != 'u';
      }
    }
  }

  /** The input holds nothing but white space, which is when `!s.trim()`
      holds (`TrimEmptyIffBlank`). */
  predicate Blank(s: string) {
    forall i :: 0 <= i < |s| ==> IsJsSpace(s[i])
  }

  /** Message ids are the positions counted from 1, so no two messages share an
      id. */
  predicate IdsAreIndices(ms: seq<Message>) {
    forall i :: 0 <= i < |ms| ==> ms[i].id == i + 1
  }

  lemma IdsAreIndicesDistinct(ms: seq<Message>)
    requires IdsAreIndices(ms)
    ensures forall i, j :: 0 <= i < j < |ms| ==> ms[i].id != ms[j].id
  {
  }

  class Chat {
    var messages: seq<Message>
    var inputValue: string
    /** The one-second reply timers that have not fired yet, in firing order. */
    var pending: seq<Timer>

    constructor ()
      ensures messages == [Greeting] && inputValue == "" && pending == []
    {
      messages := [Greeting];
      inputValue := "";
      pending := [];
    }

    /** Typing into the input box. */
    method SetInput(v: string)
      modifies this`inputValue
      ensures inputValue == v
    {
      inputValue := v;
    }

    /** `handleSendMessage`: blank input changes nothing; otherwise the user's
        message is appended with id `|messages| + 1`, the input is cleared, and
        a timer is scheduled that will answer that input with id
        `|messages| + 2`, both captured when sending. */
    method SendMessage()
      modifies this
      ensures Blank(old(inputValue)) ==>
        messages == old(messages) && inputValue == old(inputValue) && pending == old(pending)
      ensures !Blank(old(inputValue)) ==>
        && messages == old(messages) + [Message(|old(messages)| + 1, old(inputValue), User)]
        && inputValue == ""
        && pending == old(pending) + [Timer(|old(messages)| + 2, old(inputValue))]
    {
      TrimEmptyIffBlank(inputValue);
      if Trim(inputValue) == "" {
        return;
      }
      var n := |messages|;
      var text := inputValue;
      messages := messages + [Message(n + 1, text, User)];
      inputValue := "";
      pending := pending + [Timer(n + 2, text)];
    }

    /** The earliest pending timer fires and its reply is appended. */
    method DeliverReply()
      requires pending != []
      modifies this`messages, this`pending
      ensures messages == old(messages) + [ReplyOf(old(pending)[0])]
      ensures pending == old(pending)[1..]
    {
      messages := messages + [ReplyOf(pending[0])];
      pending := pending[1..];
    }

    /** Numbering a reply when it is appended rather than when it is scheduled
        keeps every id equal to the message's position. */
    method DeliverReplyRenumbered()
      requires pending != []
      modifies this`messages, this`pending
      ensures messages == old(messages) + [ReplyOf(old(pending)[0]).(id := |old(messages)| + 1)]
      ensures pending == old(pending)[1..]
      ensures old(IdsAreIndices(messages)) ==> IdsAreIndices(messages)
    {
      messages := messages + [ReplyOf(pending[0]).(id := |messages| + 1)];
      pending := pending[1..];
    }

    /** Sending keeps ids equal to positions, and history is only ever extended. */
    method SendMessageKeepsIds()
      requires IdsAreIndices(messages)
      modifies this
      ensures IdsAreIndices(messages)
      ensures |messages| >= |old(messages)| && messages[..|old(messages)|] == old(messages)
    {
      SendMessage();
    }
  }

  /** The user types `text` and presses Send. */
  method TypeAndSend(chat: Chat, text: string)
    requires !Blank(text)
    modifies chat
    ensures chat.messages == old(chat.messages) + [Message(|old(chat.messages)| + 1, text, User)]
    ensures chat.pending == old(chat.pending) + [Timer(|old(chat.messages)| + 2, text)]
    ensures chat.inputValue == ""
  {
    chat.SetInput(text);
    chat.SendMessage();
  }

  /** A fresh chat in which two messages are sent before the first reply
      arrives; both replies are still pending. */
  method QuickSends(first: string, second: string) returns (chat: Chat)
    requires !Blank(first) && !Blank(second)
    ensures fresh(chat)
    ensures chat.messages == [Greeting, Message(2, first, User), Message(3, second, User)]
    ensures chat.pending == [Timer(3, first), Timer(4, second)]
  {
    chat := new Chat();
    TypeAndSend(chat, first);
    TypeAndSend(chat, second);
  }

  /** Both pending timers of `QuickSends` fire, each reply numbered as when
      it was scheduled or as when it is appended. */
  method DeliverBoth(chat: Chat, renumber: bool)
    requires |chat.messages| == 3 && |chat.pending| == 2
    modifies chat
    ensures |chat.messages| == 5 && chat.messages[..3] == old(chat.messages)
    ensures chat.messages[3].id == (if renumber then 4 else old(chat.pending)[0].replyId)
    ensures chat.messages[4].id == (if renumber then 5 else old(chat.pending)[1].replyId)
  {
    if renumber {
      chat.DeliverReplyRenumbered();
      chat.DeliverReplyRenumbered();
    } else {
      chat.DeliverReply();
      chat.DeliverReply();
    }
  }

  /** Two messages sent less than a second apart: the second user message gets
      the id already promised to the first reply. */
  method OverlappingSends(first: string, second: string) returns (ids: seq<int>)
    requires !Blank(first) && !Blank(second)
    ensures ids == [1, 2, 3, 3, 4]
  {
    var chat := QuickSends(first, second);
    DeliverBoth(chat, false);
    var ms := chat.messages;
    assert ms[0] == Greeting && ms[1].id == 2 && ms[2].id == 3;
    ids := [ms[0].id, ms[1].id, ms[2].id, ms[3].id, ms[4].id];
  }

  /** The same two sends with replies numbered on delivery: ids stay distinct. */
  method OverlappingSendsRenumbered(first: string, second: string) returns (ids: seq<int>)
    requires !Blank(first) && !Blank(second)
    ensures ids == [1, 2, 3, 4, 5]
  {
    var chat := QuickSends(first, second);
    DeliverBoth(chat, true);
    var ms := chat.messages;
    assert ms[0] == Greeting && ms[1].id == 2 && ms[2].id == 3;
    ids := [ms[0].id, ms[1].id, ms[2].id, ms[3].id, ms[4].id];
  }
}
