/** The maintenance assistant panel (components/ChatPanel.tsx): a greeting,
    a keyword-driven canned reply to each message, and the conversation the
    panel keeps while a reply is pending. */
module Chat {
  import opened Text
  import opened Json

  /** The car the panel was opened for. */
  datatype CarInfo = CarInfo(brand: string, model: string, year: int, maintenanceCount: int)

  //---------------------------------------------------------------------------
  // Replies
  //---------------------------------------------------------------------------

  /** What a message is recognised as being about. */
  datatype Topic = Oil | Tires | Brakes | Schedule | Costs | Thanks | General

  /** generateResponse's tests, in order, on the lower-cased input. */
  function Classify(userInput: string): Topic
  {
    var input := ToLower(userInput);
    if Contains(input, "oil change") || Contains(input, "oil") then Oil
    else if Contains(input, "tire") || Contains(input, "rotation") then Tires
    else if Contains(input, "brake") then Brakes
    else if Contains(input, "maintenance schedule") || Contains(input, "schedule") then Schedule
    else if Contains(input, "cost") || Contains(input, "price") || Contains(input, "expensive") then Costs
    else if Contains(input, "thank") || Contains(input, "thanks") then Thanks
    else General
  }

  /** A reference classification: the first topic in the table one of whose
      keywords the text contains, and General when there is none. */
  datatype KeywordRule = KeywordRule(topic: Topic, keywords: seq<string>)

  const KeywordTable: seq<KeywordRule> := [
    KeywordRule(Oil, ["oil"]),
    KeywordRule(Tires, ["tire", "rotation"]),
    KeywordRule(Brakes, ["brake"]),
    KeywordRule(Schedule, ["schedule"]),
    KeywordRule(Costs, ["cost", "price", "expensive"]),
    KeywordRule(Thanks, ["thank"])
  ]

  predicate Mentions(s: string, keywords: seq<string>)
  {
    exists w :: w in keywords && Contains(s, w)
  }

  /** The topic of the first rule from position `i` on whose keywords `s`
      mentions, and General when there is none. */
  function FirstMatchFrom(s: string, rules: seq<KeywordRule>, i: nat): (t: Topic)
    ensures t != General ==> exists k :: i <= k < |rules| && rules[k].topic == t && Mentions(s, rules[k].keywords)
    decreases |rules| - i
  {
    if i >= |rules| then General
    else if Mentions(s, rules[i].keywords) then rules[i].topic
    else FirstMatchFrom(s, rules, i + 1)
  }

  function FirstMatch(s: string, rules: seq<KeywordRule>): (t: Topic)
    ensures t != General ==> exists i :: 0 <= i < |rules| && rules[i].topic == t && Mentions(s, rules[i].keywords)
  {
    FirstMatchFrom(s, rules, 0)
  }

  lemma MentionsOne(s: string, a: string)
    ensures Mentions(s, [a]) <==> Contains(s, a)
  {
    if Contains(s, a) {
      assert a in [a];
    }
  }

  lemma MentionsTwo(s: string, a: string, b: string)
    ensures Mentions(s, [a, b]) <==> Contains(s, a) || Contains(s, b)
  {
    if Contains(s, a) {
      assert a in [a, b];
    }
    if Contains(s, b) {
      assert b in [a, b];
    }
  }

  lemma MentionsThree(s: string, a: string, b: string, c: string)
    ensures Mentions(s, [a, b, c]) <==> Contains(s, a) || Contains(s, b) || Contains(s, c)
  {
    if Contains(s, a) {
      assert a in [a, b, c];
    }
    if Contains(s, b) {
      assert b in [a, b, c];
    }
    if Contains(s, c) {
      assert c in [a, b, c];
    }
  }

  /** The table's rules are tried in their order. */
  lemma TableOrder(s: string)
    ensures FirstMatch(s, KeywordTable) ==
      if Mentions(s, ["oil"]) then Oil
      else if Mentions(s, ["tire", "rotation"]) then Tires
      else if Mentions(s, ["brake"]) then Brakes
      else if Mentions(s, ["schedule"]) then Schedule
      else if Mentions(s, ["cost", "price", "expensive"]) then Costs
      else if Mentions(s, ["thank"]) then Thanks
      else General
  {
    assert FirstMatchFrom(s, KeywordTable, 6) == General;
  }

  /** The table's verdict on a text, spelled out keyword by keyword. */
  lemma FirstMatchUnrolled(s: string)
    ensures FirstMatch(s, KeywordTable) ==
      if Contains(s, "oil") then Oil
      else if Contains(s, "tire") || Contains(s, "rotation") then Tires
      else if Contains(s, "brake") then Brakes
      else if Contains(s, "schedule") then Schedule
      else if Contains(s, "cost") || Contains(s, "price") || Contains(s, "expensive") then Costs
      else if Contains(s, "thank") then Thanks
      else General
  {
    TableOrder(s);
    MentionsOne(s, "oil");
    MentionsTwo(s, "tire", "rotation");
    MentionsOne(s, "brake");
    MentionsOne(s, "schedule");
    MentionsThree(s, "cost", "price", "expensive");
    MentionsOne(s, "thank");
  }

  /** The source's tests are the first match in the table: "oil change",
      "maintenance schedule" and "thanks" can never decide anything the
      shorter keywords they contain have not already decided. */
  lemma ClassifyIsFirstMatch(userInput: string)
    ensures Classify(userInput) == FirstMatch(ToLower(userInput), KeywordTable)
  {
    var s := ToLower(userInput);
    assert "oil" + " change" == "oil change";
    assert "maintenance " + "schedule" == "maintenance schedule";
    assert "thank" + "s" == "thanks";
    if Contains(s, "oil change") {
      ContainsPrefixOfNeedle(s, "oil", " change");
    }
    if Contains(s, "maintenance schedule") {
      ContainsSuffixOfNeedle(s, "maintenance ", "schedule");
    }
    if Contains(s, "thanks") {
      ContainsPrefixOfNeedle(s, "thank", "s");
    }
    FirstMatchUnrolled(s);
  }

  /** The classification does not depend on letter case. */
  lemma ClassifyIgnoresCase(userInput: string)
    ensures Classify(ToLower(userInput)) == Classify(userInput)
  {
    ToLowerIdempotent(userInput);
  }

  /** `${year} ${brand} ${model}`, as the greeting and the oil reply name the car. */
  function CarName(c: CarInfo): string
  {
    IntToString(c.year) + " " + c.brand + " " + c.model
  }

  const OilPrefix: string :=
    "For your "
  const GeneralPrefix: string :=
    "I" + " can help you with maintenance schedules, common issues, and best practices for your "
  const OilTail: string :=
    ", oil changes are typically recommended every 5,000-7,500 miles or every 6 months, whichever comes first. However, always check your owner's manual for specific recommendations. Using the right oil grade is also important for optimal engine performance."
  const TiresReply: string :=
    "Tire" + " rotation is recommended every 5,000-7,500 miles. This helps ensure even tire wear and extends the life of your tires. During rotation, it's also a good time to check tire pressure and tread depth."
  const BrakesReply: string :=
    "Brake" + " pads typically last 30,000-70,000 miles depending on driving habits. Signs you need new brakes include squealing noises, longer stopping distances, or a pulsing brake pedal. Have them inspected at least once a year."
  const ScheduleReply: string :=
    "Here's" + " a general maintenance schedule:\n\n\U{2022} 5,000 miles: Oil change, tire rotation\n\U{2022} 15,000 miles: Air filter inspection\n\U{2022} 30,000 miles: Brake inspection, coolant check\n\U{2022} 60,000 miles: Major service (multiple fluids, belts)\n\nYour owner's manual has the exact schedule for your vehicle."
  const CostsReply: string :=
    "Maintenance" + " costs vary by service and location. Regular maintenance is always cheaper than major repairs! Oil changes typically cost $40-100, tire rotations $20-50, and brake service $150-300 per axle. Track your expenses to budget effectively."
  const ThanksReply: string :=
    "You're" + " welcome! Feel free to ask if you have more questions about your car maintenance!"
  const GeneralTail: string :=
    ". Try asking about oil changes, tire rotation, brake service, or general maintenance schedules!"

  /** The canned reply for a topic. */
  function Reply(t: Topic, carInfo: Option<CarInfo>): string
  {
    match t
    case Oil => OilPrefix + (if carInfo.Some? then CarName(carInfo.value) else "car") + OilTail
    case Tires => TiresReply
    case Brakes => BrakesReply
    case Schedule => ScheduleReply
    case Costs => CostsReply
    case Thanks => ThanksReply
    case General =>
      GeneralPrefix + (if carInfo.Some? then carInfo.value.brand + " " + carInfo.value.model else "vehicle") + GeneralTail
  }

  /** generateResponse. */
  function GenerateResponse(userInput: string, carInfo: Option<CarInfo>): string
  {
    Reply(Classify(userInput), carInfo)
  }

  /** The first letter of each topic's reply. */
  function Initial(t: Topic): char
  {
    match t
    case Oil => 'F'
    case Tires => 'T'
    case Brakes => 'B'
    case Schedule => 'H'
    case Costs => 'M'
    case Thanks => 'Y'
    case General => 'I'
  }

  lemma ReplyInitial(t: Topic, c: Option<CarInfo>)
    ensures |Reply(t, c)| > 0 && Reply(t, c)[0] == Initial(t)
  {
    match t
    case Oil => assert Reply(t, c)[0] == OilPrefix[0];
    case General => assert Reply(t, c)[0] == GeneralPrefix[0];
    case Tires => assert TiresReply[0] == 'T';
    case Brakes => assert BrakesReply[0] == 'B';
    case Schedule => assert ScheduleReply[0] == 'H';
    case Costs => assert CostsReply[0] == 'M';
    case Thanks => assert ThanksReply[0] == 'Y';
  }

  /** Replies are never empty, and different topics never share a reply: the
      reply shows which topic the message was recognised as. */
  lemma ReplyIdentifiesTopic(t1: Topic, c1: Option<CarInfo>, t2: Topic, c2: Option<CarInfo>)
    ensures |Reply(t1, c1)| > 0
    ensures Reply(t1, c1) == Reply(t2, c2) ==> t1 == t2
  {
    ReplyInitial(t1, c1);
    ReplyInitial(t2, c2);
  }

  /** Only the oil reply and the fallback mention the car; the other replies
      are the same for every car, and for none. */
  lemma OnlyOilAndGeneralMentionCar(t: Topic, c1: Option<CarInfo>, c2: Option<CarInfo>)
    requires t != Oil && t != General
    ensures Reply(t, c1) == Reply(t, c2)
  {
  }

  /** With car information the oil reply names the car by year, brand and
      model. */
  lemma OilReplyNamesCar(c: CarInfo)
    ensures Contains(Reply(Oil, Some(c)), CarName(c))
  {
    var r := Reply(Oil, Some(c));
    var n := CarName(c);
    assert r[|OilPrefix|..|OilPrefix| + |n|] == n;
    assert OccursAt(r, n, |OilPrefix|);
    ContainsAt(r, n);
  }

  //---------------------------------------------------------------------------
  // The panel
  //---------------------------------------------------------------------------

  const GreetingPrefix: string :=
    "Hello! I'm your car maintenance assistant. I can help you with questions about your "
  const GreetingTail: string :=
    ". Feel free to ask me about maintenance schedules, common issues, or best practices!"
  const PlainGreeting: string :=
    "Hello! I'm your car maintenance assistant. How can I help you today?"

  /** The assistant's first message. */
  function Greeting(carInfo: Option<CarInfo>): string
  {
    if carInfo.Some? then
      GreetingPrefix + CarName(carInfo.value) + GreetingTail
    else PlainGreeting
  }

  /** With car information the greeting names the car. */
  lemma GreetingNamesCar(c: CarInfo)
    ensures Contains(Greeting(Some(c)), CarName(c))
  {
    var g := Greeting(Some(c));
    var n := CarName(c);
    assert g[|GreetingPrefix|..|GreetingPrefix| + |n|] == n;
    assert OccursAt(g, n, |GreetingPrefix|);
    ContainsAt(g, n);
  }

  datatype Role = User | Assistant

  datatype Message = Message(role: Role, content: string)

  /** `content.trim()` leaves it unchanged and non-empty. */
  predicate Trimmed(content: string)
  {
    content != "" && !IsSpace(content[0]) && !IsSpace(content[|content| - 1])
  }

  /** Trimmed text is exactly non-empty text that trimming leaves alone. */
  lemma TrimmedIsTrimFixed(content: string)
    ensures Trimmed(content) <==> content != "" && Trim(content) == content
  {
    if Trimmed(content) {
      TrimNoop(content);
    }
    if content != "" && Trim(content) == content {
      TrimmedEndsNotSpace(content);
    }
  }

  /** Text that does not trim to nothing trims to trimmed text. */
  lemma TrimIsTrimmed(s: string)
    requires Trim(s) != ""
    ensures Trimmed(Trim(s))
  {
    TrimmedEndsNotSpace(s);
  }

  /** The reply the panel gives to a question, by the keyword table. */
  function Answer(question: string, carInfo: Option<CarInfo>): string
  {
    Reply(FirstMatch(ToLower(question), KeywordTable), carInfo)
  }

  /** The panel's replies are generateResponse's. */
  lemma AnswerIsGenerated(question: string, carInfo: Option<CarInfo>)
    ensures Answer(question, carInfo) == GenerateResponse(question, carInfo)
  {
    ClassifyIsFirstMatch(question);
  }

  /** Message `i` of a conversation is where it belongs: the first is the
      greeting; after it, a user message follows an assistant message and is
      trimmed, and an assistant message follows a user message and is the
      reply `respond` gives to it. */
  predicate WellPlaced(msgs: seq<Message>, i: nat, greeting: string, respond: string -> string)
    requires i < |msgs|
  {
    if i == 0 then msgs[0] == Message(Assistant, greeting)
    else match msgs[i].role
      case User => msgs[i - 1].role == Assistant && Trimmed(msgs[i].content)
      case Assistant => msgs[i - 1].role == User && msgs[i].content == respond(msgs[i - 1].content)
  }

  /** The greeting, then user messages each followed by its reply: built up
      one message at a time. */
  predicate Conversation(msgs: seq<Message>, greeting: string, respond: string -> string)
    decreases |msgs|
  {
    && msgs != []
    && WellPlaced(msgs, |msgs| - 1, greeting, respond)
    && (|msgs| > 1 ==> Conversation(msgs[..|msgs| - 1], greeting, respond))
  }

  /** A conversation is exactly a non-empty sequence that opens with the
      greeting and has every message where it belongs. */
  lemma {:induction false} ConversationSpec(msgs: seq<Message>, greeting: string, respond: string -> string)
    ensures Conversation(msgs, greeting, respond) <==>
      && |msgs| >= 1
      && msgs[0] == Message(Assistant, greeting)
      && forall i :: 0 <= i < |msgs| ==> WellPlaced(msgs, i, greeting, respond)
    decreases |msgs|
  {
    if |msgs| > 1 {
      var init := msgs[..|msgs| - 1];
      ConversationSpec(init, greeting, respond);
      forall i | 0 <= i < |init|
        ensures WellPlaced(init, i, greeting, respond) == WellPlaced(msgs, i, greeting, respond)
      {
        assert init[i] == msgs[i];
        if i >= 1 {
          assert init[i - 1] == msgs[i - 1];
        }
      }
    }
  }

  /** Appending a message that is where it belongs keeps a conversation. */
  lemma ConversationAppend(msgs: seq<Message>, m: Message, greeting: string, respond: string -> string)
    requires Conversation(msgs, greeting, respond)
    requires WellPlaced(msgs + [m], |msgs|, greeting, respond)
    ensures Conversation(msgs + [m], greeting, respond)
  {
    assert (msgs + [m])[..|msgs|] == msgs;
  }

  /** A trimmed question after a reply (or the greeting) keeps a
      conversation. */
  lemma AppendQuestion(msgs: seq<Message>, question: string, greeting: string, respond: string -> string)
    requires Conversation(msgs, greeting, respond) && msgs[|msgs| - 1].role == Assistant && Trimmed(question)
    ensures Conversation(msgs + [Message(User, question)], greeting, respond)
  {
    var m := Message(User, question);
    assert (msgs + [m])[|msgs| - 1] == msgs[|msgs| - 1];
    ConversationAppend(msgs, m, greeting, respond);
  }

  /** The reply to the last question keeps a conversation. */
  lemma AppendAnswer(msgs: seq<Message>, greeting: string, respond: string -> string)
    requires Conversation(msgs, greeting, respond) && msgs[|msgs| - 1].role == User
    ensures Conversation(msgs + [Message(Assistant, respond(msgs[|msgs| - 1].content))], greeting, respond)
  {
    var m := Message(Assistant, respond(msgs[|msgs| - 1].content));
    assert (msgs + [m])[|msgs| - 1] == msgs[|msgs| - 1];
    ConversationAppend(msgs, m, greeting, respond);
  }

  /** The panel's state invariant: the conversation opens with the greeting
      and then alternates, a user message and its reply; every user message
      is trimmed and non-empty and every reply is `respond`'s to the message
      before it. A reply is pending exactly while loading, for the last
      message. */
  predicate PanelInvariant(messages: seq<Message>, isLoading: bool, pending: Option<string>,
                           greeting: string, respond: string -> string)
  {
    && |messages| >= 1
    && Conversation(messages, greeting, respond)
    && (isLoading <==> messages[|messages| - 1].role == User)
    && (pending.Some? <==> isLoading)
    && (pending.Some? ==> messages[|messages| - 1] == Message(User, pending.value))
  }

  /** Sending a trimmed question while idle keeps the invariant, with the
      question pending. */
  lemma SendKeepsInvariant(messages: seq<Message>, question: string, greeting: string, respond: string -> string)
    requires PanelInvariant(messages, false, None, greeting, respond) && Trimmed(question)
    ensures PanelInvariant(messages + [Message(User, question)], true, Some(question), greeting, respond)
  {
    AppendQuestion(messages, question, greeting, respond);
  }

  /** Delivering the reply to the pending question keeps the invariant, with
      nothing pending. */
  lemma DeliverKeepsInvariant(messages: seq<Message>, question: string, greeting: string, respond: string -> string)
    requires PanelInvariant(messages, true, Some(question), greeting, respond)
    ensures PanelInvariant(messages + [Message(Assistant, respond(question))], false, None, greeting, respond)
  {
    AppendAnswer(messages, greeting, respond);
  }

  class ChatPanel {
    const carInfo: Option<CarInfo>
    /** The initial message, fixed by `carInfo`. */
    const greeting: string
    /** generateResponse, which closes over `carInfo`. */
    const respond: string -> string
    var messages: seq<Message>
    var input: string
    var isLoading: bool
    /** The message whose reply the timer will deliver. */
    var pending: Option<string>

    predicate Valid()
      reads this
    {
      PanelInvariant(messages, isLoading, pending, greeting, respond)
    }

    constructor (carInfo: Option<CarInfo>)
      ensures this.carInfo == carInfo
      ensures greeting == Greeting(carInfo)
      ensures forall q :: respond(q) == GenerateResponse(q, carInfo)
      ensures messages == [Message(Assistant, Greeting(carInfo))] && input == "" && !isLoading
      ensures Valid()
    {
      this.carInfo := carInfo;
      greeting := Greeting(carInfo);
      respond := q => GenerateResponse(q, carInfo);
      messages := [Message(Assistant, Greeting(carInfo))];
      input := "";
      isLoading := false;
      pending := None;
    }

    /** Typing into the input. */
    method SetInput(text: string)
      requires Valid()
      modifies this
      ensures Valid()
      ensures input == text
      ensures messages == old(messages) && isLoading == old(isLoading) && pending == old(pending)
    {
      input := text;
    }

    /** handleSend: ignored for blank input or while a reply is pending;
        otherwise the trimmed input is appended as the user's message, the
        input cleared, and its reply scheduled. */
    method HandleSend() returns (sent: bool)
      requires Valid()
      modifies this
      ensures Valid()
      ensures sent <==> Trim(old(input)) != "" && !old(isLoading)
      ensures !sent ==> messages == old(messages) && input == old(input) && isLoading == old(isLoading) && pending == old(pending)
      ensures sent ==>
        && messages == old(messages) + [Message(User, Trim(old(input)))]
        && input == "" && isLoading && pending == Some(Trim(old(input)))
    {
      var content := Trim(input);
      if content == "" || isLoading {
        return false;
      }
      TrimIsTrimmed(input);
      SendKeepsInvariant(messages, content, greeting, respond);
      messages := messages + [Message(User, content)];
      input := "";
      isLoading := true;
      pending := Some(content);
      sent := true;
    }

    /** The timer firing: the reply to the pending message is appended and
        loading ends; the input is untouched. */
    method DeliverReply()
      requires Valid() && pending.Some?
      modifies this
      ensures Valid()
      ensures messages == old(messages) + [Message(Assistant, respond(old(pending).value))]
      ensures !isLoading && pending.None? && input == old(input)
    {
      var question := pending.value;
      DeliverKeepsInvariant(messages, question, greeting, respond);
      messages := messages + [Message(Assistant, respond(question))];
      isLoading := false;
      pending := None;
    }
  }
}
