/** The assistant chat widget (src/components/AssistantChat.tsx): a
    floating window that can be opened, closed and minimised, holding a
    transcript that starts with a welcome message. Submitting a non-blank
    input appends it as a user message and schedules the classifier's
    reply, which arrives one timer later. Pending timers are modelled as a
    queue of the inputs they captured: equal delays fire in order. Message
    ids and timestamps come from the clock and are parameters here. */
module AssistantChat {
  import opened Common
  import opened Text
  import opened AssistantRules

  datatype Role = User | Assistant

  datatype Message = Message(id: string, role: Role, content: string, time: int)

  /** The component's state plus the inputs captured by timers not yet fired. */
  datatype Chat = Chat(
    isOpen: bool,
    isMinimized: bool,
    input: string,
    messages: seq<Message>,
    isTyping: bool,
    pending: seq<string>)

  const WelcomeText: string :=
    "Hello! I'm your MomCare assistant. I can help you navigate the app, answer questions about maternal health, or provide resources. What would you like help with today?"

  /** The toast shown whenever the chat is opened. */
  const OpenToast: Toast :=
    Toast("MomCare Assistant", "Ask me anything about maternal health or navigating the app!", Plain, Some(3000))

  /** The contents of the user messages of `ms`, in order. */
  function UserTexts(ms: seq<Message>): seq<string> {
    if ms == [] then []
    else UserTexts(ms[..|ms| - 1]) + (if ms[|ms| - 1].role == User then [ms[|ms| - 1].content] else [])
  }

  /** The contents of the assistant messages of `ms`, in order. */
  function AssistantTexts(ms: seq<Message>): seq<string> {
    if ms == [] then []
    else AssistantTexts(ms[..|ms| - 1]) + (if ms[|ms| - 1].role == Assistant then [ms[|ms| - 1].content] else [])
  }

  lemma TextsOfAppend(ms: seq<Message>, m: Message)
    ensures UserTexts(ms + [m]) == UserTexts(ms) + (if m.role == User then [m.content] else [])
    ensures AssistantTexts(ms + [m]) == AssistantTexts(ms) + (if m.role == Assistant then [m.content] else [])
  {
    assert (ms + [m])[..|ms|] == ms;
  }

  /** The transcript invariant: the welcome message comes first; after it,
      the i-th assistant message is the classifier's answer to the i-th
      user message; the user messages not yet answered are exactly the
      pending inputs; no user message is blank; and the typing indicator
      shows only while a reply is pending. */
  predicate Valid(c: Chat) {
    && |c.messages| >= 1
    && c.messages[0].role == Assistant
    && c.messages[0].content == WelcomeText
    && (c.isTyping ==> |c.pending| > 0)
    && Transcript(UserTexts(c.messages[1..]), AssistantTexts(c.messages[1..]), c.pending)
  }

  /** The questions `us` and the answers given so far: each answer is the
      classifier's reply to the question at the same position, the
      unanswered questions are `pending`, and no question is blank. */
  predicate Transcript(us: seq<string>, answers: seq<string>, pending: seq<string>) {
    && |answers| + |pending| == |us|
    && us[|answers|..] == pending
    && (forall i :: 0 <= i < |answers| ==> answers[i] == Classify(us[i]))
    && (forall i :: 0 <= i < |us| ==> !IsBlank(us[i]))
  }

  /** The state on mount: closed, empty input, only the welcome message. */
  function Initial(time: int): (r: Chat)
    ensures Valid(r)
    ensures !r.isOpen && !r.isMinimized && !r.isTyping && r.input == ""
    ensures |r.messages| == 1 && r.messages[0].id == "welcome"
  {
    Chat(false, false, "", [Message("welcome", Assistant, WelcomeText, time)], false, [])
  }

  datatype Toggled = Toggled(chat: Chat, toast: Option<Toast>)

  /** `toggleChat`: opens a closed window or closes an open one, always
      un-minimising it, and shows the welcome toast on every opening. */
  function ToggleChat(c: Chat): (r: Toggled)
    ensures r.chat.isOpen == !c.isOpen && !r.chat.isMinimized
    ensures r.toast == (if c.isOpen then None else Some(OpenToast))
    ensures r.chat.(isOpen := c.isOpen, isMinimized := c.isMinimized) == c
  {
    Toggled(c.(isOpen := !c.isOpen, isMinimized := false), if !c.isOpen then Some(OpenToast) else None)
  }

  /** `toggleMinimize`: flips only the minimised flag. */
  function ToggleMinimize(c: Chat): (r: Chat)
    ensures r.isMinimized == !c.isMinimized
    ensures r.(isMinimized := c.isMinimized) == c
  {
    c.(isMinimized := !c.isMinimized)
  }

  /** Typing into the input box. */
  function SetInput(c: Chat, text: string): (r: Chat)
    ensures r.input == text && r.(input := c.input) == c
  {
    c.(input := text)
  }

  /** `handleSubmit`: a blank input (after trimming) changes nothing;
      otherwise the raw, untrimmed input becomes a user message, the input
      box is cleared, the typing indicator is shown and a reply to the
      input is scheduled. */
  function Submit(c: Chat, id: string, time: int): (r: Chat)
    ensures Trim(c.input) == "" ==> r == c
    ensures Trim(c.input) != "" ==>
      && r.messages == c.messages + [Message(id, User, c.input, time)]
      && r.input == "" && r.isTyping
      && r.pending == c.pending + [c.input]
      && r.isOpen == c.isOpen && r.isMinimized == c.isMinimized
  {
    if Trim(c.input) == "" then c
    else
      c.(messages := c.messages + [Message(id, User, c.input, time)], input := "",
         isTyping := true, pending := c.pending + [c.input])
  }

  /** Submitting keeps the transcript invariant. */
  lemma SubmitKeepsValid(c: Chat, id: string, time: int)
    requires Valid(c)
    ensures Valid(Submit(c, id, time))
  {
    TrimEmptyIffBlank(c.input);
    if !IsBlank(c.input) {
      var m := Message(id, User, c.input, time);
      AskKeepsValid(c, m, c.messages + [m]);
    }
  }

  lemma AskKeepsValid(c: Chat, m: Message, ms: seq<Message>)
    requires Valid(c) && m.role == User && m.content == c.input && !IsBlank(c.input)
    requires ms == c.messages + [m]
    ensures Valid(c.(messages := ms, input := "", isTyping := true, pending := c.pending + [c.input]))
  {
    assert ms[1..] == c.messages[1..] + [m];
    TextsOfAppend(c.messages[1..], m);
    AskKeepsTranscript(UserTexts(c.messages[1..]), AssistantTexts(c.messages[1..]), c.pending, c.input);
  }

  lemma AskKeepsTranscript(us: seq<string>, answers: seq<string>, pending: seq<string>, q: string)
    requires Transcript(us, answers, pending) && !IsBlank(q)
    ensures Transcript(us + [q], answers, pending + [q])
  {
    assert (us + [q])[|answers|..] == us[|answers|..] + [q];
    forall i | 0 <= i < |answers| ensures answers[i] == Classify((us + [q])[i]) {
      assert (us + [q])[i] == us[i];
    }
    forall i | 0 <= i < |us| + 1 ensures !IsBlank((us + [q])[i]) {
      if i < |us| {
        assert (us + [q])[i] == us[i];
      }
    }
  }

  /** The oldest pending timer fires: the classifier's reply to the input
      it captured is appended and the typing indicator is hidden, even if
      further replies are still pending. */
  function Respond(c: Chat, id: string, time: int): (r: Chat)
    requires |c.pending| > 0
    ensures r.messages == c.messages + [Message(id, Assistant, Classify(c.pending[0]), time)]
    ensures !r.isTyping && r.pending == c.pending[1..]
    ensures r.isOpen == c.isOpen && r.isMinimized == c.isMinimized && r.input == c.input
  {
    c.(messages := c.messages + [Message(id, Assistant, Classify(c.pending[0]), time)],
       isTyping := false, pending := c.pending[1..])
  }

  /** A reply arriving keeps the transcript invariant. */
  lemma RespondKeepsValid(c: Chat, id: string, time: int)
    requires Valid(c) && |c.pending| > 0
    ensures Valid(Respond(c, id, time))
  {
    var r := Respond(c, id, time);
    var m := Message(id, Assistant, Classify(c.pending[0]), time);
    assert r.messages[1..] == c.messages[1..] + [m];
    TextsOfAppend(c.messages[1..], m);
    var us, answers := UserTexts(c.messages[1..]), AssistantTexts(c.messages[1..]);
    var us', answers' := UserTexts(r.messages[1..]), AssistantTexts(r.messages[1..]);
    assert us' == us && answers' == answers + [Classify(c.pending[0])];
    assert us[|answers|] == c.pending[0];
    assert us'[|answers'|..] == us[|answers|..][1..];
  }

  /** Opening, closing, minimising and typing keep the transcript invariant. */
  lemma UiStepsKeepValid(c: Chat, text: string)
    requires Valid(c)
    ensures Valid(ToggleChat(c).chat) && Valid(ToggleMinimize(c)) && Valid(SetInput(c, text))
  {
  }

  /** Opening and then closing the window (or the reverse) restores
      everything but the minimised flag, which ends up cleared. */
  lemma ToggleChatTwice(c: Chat)
    ensures ToggleChat(ToggleChat(c).chat).chat == c.(isMinimized := false)
    ensures ToggleChat(c).toast.Some? != ToggleChat(ToggleChat(c).chat).toast.Some?
  {
  }

  /** The welcome toast is not limited to the first opening: it is shown
      again on every later opening. */
  lemma ToastOnEveryOpening(c: Chat)
    requires !c.isOpen
    ensures ToggleChat(c).toast == Some(OpenToast)
    ensures ToggleChat(ToggleChat(ToggleChat(c).chat).chat).toast == Some(OpenToast)
  {
  }

  /** A question asked in a quiet chat gets the classifier's answer as the
      next message, directly after the question itself. */
  lemma QuestionThenAnswer(c: Chat, text: string, id1: string, id2: string, t1: int, t2: int)
    requires c.pending == [] && Trim(text) != ""
    ensures Submit(SetInput(c, text), id1, t1).pending == [text]
    ensures Respond(Submit(SetInput(c, text), id1, t1), id2, t2).messages
              == c.messages + [Message(id1, User, text, t1), Message(id2, Assistant, Classify(text), t2)]
  {
    var typed := SetInput(c, text);
    assert typed.input == text && typed.pending == [];
    var s := Submit(typed, id1, t1);
    var m1, m2 := Message(id1, User, text, t1), Message(id2, Assistant, Classify(text), t2);
    assert s.messages == c.messages + [m1] && s.pending == [text];
    assert Respond(s, id2, t2).messages == (c.messages + [m1]) + [m2];
    AppendPair(c.messages, m1, m2);
  }

  lemma AppendPair(ms: seq<Message>, x: Message, y: Message)
    ensures (ms + [x]) + [y] == ms + [x, y]
  {
    assert (ms + [x]) + [y] == ms + ([x] + [y]);
  }

  /** Two questions in quick succession: when the first reply arrives the
      typing indicator disappears although the second reply is still
      pending. */
  lemma TypingHiddenWhileReplyPending(c: Chat, a: string, b: string, id1: string, id2: string, id3: string, t: int)
    requires c.pending == [] && Trim(a) != "" && Trim(b) != ""
    ensures var s := Submit(SetInput(Submit(SetInput(c, a), id1, t), b), id2, t);
            var r := Respond(s, id3, t);
            !r.isTyping && r.pending == [b]
            && |r.messages| > 0 && r.messages[|r.messages| - 1].content == Classify(a)
  {
  }
}
