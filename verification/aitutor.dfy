/** The tutor chat panel (components/AITutor.tsx): the transcript, the input
    box and the busy flag, the greeting reset, the suggestion cards and the
    two halves of a send. The text service is a parameter: a total function
    from (organelle name, question) to reply text. */
module AITutor {
  import opened Types
  import opened Text
  import opened Organelles

  /** The panel's state: transcript, input box, busy flag. */
  datatype Chat = Chat(messages: seq<ChatMessage>, input: string, loading: bool)

  /** What the panel hands to the text service. */
  datatype Request = Request(organelleName: string, query: string)

  /** The first half of a send: the new state and the request it started, if any. */
  datatype SendStep = SendStep(chat: Chat, request: Option<Request>)

  const GreetingPrefix: string := "你好！我是 AI 生物助教。关于 **"
  const GreetingSuffix: string := "**，你想深入了解哪方面？点击下方的“灵感卡片”或直接问我吧！"

  /** The assistant's opening message, naming the first word of the record's name. */
  function Greeting(o: Organelle): (m: ChatMessage)
    ensures m.role == Model
    ensures GreetingPrefix <= m.text
    ensures |m.text| == |GreetingPrefix| + |FirstWord(o.name)| + |GreetingSuffix|
    ensures m.text[|GreetingPrefix|..|GreetingPrefix| + |FirstWord(o.name)|] == FirstWord(o.name)
  {
    var w := FirstWord(o.name);
    var t := GreetingPrefix + w + GreetingSuffix;
    assert t[|GreetingPrefix|..|GreetingPrefix| + |w|] == w;
    ChatMessage(Model, t)
  }

  /** The state once the panel has mounted for `o` and its greeting effect has run. */
  function Mounted(o: Organelle): Chat {
    Chat([Greeting(o)], "", false)
  }

  /** The greeting effect, keyed on the record's id: a new id replaces the
      whole transcript by one greeting; the input box and the busy flag stay. */
  function OnOrganelle(c: Chat, previousId: string, o: Organelle): (r: Chat)
    ensures r.input == c.input && r.loading == c.loading
    ensures o.id == previousId ==> r == c
    ensures o.id != previousId ==> |r.messages| == 1 && r.messages[0] == Greeting(o)
  {
    if o.id != previousId then c.(messages := [Greeting(o)]) else c
  }

  /** `customInput || input`: a non-empty suggestion wins over the input box. */
  function TextToSend(c: Chat, custom: Option<string>): string {
    if custom.Some? && custom.value != "" then custom.value else c.input
  }

  /** The send guard: nothing happens for blank text or while busy. */
  predicate SendBlocked(c: Chat, custom: Option<string>) {
    Trim(TextToSend(c, custom)) == [] || c.loading
  }

  /** The synchronous half of `handleSend`. */
  function BeginSend(c: Chat, o: Organelle, custom: Option<string>): (r: SendStep)
    ensures r.request.None? <==> SendBlocked(c, custom)
    ensures r.request.None? ==> r.chat == c
    ensures r.request.Some? ==>
      && r.chat.messages == c.messages + [ChatMessage(User, TextToSend(c, custom))]
      && r.chat.loading
      && r.request.value == Request(o.name, TextToSend(c, custom))
      && r.chat.input == (if custom.Some? && custom.value != "" then c.input else [])
  {
    if SendBlocked(c, custom) then SendStep(c, None)
    else
      var text := TextToSend(c, custom);
      var input := if custom.Some? && custom.value != "" then c.input else [];
      SendStep(Chat(c.messages + [ChatMessage(User, text)], input, true), Some(Request(o.name, text)))
  }

  /** The asynchronous half: the reply is appended to whatever the transcript
      is by then, and the busy flag drops. */
  function CompleteSend(c: Chat, reply: string): (r: Chat)
    ensures |r.messages| == |c.messages| + 1 && r.messages[|c.messages|] == ChatMessage(Model, reply)
    ensures r.messages[..|c.messages|] == c.messages
    ensures r.input == c.input && !r.loading
  {
    Chat(c.messages + [ChatMessage(Model, reply)], c.input, false)
  }

  /** A full accepted send: exactly one user message, then exactly one model
      message carrying the service's reply, and the busy flag ends down. */
  lemma SendAppendsQuestionThenReply(c: Chat, o: Organelle, custom: Option<string>, generate: (string, string) -> string)
    requires !SendBlocked(c, custom)
    ensures var s := BeginSend(c, o, custom);
      && s.request == Some(Request(o.name, TextToSend(c, custom)))
      && CompleteSend(s.chat, generate(o.name, TextToSend(c, custom))).messages
         == c.messages + [ChatMessage(User, TextToSend(c, custom)), ChatMessage(Model, generate(o.name, TextToSend(c, custom)))]
      && !CompleteSend(s.chat, generate(o.name, TextToSend(c, custom))).loading
  {
  }

  /** While busy, no send of any text starts a request or changes anything. */
  lemma BusyIgnoresSends(c: Chat, o: Organelle, custom: Option<string>)
    requires c.loading
    ensures BeginSend(c, o, custom) == SendStep(c, None)
  {
  }

  /** A reply that arrives after the record changed lands under the new
      greeting, since the transcript was reset in between. */
  lemma ReplyAfterSwitch(c: Chat, a: Organelle, b: Organelle, reply: string)
    requires a.id != b.id
    ensures CompleteSend(OnOrganelle(c, a.id, b), reply).messages == [Greeting(b), ChatMessage(Model, reply)]
  {
  }

  // ---------------------------------------------------------------------------
  // The service's fallbacks

  /** What the underlying model call produced. */
  datatype ServiceResult = Answered(text: string) | Failed

  const ThinkingFallback: string := "抱歉，AI 老师正在思考中，请稍后再试。"
  const NetworkFallback: string := "网络连接出现问题，请检查 API Key 配置。"

  /** The text the service resolves with: it never rejects; an empty answer
      and a failure each become a fixed apology. */
  function ReplyText(res: ServiceResult): (r: string)
    ensures r != []
    ensures res.Failed? ==> r == NetworkFallback
    ensures res.Answered? && res.text != [] ==> r == res.text
    ensures res.Answered? && res.text == [] ==> r == ThinkingFallback
  {
    match res
    case Answered(t) => if t != [] then t else ThinkingFallback
    case Failed => NetworkFallback
  }

  /** A failed call still completes the send: the apology is appended and the
      busy flag is cleared. */
  lemma FailureShowsFallback(c: Chat, o: Organelle, custom: Option<string>)
    requires !SendBlocked(c, custom)
    ensures var r := CompleteSend(BeginSend(c, o, custom).chat, ReplyText(Failed));
      r.messages[|r.messages| - 1] == ChatMessage(Model, NetworkFallback) && !r.loading
  {
  }

  // ---------------------------------------------------------------------------
  // Suggestion cards and buttons

  function BasePrompts(name: string): seq<string> {
    ["用简单的比喻解释一下" + name, "告诉我一个关于" + name + "的小知识", "给我出一道选择题"]
  }

  const EnergyPrompt: string := "它为什么被称为能量转换器？"
  const VacuolePrompt: string := "为什么枯萎的植物浇水后会挺立？"
  const NucleusPrompt: string := "如果没有它，细胞会怎么样？"

  /** The suggestion cards: three base prompts about the record, plus one
      specific prompt for the energy converters, the vacuole and the nucleus. */
  function Suggestions(o: Organelle): (r: seq<string>)
    ensures |r| == 3 || |r| == 4
    ensures r[..3] == BasePrompts(FirstWord(o.name))
    ensures |r| == 4 <==> o.id in {ChloroplastId, MitochondriaId, VacuoleId, NucleusId}
    ensures o.id in {ChloroplastId, MitochondriaId} ==> r[3] == EnergyPrompt
    ensures o.id == VacuoleId ==> r[3] == VacuolePrompt
    ensures o.id == NucleusId ==> r[3] == NucleusPrompt
    ensures forall i :: 0 <= i < |r| ==> r[i] != [] && !IsJsWhitespace(r[i][0])
  {
    var base := BasePrompts(FirstWord(o.name));
    base
      + (if o.id == ChloroplastId || o.id == MitochondriaId then [EnergyPrompt] else [])
      + (if o.id == VacuoleId then [VacuolePrompt] else [])
      + (if o.id == NucleusId then [NucleusPrompt] else [])
  }

  /** The send button is disabled while busy or while the input box is blank. */
  predicate SendButtonDisabled(c: Chat) {
    c.loading || Trim(c.input) == []
  }

  /** The suggestion cards are disabled while busy. */
  predicate SuggestionsDisabled(c: Chat) {
    c.loading
  }

  /** The send button is enabled exactly when pressing it starts a request. */
  lemma SendButtonMatchesGuard(c: Chat, o: Organelle)
    ensures SendButtonDisabled(c) <==> BeginSend(c, o, None).request.None?
  {
  }

  /** An enabled suggestion card always starts a request with its own text and
      leaves the input box alone. */
  lemma EnabledSuggestionSends(c: Chat, o: Organelle, i: int)
    requires !SuggestionsDisabled(c) && 0 <= i < |Suggestions(o)|
    ensures BeginSend(c, o, Some(Suggestions(o)[i])).request == Some(Request(o.name, Suggestions(o)[i]))
    ensures BeginSend(c, o, Some(Suggestions(o)[i])).chat.input == c.input
  {
    var s := Suggestions(o)[i];
    NotBlankWhenLeadingNonWhitespace(s);
    TrimEmptyIffBlank(s);
  }

  // ---------------------------------------------------------------------------
  // One outstanding request at a time

  /** Everything that can happen to the panel: typing, a send (from the input
      box when `custom` is None), the service's reply, a new record. */
  datatype ChatEvent = Typed(text: string) | Submitted(custom: Option<string>) | Replied(reply: string) | Switched(o: Organelle)

  /** The panel together with its record and the number of requests in flight;
      a reply only ever arrives for a request in flight. */
  datatype Session = Session(chat: Chat, organelle: Organelle, inFlight: nat)

  function ApplyChat(s: Session, e: ChatEvent): Session {
    match e
    case Typed(t) => s.(chat := s.chat.(input := t))
    case Submitted(custom) =>
      var st := BeginSend(s.chat, s.organelle, custom);
      s.(chat := st.chat, inFlight := s.inFlight + (if st.request.Some? then 1 else 0))
    case Replied(t) =>
      if s.inFlight == 0 then s else s.(chat := CompleteSend(s.chat, t), inFlight := s.inFlight - 1)
    case Switched(o) => s.(chat := OnOrganelle(s.chat, s.organelle.id, o), organelle := o)
  }

  function RunChat(s: Session, events: seq<ChatEvent>): Session
    decreases |events|
  {
    if events == [] then s else ApplyChat(RunChat(s, events[..|events| - 1]), events[|events| - 1])
  }

  /** At most one request is in flight, and the busy flag shows exactly when
      one is. */
  predicate Serialized(s: Session) {
    s.inFlight <= 1 && (s.chat.loading <==> s.inFlight == 1)
  }

  /** A freshly mounted panel is idle. */
  lemma MountedIsSerialized(o: Organelle)
    ensures Serialized(Session(Mounted(o), o, 0))
  {
  }

  /** Every event sequence keeps requests serialized. */
  lemma {:induction false} RequestsSerialized(s: Session, events: seq<ChatEvent>)
    requires Serialized(s)
    ensures Serialized(RunChat(s, events))
    decreases |events|
  {
    if events != [] {
      RequestsSerialized(s, events[..|events| - 1]);
    }
  }
}
