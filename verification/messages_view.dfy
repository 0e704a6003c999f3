/** The chat screen of views/Messages.tsx: one message thread per contact,
    the send handler, and the assistant's reply. The assistant itself is not
    modelled: its answer arrives as a parameter, and `Date.now()` arrives as
    `now`. */
module MessagesView {
  import opened Types
  import Text

  /** A chat message; the timestamp is left out. */
  datatype Message = Message(id: string, senderId: string, text: string, isAI: bool)

  /** A contact in the side bar; avatar, presence and the preview line are left out. */
  datatype Contact = Contact(id: string, name: string, isAI: bool)

  /** The assistant's two modes, GENERAL by default. */
  datatype Mode = GENERAL | TRIAGE

  /** One earlier turn handed to the assistant as history. */
  datatype Turn = Turn(role: string, text: string)

  /** The arguments of one `getAIAssistantResponse` call. */
  datatype AssistantCall = AssistantCall(history: seq<Turn>, message: string, mode: Mode)

  /** `selectedContact`, `inputText`, `aiMode`, `messages` and `isLoading`. */
  datatype Chat = Chat(selected: Option<Contact>, input: string, mode: Mode,
                       threads: map<string, seq<Message>>, loading: bool)

  const AssistantId := "ai-assistant"
  const Fallback := "I'm sorry, I couldn't process that request."

  const Contacts: seq<Contact> := [
    Contact(AssistantId, "PetPulse AI Assistant", true),
    Contact("v1", "Dr. Sarah Smith", false),
    Contact("v2", "Dr. Mike Ross", false)
  ]

  const InitialThreads: map<string, seq<Message>> := map[
    AssistantId := [Message("1", AssistantId, "Hello! I'm your PetPulse AI Health Assistant. Are we doing a general wellness check today, or do you have a specific medical concern?", true)],
    "v1" := [Message("1", "v1", "Hi John, how is Buddy doing after the medication?", false)]
  ]

  /** The screen once mounted: the first contact, the assistant, is selected. */
  const Opened := Chat(Some(Contacts[0]), "", GENERAL, InitialThreads, false)

  /** The thread of contact `id`; a contact without one has an empty thread. */
  function Thread(threads: map<string, seq<Message>>, id: string): seq<Message> {
    if id in threads then threads[id] else []
  }

  /** The threads with `m` added at the end of contact `id`'s thread, which
      is created when it does not exist yet. */
  function Append(threads: map<string, seq<Message>>, id: string, m: Message): (r: map<string, seq<Message>>)
    ensures id in r && r[id] == Thread(threads, id) + [m]
    ensures forall k :: k != id ==> (k in r <==> k in threads)
    ensures forall k :: k != id && k in threads ==> r[k] == threads[k]
  {
    threads[id := Thread(threads, id) + [m]]
  }

  /** `handleSendMessage` up to the `await`, behind the send button. The
      button is disabled on a blank input and while a reply is loading, and
      a disabled button also blocks sending with Enter; with no contact
      selected the handler itself does nothing. Otherwise the typed text is appended
      to the selected contact's thread and the input cleared, and when the
      contact is the assistant the call it makes is returned. */
  function Send(chat: Chat, userId: string, now: nat): (r: (Chat, Option<AssistantCall>))
    ensures Text.IsBlank(chat.input) || chat.selected.None? || chat.loading ==> r == (chat, None)
    ensures !Text.IsBlank(chat.input) && chat.selected.Some? && !chat.loading ==>
              var id := chat.selected.value.id;
              && r.0.threads == Append(chat.threads, id, Message(Text.Decimal(now), userId, chat.input, false))
              && r.0.input == ""
              && r.0.selected == chat.selected && r.0.mode == chat.mode
              && (r.1.Some? <==> chat.selected.value.isAI)
              && (r.1.Some? ==> r.1.value == AssistantCall([], chat.input, chat.mode) && r.0.loading)
              && (r.1.None? ==> !r.0.loading)
  {
    Text.TrimEmptyIffBlank(chat.input);
    if Text.Trim(chat.input) == "" || chat.loading || chat.selected.None? then (chat, None)
    else
      var contact := chat.selected.value;
      var sent := Message(Text.Decimal(now), userId, chat.input, false);
      var next := chat.(threads := Append(chat.threads, contact.id, sent), input := "");
      if contact.isAI then (next.(loading := true), Some(AssistantCall([], chat.input, chat.mode)))
      else (next, None)
  }

  /** The text of the reply: the answer, or the apology when it is missing or empty. */
  function ReplyText(answer: Option<string>): (t: string)
    ensures t != ""
    ensures answer.Some? && answer.value != "" ==> t == answer.value
  {
    if answer.Some? && answer.value != "" then answer.value else Fallback
  }

  /** `handleSendMessage` after the `await`: the assistant's message goes to
      the end of the thread the question went to, and loading ends. */
  function Receive(chat: Chat, contactId: string, answer: Option<string>, now: nat): (r: Chat)
    ensures r.threads == Append(chat.threads, contactId, Message(Text.Decimal(now + 1), AssistantId, ReplyText(answer), true))
    ensures !r.loading
    ensures r.selected == chat.selected && r.input == chat.input && r.mode == chat.mode
  {
    chat.(threads := Append(chat.threads, contactId,
                            Message(Text.Decimal(now + 1), AssistantId, ReplyText(answer), true)),
          loading := false)
  }

  /** The GENERAL and TRIAGE buttons. */
  function SetMode(chat: Chat, mode: Mode): (r: Chat)
    ensures r.mode == mode && r.threads == chat.threads && r.input == chat.input
  {
    chat.(mode := mode)
  }

  /** A click on a contact in the side bar, or on the assistant button. */
  function Select(chat: Chat, contact: Contact): (r: Chat)
    ensures r.selected == Some(contact) && r.threads == chat.threads && r.input == chat.input
  {
    chat.(selected := Some(contact))
  }

  /** The back button of the narrow layout: no contact is selected. */
  function Deselect(chat: Chat): (r: Chat)
    ensures r.selected.None? && r.threads == chat.threads && r.input == chat.input && r.mode == chat.mode
  {
    chat.(selected := None)
  }

  /** With no contact selected nothing is sent, whatever is typed. */
  lemma DeselectedSendsNothing(chat: Chat, userId: string, now: nat)
    ensures Send(Deselect(chat), userId, now) == (Deselect(chat), None)
  {
  }

  /** A send to a veterinarian adds exactly the user's message to that
      thread and touches no other thread; it asks the assistant nothing. */
  lemma SendToPerson(chat: Chat, userId: string, now: nat)
    requires chat.selected.Some? && !chat.selected.value.isAI && !Text.IsBlank(chat.input) && !chat.loading
    ensures var (next, call) := Send(chat, userId, now);
            var id := chat.selected.value.id;
            && call.None?
            && Thread(next.threads, id) == Thread(chat.threads, id) + [Message(Text.Decimal(now), userId, chat.input, false)]
            && forall k :: k != id ==> Thread(next.threads, k) == Thread(chat.threads, k)
  {
  }

  /** Two appends to one thread leave it two messages longer, in order. */
  lemma AppendTwice(threads: map<string, seq<Message>>, id: string, q: Message, a: Message)
    ensures Thread(Append(Append(threads, id, q), id, a), id) == Thread(threads, id) + [q, a]
  {
    assert Thread(threads, id) + [q] + [a] == Thread(threads, id) + [q, a];
  }

  /** A question to the assistant followed by its answer leaves the thread
      one question and one reply longer, in that order, and the screen idle
      with an empty input. */
  lemma QuestionThenAnswer(chat: Chat, userId: string, now: nat, later: nat, answer: Option<string>)
    requires chat.selected.Some? && chat.selected.value.isAI && !Text.IsBlank(chat.input) && !chat.loading
    ensures var id := chat.selected.value.id;
            var done := Receive(Send(chat, userId, now).0, id, answer, later);
            && Thread(done.threads, id) == Thread(chat.threads, id)
                 + [Message(Text.Decimal(now), userId, chat.input, false),
                    Message(Text.Decimal(later + 1), AssistantId, ReplyText(answer), true)]
            && done.input == "" && !done.loading
  {
    var id := chat.selected.value.id;
    AppendTwice(chat.threads, id, Message(Text.Decimal(now), userId, chat.input, false),
                Message(Text.Decimal(later + 1), AssistantId, ReplyText(answer), true));
  }

  /** Neither the question nor the answer touches another contact's thread. */
  lemma QuestionSparesOthers(chat: Chat, userId: string, now: nat, later: nat, answer: Option<string>, k: string)
    requires chat.selected.Some? && chat.selected.value.isAI && !Text.IsBlank(chat.input) && !chat.loading
    requires k != chat.selected.value.id
    ensures var asked := Send(chat, userId, now).0;
            var done := Receive(asked, chat.selected.value.id, answer, later);
            Thread(done.threads, k) == Thread(chat.threads, k)
  {
  }

  /** On opening, the assistant is selected and both initial threads exist. */
  lemma OpenedState()
    ensures Opened.selected.Some? && Opened.selected.value.isAI && Opened.selected.value.id == AssistantId
    ensures |Thread(Opened.threads, AssistantId)| == 1 && |Thread(Opened.threads, "v1")| == 1
    ensures Thread(Opened.threads, "v2") == []
  {
    assert "v2" != AssistantId && "v2" != "v1";
  }
}
