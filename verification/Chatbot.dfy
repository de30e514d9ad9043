/** The floating chat window: the transcript and the input box around one call to the
    chat function. */
module Chatbot {
  import opened Common

  const SendFailedMessage: string := "Gagal mengirim pesan"

  datatype Role = User | Assistant

  datatype Message = Message(role: Role, content: string)

  datatype ChatState = ChatState(messages: seq<Message>, input: string, loading: bool)

  /** The send button is enabled when idle and the input is not blank. */
  predicate CanSend(st: ChatState) {
    !st.loading && !IsBlank(st.input)
  }

  /** The chat function's answer: the reply text, or the error thrown (its message may be empty). */
  datatype ChatReply = Replied(reply: string) | Threw(message: string)

  /** One `handleSend`: the state afterwards, the message sent (if any) and the error
      notice shown (if any). */
  datatype Exchange = Exchange(state: ChatState, sent: Option<string>, notice: Option<string>)

  function HandleSend(st: ChatState, answer: ChatReply): (r: Exchange)
    ensures IsBlank(st.input) ==> r == Exchange(st, None, None)
    ensures !IsBlank(st.input) ==>
      && r.sent == Some(st.input)
      && r.state.input == "" && !r.state.loading
      && |r.state.messages| >= |st.messages| + 1
      && r.state.messages[..|st.messages| + 1] == st.messages + [Message(User, st.input)]
    ensures !IsBlank(st.input) && answer.Replied? ==>
      r.state.messages == st.messages + [Message(User, st.input), Message(Assistant, answer.reply)] && r.notice.None?
    ensures !IsBlank(st.input) && answer.Threw? ==>
      r.state.messages == st.messages + [Message(User, st.input)]
      && r.notice == Some(if answer.message != "" then answer.message else SendFailedMessage)
  {
    if IsBlank(st.input) then Exchange(st, None, None)
    else
      var asked := st.messages + [Message(User, st.input)];
      match answer
      case Replied(reply) =>
        Exchange(ChatState(asked + [Message(Assistant, reply)], "", false), Some(st.input), None)
      case Threw(msg) =>
        Exchange(ChatState(asked, "", false), Some(st.input), Some(if msg != "" then msg else SendFailedMessage))
  }

  /** Every assistant message answers the user message right before it. */
  predicate Answered(ms: seq<Message>) {
    forall i :: 0 <= i < |ms| && ms[i].role == Assistant ==> 0 < i && ms[i - 1].role == User
  }

  /** A transcript in which every answer follows a question stays so after any send. */
  lemma SendKeepsAnswered(st: ChatState, answer: ChatReply)
    requires Answered(st.messages)
    ensures Answered(HandleSend(st, answer).state.messages)
  {
    var ms := HandleSend(st, answer).state.messages;
    forall i | 0 <= i < |ms| && ms[i].role == Assistant
      ensures 0 < i && ms[i - 1].role == User
    {
      if i < |st.messages| {
        assert ms[i] == st.messages[i];
        assert ms[i - 1] == st.messages[i - 1];
      }
    }
  }

  /** A run of sends over a list of inputs, each with its answer. */
  function Run(st: ChatState, turns: seq<(string, ChatReply)>): ChatState
    decreases |turns|
  {
    if |turns| == 0 then st
    else Run(HandleSend(st.(input := turns[0].0), turns[0].1).state, turns[1..])
  }

  /** Over a whole conversation, answers always follow questions. */
  lemma {:induction false} RunKeepsAnswered(st: ChatState, turns: seq<(string, ChatReply)>)
    requires Answered(st.messages)
    ensures Answered(Run(st, turns).messages)
    decreases |turns|
  {
    if |turns| > 0 {
      SendKeepsAnswered(st.(input := turns[0].0), turns[0].1);
      RunKeepsAnswered(HandleSend(st.(input := turns[0].0), turns[0].1).state, turns[1..]);
    }
  }
}
