/** The chat assistant panel (src/components/assistant/Assistant.jsx): the
    socket event handlers, sending a message, and the speech input. */
module Assistant {
  import opened Wrappers
  import opened Text

  datatype Message = Message(sender: string, content: string, timestamp: string)

  /** The socket events the panel listens to. */
  datatype Event =
    | AssistantMessage(message: Message)
    | AssistantQuestion(question: Message)
    | SessionData(messages: seq<Message>, sessionId: Option<string>)
    | AssistantTyping

  /** The `user_message` payload. */
  datatype Outgoing = UserMessage(sessionId: string, message: string)

  /** `prev ? `${prev} ${transcript}` : transcript`. */
  function MergeTranscript(prev: string, transcript: string): (r: string)
    ensures prev == "" ==> r == transcript
    ensures prev != "" ==> (|r| == |prev| + 1 + |transcript| && r[..|prev|] == prev
      && r[|prev|] == ' ' && r[|prev| + 1..] == transcript)
  {
    if prev != "" then prev + " " + transcript else transcript
  }

  /** Speech input never loses typed text: no matter how many transcripts
      arrive, what was typed stays at the front of the input. */
  lemma {:induction false} MergeKeepsPrefix(prev: string, transcripts: seq<string>)
    ensures |MergeAll(prev, transcripts)| >= |prev|
    ensures MergeAll(prev, transcripts)[..|prev|] == prev
    decreases |transcripts|
  {
    if transcripts != [] {
      var next := MergeTranscript(prev, transcripts[0]);
      MergeKeepsPrefix(next, transcripts[1..]);
      assert next[..|prev|] == prev;
    }
  }

  /** The input after several transcripts in turn. */
  function MergeAll(prev: string, transcripts: seq<string>): string
    decreases |transcripts|
  {
    if transcripts == [] then prev else MergeAll(MergeTranscript(prev, transcripts[0]), transcripts[1..])
  }

  /** `socket && sessionId`: a socket and a non-empty session id. */
  predicate CanEmit(hasSocket: bool, sessionId: Option<string>) {
    hasSocket && sessionId.Some? && sessionId.value != ""
  }

  class AssistantPanel {
    /** Whether the socket context holds a socket, and the provider's open
        flag; the handlers are registered only while both hold. */
    var hasSocket: bool
    var isAssistantOpen: bool
    var messages: seq<Message>
    var inputMessage: string
    var isListening: bool
    var isTyping: bool
    var sessionId: Option<string>

    constructor (socket: bool, open: bool)
      ensures hasSocket == socket && isAssistantOpen == open
      ensures messages == [] && inputMessage == "" && !isListening && !isTyping && sessionId == None
    {
      hasSocket, isAssistantOpen := socket, open;
      messages, inputMessage := [], "";
      isListening, isTyping := false, false;
      sessionId := None;
    }

    /** One socket event. */
    method Receive(e: Event)
      modifies this`messages, this`isTyping, this`sessionId
      ensures !(hasSocket && isAssistantOpen) ==>
        messages == old(messages) && isTyping == old(isTyping) && sessionId == old(sessionId)
      ensures hasSocket && isAssistantOpen ==> match e
        case AssistantMessage(m) =>
          messages == old(messages) + [m] && !isTyping && sessionId == old(sessionId)
        case AssistantQuestion(q) =>
          messages == old(messages) + [q] && !isTyping && sessionId == old(sessionId)
        case SessionData(ms, id) =>
          messages == ms && sessionId == id && isTyping == old(isTyping)
        case AssistantTyping =>
          isTyping && messages == old(messages) && sessionId == old(sessionId)
    {
      if !(hasSocket && isAssistantOpen) {
        return;
      }
      match e
      case AssistantMessage(m) =>
        messages := messages + [m];
        isTyping := false;
      case AssistantQuestion(q) =>
        messages := messages + [q];
        isTyping := false;
      case SessionData(ms, id) =>
        messages := ms;
        sessionId := id;
      case AssistantTyping =>
        isTyping := true;
    }

    method TypeInput(text: string)
      modifies this`inputMessage
      ensures inputMessage == text
    {
      inputMessage := text;
    }

    /** `handleSendMessage`; `now` is the timestamp. Returns what is
        emitted on the socket. */
    method HandleSendMessage(now: string) returns (emitted: Option<Outgoing>)
      modifies this`messages, this`inputMessage, this`isTyping
      ensures IsBlank(old(inputMessage)) ==> (emitted == None
        && messages == old(messages) && inputMessage == old(inputMessage) && isTyping == old(isTyping))
      ensures !IsBlank(old(inputMessage)) ==>
        messages == old(messages) + [Message("user", old(inputMessage), now)] && inputMessage == ""
      ensures !IsBlank(old(inputMessage)) && CanEmit(hasSocket, sessionId) ==>
        emitted == Some(UserMessage(sessionId.value, old(inputMessage))) && isTyping
      ensures !IsBlank(old(inputMessage)) && !CanEmit(hasSocket, sessionId) ==>
        emitted == None && isTyping == old(isTyping)
    {
      emitted := None;
      if IsBlank(inputMessage) {
        return;
      }
      var text := inputMessage;
      messages := messages + [Message("user", text, now)];
      inputMessage := "";
      if CanEmit(hasSocket, sessionId) {
        emitted := Some(UserMessage(sessionId.value, text));
        isTyping := true;
      }
    }

    /** The recognizer's `onresult`. */
    method OnTranscript(transcript: string)
      modifies this`inputMessage, this`isListening
      ensures inputMessage == MergeTranscript(old(inputMessage), transcript) && !isListening
    {
      inputMessage := MergeTranscript(inputMessage, transcript);
      isListening := false;
    }

    /** The recognizer's `onerror`. */
    method OnRecognitionError()
      modifies this`isListening
      ensures !isListening
    {
      isListening := false;
    }

    /** `toggleListening`; returns whether the recognizer is started
        (`true`) or stopped (`false`). */
    method ToggleListening() returns (started: bool)
      modifies this`isListening
      ensures isListening == !old(isListening) && started == isListening
    {
      started := !isListening;
      isListening := started;
    }
  }

  /** A session is loaded, the user sends a padded message and the reply
      arrives: the log is the session's history, the user's text as typed,
      and the reply, and the panel no longer shows typing. */
  method SendAndReply(history: seq<Message>, id: string, text: string, now: string, reply: Message)
    returns (log: seq<Message>, emitted: Option<Outgoing>, typing: bool)
    requires id != "" && !IsBlank(text)
    ensures log == history + [Message("user", text, now), reply]
    ensures emitted == Some(UserMessage(id, text))
    ensures !typing
  {
    var p := new AssistantPanel(true, true);
    p.Receive(SessionData(history, Some(id)));
    p.TypeInput(text);
    emitted := p.HandleSendMessage(now);
    p.Receive(AssistantMessage(reply));
    log, typing := p.messages, p.isTyping;
  }

  /** Without a session id the message is still logged but nothing is
      emitted. */
  method SendWithoutSession(text: string, now: string) returns (log: seq<Message>, emitted: Option<Outgoing>)
    requires !IsBlank(text)
    ensures log == [Message("user", text, now)] && emitted == None
  {
    var p := new AssistantPanel(true, true);
    p.TypeInput(text);
    emitted := p.HandleSendMessage(now);
    log := p.messages;
  }
}
