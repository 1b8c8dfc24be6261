/** Conversation windowing: the server's `trim_history`, and the FAISS
    variant's chatbot turn, whose prompt carries the system prompt, at most
    the last four history entries and the user's message, and whose session
    memory keeps the last sixteen entries. The chat completion and the JSON
    parser are parameters. */
module Conversation {
  import opened Wrappers
  import opened Seqs
  import opened Values
  import opened Text

  /** The server's default `max_messages`. */
  const ServerHistoryLimit: int := 24
  /** `history[-4:]` of the chatbot prompt. */
  const PromptWindow: nat := 4
  /** `history[-16:]` of the session memory. */
  const SessionLimit: nat := 16

  /** `trim_history(history, max_messages)`: the history itself when it is
      short enough, else `history[-max_messages:]`. With the slice's Python
      semantics a limit of 0 keeps everything (`history[-0:]` is the whole
      list) and a negative limit drops from the front. */
  function TrimHistory<T>(history: seq<T>, maxMessages: int): (r: seq<T>)
    ensures |history| <= maxMessages ==> r == history
    ensures 0 < maxMessages < |history| ==> |r| == maxMessages
    ensures maxMessages == 0 ==> r == history
    ensures |r| <= |history| && r == history[|history| - |r|..]
    ensures 0 < maxMessages ==> |r| <= maxMessages
  {
    if |history| <= maxMessages then history else SliceFrom(history, -maxMessages)
  }

  /** Trimming twice is trimming once. */
  lemma TrimHistoryIdempotent<T>(history: seq<T>, maxMessages: int)
    requires maxMessages > 0
    ensures TrimHistory(TrimHistory(history, maxMessages), maxMessages) == TrimHistory(history, maxMessages)
  {
  }

  /** Trimming keeps the newest message: a non-empty history still ends
      with the same entry. */
  lemma TrimKeepsLast<T>(history: seq<T>, maxMessages: int)
    requires |history| > 0 && maxMessages > 0
    ensures |TrimHistory(history, maxMessages)| > 0
    ensures TrimHistory(history, maxMessages)[|TrimHistory(history, maxMessages)| - 1] == history[|history| - 1]
  {
  }

  datatype Role = SystemRole | UserRole | AssistantRole

  /** One entry of the `messages` list sent to the chat completion. */
  datatype Message = Message(role: Role, content: string)

  /** `{"role": "assistant" if h["role"] == "assistant" else "user",
      "content": str(h["content"])}`; `None` for the `KeyError` of an entry
      without `role` or `content`. */
  function PromptEntry(h: Event): (r: Option<Message>)
    ensures r.Some? <==> "role" in h && "content" in h
    ensures r.Some? ==> r.value.role != SystemRole
    ensures r.Some? ==> (r.value.role == AssistantRole <==> h["role"] == JStr("assistant"))
    ensures r.Some? ==> r.value.content == Render(h["content"])
  {
    if "role" !in h || "content" !in h then None
    else Some(Message(if h["role"] == JStr("assistant") then AssistantRole else UserRole, Render(h["content"])))
  }

  /** The entries of a window, converted in order; `None` when one raises. */
  function PromptEntries(window: seq<Event>): (r: Option<seq<Message>>)
    ensures r.Some? <==> forall j :: 0 <= j < |window| ==> PromptEntry(window[j]).Some?
    ensures r.Some? ==> |r.value| == |window|
    ensures r.Some? ==> forall j :: 0 <= j < |window| ==> PromptEntry(window[j]) == Some(r.value[j])
  {
    if |window| == 0 then Some([])
    else
      match PromptEntry(window[0])
      case None => None
      case Some(m) =>
        match PromptEntries(window[1..])
        case None => None
        case Some(rest) =>
          assert forall j :: 1 <= j < |window| ==> window[1..][j - 1] == window[j];
          Some([m] + rest)
  }

  /** The chatbot's `messages`: the system prompt, the last four history
      entries with their roles mapped, and the user's message last. */
  function PromptMessages(system: string, history: seq<Event>, message: string): (r: Option<seq<Message>>)
    ensures r.Some? <==> forall j :: 0 <= j < |SliceFrom(history, -4)| ==> PromptEntry(SliceFrom(history, -4)[j]).Some?
    ensures r.Some? ==> 2 <= |r.value| <= 2 + PromptWindow
    ensures r.Some? ==> |r.value| == 2 + (if |history| < 4 then |history| else 4)
    ensures r.Some? ==> r.value[0] == Message(SystemRole, system)
    ensures r.Some? ==> r.value[|r.value| - 1] == Message(UserRole, message)
    ensures r.Some? ==> forall j :: 1 <= j < |r.value| - 1 ==> r.value[j].role != SystemRole
  {
    match PromptEntries(SliceFrom(history, -4))
    case None => None
    case Some(window) => Some([Message(SystemRole, system)] + window + [Message(UserRole, message)])
  }

  /** The prompt is the system message, the converted window, and the
      user's message. */
  lemma PromptLayout(system: string, history: seq<Event>, message: string)
    requires PromptMessages(system, history, message).Some?
    ensures PromptEntries(SliceFrom(history, -4)).Some?
    ensures PromptMessages(system, history, message).value
      == [Message(SystemRole, system)] + PromptEntries(SliceFrom(history, -4)).value + [Message(UserRole, message)]
  {
  }

  /** Each history entry in the prompt is the one at the same distance from
      the end of the history: the prompt is the newest part of the
      conversation, in its order. */
  lemma PromptIsNewestHistory(system: string, history: seq<Event>, message: string, j: nat)
    requires PromptMessages(system, history, message).Some?
    requires 0 < j < |PromptMessages(system, history, message).value| - 1
    ensures var msgs := PromptMessages(system, history, message).value;
      PromptEntry(history[|history| - (|msgs| - 1 - j)]) == Some(msgs[j])
  {
    PromptLayout(system, history, message);
    var window := SliceFrom(history, -4);
    var entries := PromptEntries(window).value;
    assert PromptEntry(window[j - 1]) == Some(entries[j - 1]);
    assert window[j - 1] == history[|history| - |window| + (j - 1)];
  }

  /** `{"role": role, "content": text}` as stored in the session memory. */
  function Entry(role: string, text: string): (r: Event)
    ensures r.Keys == {"role", "content"}
  {
    map["role" := JStr(role), "content" := JStr(text)]
  }

  /** The session history after a completed turn: the user's message and
      the reply appended, and the last sixteen kept when it grew longer. */
  function SessionAfterReply(history: seq<Event>, message: string, reply: string): (r: seq<Event>)
    ensures |r| == if |history| + 2 <= SessionLimit then |history| + 2 else SessionLimit
    ensures r[|r| - 2] == Entry("user", message) && r[|r| - 1] == Entry("assistant", reply)
    ensures r == (history + [Entry("user", message), Entry("assistant", reply)])[|history| + 2 - |r|..]
  {
    TrimHistory(history + [Entry("user", message), Entry("assistant", reply)], SessionLimit)
  }

  /** The parsed reply's `response` field, or the fallback when parsing
      fails or it has no `response`. */
  datatype Response<J> =
    | NeedMessage
    | NoApiKey
    | Raised
    | Structured(response: J)
    | Other(intent: string, ko: string, en: string)

  const ApologyKo: string := "죄송합니다. 잠시 후 다시 시도해주세요."
  const ApologyEn: string := "Sorry, please try again later."

  /** One answered turn: the answer and, when the completion returned, the
      session history it leaves. */
  datatype Turn<J> = Turn(answer: Response<J>, updated: Option<seq<Event>>)

  /** The part of `chatbot` after the guards: prompt, completion, history
      update, parse. The history is updated only when the completion
      returned, and before the reply is parsed, so a reply that does not
      parse is still remembered. */
  function ChatTurn<J>(history: seq<Event>, message: string, system: string,
                       complete: seq<Message> -> Option<string>, parse: string -> Option<J>): (r: Turn<J>)
    ensures r.answer != NeedMessage && r.answer != NoApiKey
    ensures r.answer.Raised? <==> PromptMessages(system, history, message).None?
    ensures r.answer.Raised? ==> r.updated.None?
    ensures r.answer.Other? ==> r.answer.intent == "other"
    ensures r.answer.Other? ==>
      (r.answer == Other("other", ApologyKo, ApologyEn) && r.updated.None?)
      || (r.answer.ko == r.answer.en && r.updated == Some(SessionAfterReply(history, message, r.answer.ko))
          && parse(r.answer.ko).None?)
    ensures r.answer.Structured? ==>
      exists reply :: r.updated == Some(SessionAfterReply(history, message, reply)) && parse(reply) == Some(r.answer.response)
    ensures r.updated.Some? <==>
      PromptMessages(system, history, message).Some? && complete(PromptMessages(system, history, message).value).Some?
    ensures r.updated.Some? ==>
      r.updated.value == SessionAfterReply(history, message, Strip(complete(PromptMessages(system, history, message).value).value))
  {
    match PromptMessages(system, history, message)
    case None => Turn(Raised, None)
    case Some(msgs) =>
      match complete(msgs)
      case None => Turn(Other("other", ApologyKo, ApologyEn), None)
      case Some(raw) =>
        var reply := Strip(raw);
        var updated := SessionAfterReply(history, message, reply);
        match parse(reply)
        case Some(j) => Turn(Structured(j), Some(updated))
        case None => Turn(Other("other", reply, reply), Some(updated))
  }

  /** The history a turn starts from: the session's (empty for a new
      session), or the caller's list when there is no session. */
  function HistoryFor(memory: map<string, seq<Event>>, sessionId: string, chatHistory: seq<Event>): seq<Event>
  {
    if sessionId == [] then chatHistory
    else if sessionId in memory then memory[sessionId] else []
  }

  /** The session memory after a turn: with a session, its history becomes
      the one the turn left (or stays, when the turn left none, though a new
      session is still registered); every other session is untouched. */
  function SessionMemory(memory: map<string, seq<Event>>, sessionId: string, history: seq<Event>,
                         updated: Option<seq<Event>>): (r: map<string, seq<Event>>)
    ensures sessionId == [] ==> r == memory
    ensures forall s :: s in memory && s != sessionId ==> s in r && r[s] == memory[s]
    ensures forall s :: s in r ==> s in memory || s == sessionId
    ensures sessionId != [] ==> sessionId in r && r[sessionId] == updated.GetOr(history)
  {
    if sessionId == [] then memory else memory[sessionId := updated.GetOr(history)]
  }

  /** Every session holds at most sixteen entries. */
  predicate SessionsBounded(memory: map<string, seq<Event>>) {
    forall s :: s in memory ==> |memory[s]| <= SessionLimit
  }

  /** A turn leaves at most sixteen entries behind. */
  lemma TurnUpdateBounded<J>(history: seq<Event>, message: string, system: string,
                             complete: seq<Message> -> Option<string>, parse: string -> Option<J>)
    ensures var t := ChatTurn(history, message, system, complete, parse);
      t.updated.Some? ==> |t.updated.value| <= SessionLimit
  {
  }

  /** The history ends with the user's message and then the reply. */
  predicate EndsWithTurn(h: seq<Event>, message: string, reply: string) {
    |h| >= 2 && h[|h| - 2] == Entry("user", message) && h[|h| - 1] == Entry("assistant", reply)
  }

  /** What a turn leaves in its session: the reply appended when the
      completion returned, the starting history otherwise. */
  lemma TurnSession<J>(memory: map<string, seq<Event>>, sessionId: string, history: seq<Event>,
                       message: string, system: string,
                       complete: seq<Message> -> Option<string>, parse: string -> Option<J>)
    requires sessionId != []
    ensures var m := SessionMemory(memory, sessionId, history, ChatTurn(history, message, system, complete, parse).updated);
      var prompt := PromptMessages(system, history, message);
      && sessionId in m
      && (prompt.Some? && complete(prompt.value).Some? ==>
            var reply := Strip(complete(prompt.value).value);
            && m[sessionId] == SessionAfterReply(history, message, reply)
            && EndsWithTurn(m[sessionId], message, reply))
      && (prompt.None? || complete(prompt.value).None? ==> m[sessionId] == history)
  {
    var prompt := PromptMessages(system, history, message);
    if prompt.Some? && complete(prompt.value).Some? {
      var reply := Strip(complete(prompt.value).value);
      var after := SessionAfterReply(history, message, reply);
      assert ChatTurn(history, message, system, complete, parse).updated == Some(after);
    }
  }

  /** What a turn answers, by how far it got. */
  lemma TurnAnswer<J>(history: seq<Event>, message: string, system: string,
                      complete: seq<Message> -> Option<string>, parse: string -> Option<J>)
    ensures var answer := ChatTurn(history, message, system, complete, parse).answer;
      var prompt := PromptMessages(system, history, message);
      && (prompt.None? ==> answer == Raised)
      && (prompt.Some? && complete(prompt.value).None? ==> answer == Other("other", ApologyKo, ApologyEn))
      && (prompt.Some? && complete(prompt.value).Some? ==>
            var reply := Strip(complete(prompt.value).value);
            answer == match parse(reply) case Some(j) => Structured(j) case None => Other("other", reply, reply))
  {
  }

  /** A turn keeps bounded memory bounded. */
  lemma TurnKeepsSessionsBounded<J>(memory: map<string, seq<Event>>, sessionId: string, chatHistory: seq<Event>,
                                    message: string, system: string,
                                    complete: seq<Message> -> Option<string>, parse: string -> Option<J>)
    ensures var history := HistoryFor(memory, sessionId, chatHistory);
      SessionsBounded(memory) ==> SessionsBounded(SessionMemory(memory, sessionId, history, ChatTurn(history, message, system, complete, parse).updated))
  {
    var history := HistoryFor(memory, sessionId, chatHistory);
    TurnUpdateBounded(history, message, system, complete, parse);
    var m := SessionMemory(memory, sessionId, history, ChatTurn(history, message, system, complete, parse).updated);
    if SessionsBounded(memory) {
      forall s | s in m ensures |m[s]| <= SessionLimit {
        if s != sessionId {
          assert m[s] == memory[s];
        }
      }
    }
  }

  /** `chatbot(message, chat_history, session_id)` of the FAISS variant,
      with the completion (`None` when it raises) and the parser of the
      `response` field as parameters. Answers and the session memory after
      the turn. A session id of `""` means no session.

      An empty message or a missing client answers early and leaves the
      memory alone. Otherwise the prompt is built from the session's
      history (or the caller's list without a session): a prompt that
      cannot be built raises, a failed completion answers the apology, and
      a completed reply answers its parsed `response` or, when it does not
      parse, itself under intent `"other"`. A completed turn ends the
      session with the user's message and the stripped reply; only that
      session changes, and no session grows past sixteen entries. */
  function Chatbot<J>(message: string, hasClient: bool, sessionId: string, memory: map<string, seq<Event>>,
                      chatHistory: seq<Event>, system: string,
                      complete: seq<Message> -> Option<string>, parse: string -> Option<J>)
    : (r: (Response<J>, map<string, seq<Event>>))
    ensures message == [] ==> r.0 == NeedMessage && r.1 == memory
    ensures message != [] && !hasClient ==> r.0 == NoApiKey && r.1 == memory
    ensures message != [] && hasClient ==>
      var prompt := PromptMessages(system, HistoryFor(memory, sessionId, chatHistory), message);
      && (prompt.None? ==> r.0 == Raised)
      && (prompt.Some? && complete(prompt.value).None? ==> r.0 == Other("other", ApologyKo, ApologyEn))
      && (prompt.Some? && complete(prompt.value).Some? ==>
            var reply := Strip(complete(prompt.value).value);
            r.0 == match parse(reply) case Some(j) => Structured(j) case None => Other("other", reply, reply))
    ensures sessionId == [] ==> r.1 == memory
    ensures forall s :: s in memory && s != sessionId ==> s in r.1 && r.1[s] == memory[s]
    ensures forall s :: s in r.1 ==> s in memory || s == sessionId
    ensures message != [] && hasClient && sessionId != [] ==>
      var history := HistoryFor(memory, sessionId, chatHistory);
      var prompt := PromptMessages(system, history, message);
      && sessionId in r.1
      && (prompt.Some? && complete(prompt.value).Some? ==>
            var reply := Strip(complete(prompt.value).value);
            && r.1[sessionId] == SessionAfterReply(history, message, reply)
            && EndsWithTurn(r.1[sessionId], message, reply))
      && (prompt.None? || complete(prompt.value).None? ==> r.1[sessionId] == history)
    ensures SessionsBounded(memory) ==> SessionsBounded(r.1)
  {
    if message == [] then (NeedMessage, memory)
    else if !hasClient then (NoApiKey, memory)
    else
      var history := HistoryFor(memory, sessionId, chatHistory);
      var turn := ChatTurn(history, message, system, complete, parse);
      TurnAnswer(history, message, system, complete, parse);
      TurnKeepsSessionsBounded(memory, sessionId, chatHistory, message, system, complete, parse);
      if sessionId == [] then (turn.answer, memory)
      else
        TurnSession(memory, sessionId, history, message, system, complete, parse);
        (turn.answer, SessionMemory(memory, sessionId, history, turn.updated))
  }
}
