/**
 * The chat panel of components/CaseCopilot.tsx: `handleSend` appends the user's message,
 * sends the earlier conversation (without the action notices) to the editor chat, and
 * appends what comes back — an action notice and a refine request to the case viewer when
 * the reply asks for a refinement, then the reply's text if there is one.
 *
 * The chat service is an oracle from the history and the message to the response or the
 * thrown error.
 */
module Copilot {
  import opened Wrappers
  import opened Text
  import opened Types
  import opened Chat
  import opened CaseViewer

  datatype Role = User | Model

  datatype Message = Message(role: Role, text: string, isAction: bool)

  function RoleName(r: Role): string {
    if r == User then "user" else "model"
  }

  const Greeting: string :=
    "\U{4F60}\U{597D}\U{FF01}\U{6211}\U{662F}\U{60A8}\U{7684}\U{4E13}\U{5C5E}\U{6848}\U{4F8B}\U{7F16}\U{8F91}\U{3002}"
    + "\U{6211}\U{53EF}\U{4EE5}\U{5E2E}\U{60A8}\U{4FEE}\U{6539}\U{6B63}\U{6587}\U{3001}\U{6DA6}\U{8272}\U{8BED}\U{8A00}"
    + "\U{6216}\U{6DFB}\U{52A0}\U{6570}\U{636E}\U{8868}\U{683C}\U{3002}\U{8BF7}\U{76F4}\U{63A5}\U{544A}\U{8BC9}\U{6211}"
    + "\U{60A8}\U{9700}\U{8981}\U{8C03}\U{6574}\U{54EA}\U{91CC}\U{3002}\U{FF08}\U{4F8B}\U{5982}\U{FF1A}\U{201C}\U{628A}"
    + "\U{7B2C}\U{4E00}\U{6BB5}\U{7684}\U{80CC}\U{666F}\U{63CF}\U{8FF0}\U{6539}\U{5F97}\U{66F4}\U{7D27}\U{8FEB}\U{4E00}"
    + "\U{70B9}\U{201D} \U{6216} \U{201C}\U{5728}\U{8D22}\U{52A1}\U{90E8}\U{5206}\U{52A0}\U{4E00}\U{4E2A}\U{6536}\U{5165}"
    + "\U{5BF9}\U{6BD4}\U{8868}\U{201D}\U{FF09}"

  /** The action notice appended when a refinement starts. */
  const ActionNotice: string :=
    "\U{2699}\U{FE0F} \U{6B63}\U{5728}\U{542F}\U{52A8}\U{6DF1}\U{5EA6}\U{91CD}\U{6784}\U{5F15}\U{64CE}\U{FF0C}\U{8BF7}\U{7A0D}\U{5019}..."

  /** The message appended when the chat call throws. */
  const Disconnected: string :=
    "\U{62B1}\U{6B49}\U{FF0C}\U{8FDE}\U{63A5}\U{4E2D}\U{65AD}\U{FF0C}\U{8BF7}\U{91CD}\U{8BD5}\U{3002}"

  datatype PanelState = PanelState(messages: seq<Message>, input: string, isLoading: bool)

  /** What a send does that others see: messages appended and refine requests to the viewer. */
  datatype Event = Appended(message: Message) | RefineRequested(target: Target, instruction: Option<string>)

  /** `target === 'teaching_notes' ? 'notes' : 'case'`. */
  function MapTarget(target: Option<string>): (t: Target)
    ensures t == Notes <==> target == Some("teaching_notes")
  {
    if target == Some("teaching_notes") then Notes else CaseText
  }

  /** `filter(m => !m.isAction)`. */
  function NonAction(messages: seq<Message>): seq<Message> {
    if messages == [] then []
    else (if messages[0].isAction then [] else [messages[0]]) + NonAction(messages[1..])
  }

  /** The history sent to the chat: the non-action messages as `{role, parts: [{text}]}`. */
  function ChatHistory(messages: seq<Message>): seq<Content> {
    var kept := NonAction(messages);
    seq(|kept|, k requires 0 <= k < |kept| => Content(RoleName(kept[k].role), [kept[k].text]))
  }

  /** The `handleSend` guard. */
  predicate Blocked(s: PanelState) {
    Trim(s.input) == [] || s.isLoading
  }

  /** What the chat's answer adds after the user's message. */
  function ReplyEvents(reply: Reply<ChatResponse>): seq<Event> {
    if reply.Failure? then [Appended(Message(Model, Disconnected, false))]
    else
      (if reply.value.refinementRequest.Some?
       then [Appended(Message(Model, ActionNotice, true)),
             RefineRequested(MapTarget(reply.value.refinementRequest.value.target),
                             reply.value.refinementRequest.value.instruction)]
       else [])
      + (if reply.value.text != "" then [Appended(Message(Model, reply.value.text, false))] else [])
  }

  function MessagesOf(events: seq<Event>): seq<Message> {
    if events == [] then []
    else
      MessagesOf(events[..|events| - 1])
      + (if events[|events| - 1].Appended? then [events[|events| - 1].message] else [])
  }

  datatype Outcome = Outcome(state: PanelState, events: seq<Event>)

  /** A send from state `s`: nothing when blocked, otherwise the events and the state after them. */
  function Sent(s: PanelState, chat: (seq<Content>, string) -> Reply<ChatResponse>): Outcome {
    if Blocked(s) then Outcome(s, [])
    else
      var userMsg := Trim(s.input);
      var events := [Appended(Message(User, userMsg, false))] + ReplyEvents(chat(ChatHistory(s.messages), userMsg));
      Outcome(PanelState(s.messages + MessagesOf(events), "", false), events)
  }

  class Panel {
    var messages: seq<Message>
    var input: string
    var isLoading: bool

    function State(): PanelState
      reads this
    {
      PanelState(messages, input, isLoading)
    }

    /** The greeting, an empty input, not loading. */
    constructor ()
      ensures State() == PanelState([Message(Model, Greeting, false)], "", false)
    {
      messages := [Message(Model, Greeting, false)];
      input := "";
      isLoading := false;
    }

    /** `handleSend`, returning what it did that others see, in order. */
    method HandleSend(chat: (seq<Content>, string) -> Reply<ChatResponse>) returns (events: seq<Event>)
      modifies this
      ensures Outcome(State(), events) == Sent(old(State()), chat)
    {
      ghost var s0 := State();
      if Trim(input) == [] || isLoading {
        SendBlocked(s0, chat);
        return [];
      }
      var userMsg := Trim(input);
      input := "";
      var history := ChatHistory(messages);
      messages := messages + [Message(User, userMsg, false)];
      events := [Appended(Message(User, userMsg, false))];
      isLoading := true;
      var response := chat(history, userMsg);
      var added := AppendReply(response);
      ghost var sent := [Message(User, userMsg, false)];
      assert MessagesOf(events) == sent by {
        assert events == [] + events;
        MessagesOfSnoc([], events[0]);
      }
      MessagesOfAppend(events, added);
      assert messages == s0.messages + (sent + MessagesOf(added));
      events := events + added;
      isLoading := false;
      SentUnfold(s0, chat);
    }

    /** The `try`/`catch` part of `handleSend`: what the chat's answer appends, in order. */
    method AppendReply(response: Reply<ChatResponse>) returns (added: seq<Event>)
      modifies this
      ensures added == ReplyEvents(response)
      ensures messages == old(messages) + MessagesOf(added)
      ensures input == old(input) && isLoading == old(isLoading)
    {
      added := [];
      if response.Failure? {
        messages := messages + [Message(Model, Disconnected, false)];
        added := added + [Appended(Message(Model, Disconnected, false))];
      } else {
        if response.value.refinementRequest.Some? {
          var target := MapTarget(response.value.refinementRequest.value.target);
          messages := messages + [Message(Model, ActionNotice, true)];
          added := added + [Appended(Message(Model, ActionNotice, true)),
                            RefineRequested(target, response.value.refinementRequest.value.instruction)];
        }
        if response.value.text != "" {
          messages := messages + [Message(Model, response.value.text, false)];
          added := added + [Appended(Message(Model, response.value.text, false))];
        }
      }
      ReplyMessages(response);
    }
  }

  lemma SentUnfold(s: PanelState, chat: (seq<Content>, string) -> Reply<ChatResponse>)
    requires !Blocked(s)
    ensures var events := [Appended(Message(User, Trim(s.input), false))]
                          + ReplyEvents(chat(ChatHistory(s.messages), Trim(s.input)));
      Sent(s, chat) == Outcome(PanelState(s.messages + MessagesOf(events), "", false), events)
  {
  }

  /**
   * The messages the chat's answer appends: one apology for a thrown error; otherwise the action
   * notice when a refinement is requested, then the reply's text when it is not empty.
   */
  lemma ReplyMessages(reply: Reply<ChatResponse>)
    ensures MessagesOf(ReplyEvents(reply)) ==
      (if reply.Failure? then [Message(Model, Disconnected, false)]
       else
         (if reply.value.refinementRequest.Some? then [Message(Model, ActionNotice, true)] else [])
         + (if reply.value.text != "" then [Message(Model, reply.value.text, false)] else []))
  {
    if reply.Failure? {
      MessagesOfSnoc([], Appended(Message(Model, Disconnected, false)));
    } else {
      var r := reply.value;
      var withRefine: seq<Event> := [];
      if r.refinementRequest.Some? {
        var notice := Appended(Message(Model, ActionNotice, true));
        var request := RefineRequested(MapTarget(r.refinementRequest.value.target), r.refinementRequest.value.instruction);
        MessagesOfSnoc([], notice);
        MessagesOfSnoc([notice], request);
        withRefine := [notice] + [request];
        assert MessagesOf(withRefine) == [Message(Model, ActionNotice, true)];
      }
      if r.text != "" {
        MessagesOfSnoc(withRefine, Appended(Message(Model, r.text, false)));
        assert ReplyEvents(reply) == withRefine + [Appended(Message(Model, r.text, false))];
      } else {
        assert ReplyEvents(reply) == withRefine;
      }
    }
  }

  lemma {:induction false} MessagesOfAppend(a: seq<Event>, b: seq<Event>)
    ensures MessagesOf(a + b) == MessagesOf(a) + MessagesOf(b)
  {
    if b != [] {
      var front := b[..|b| - 1];
      MessagesOfAppend(a, front);
      assert (a + b)[..|a + b| - 1] == a + front;
    } else {
      assert a + b == a;
    }
  }

  lemma MessagesOfSnoc(events: seq<Event>, e: Event)
    ensures MessagesOf(events + [e]) == MessagesOf(events) + (if e.Appended? then [e.message] else [])
  {
    assert (events + [e])[..|events|] == events;
  }

  /** Blank input, or any input while a reply is awaited, changes nothing and does nothing. */
  lemma SendBlocked(s: PanelState, chat: (seq<Content>, string) -> Reply<ChatResponse>)
    requires Blocked(s)
    ensures Sent(s, chat) == Outcome(s, [])
  {
  }

  /**
   * A send appends the trimmed input as the user's message, clears the input and ends not
   * loading. A thrown error then appends one apology; otherwise an action notice is appended
   * when a refinement is requested, then the reply's text when it is not empty.
   */
  lemma SendMessages(s: PanelState, chat: (seq<Content>, string) -> Reply<ChatResponse>)
    requires !Blocked(s)
    ensures var o := Sent(s, chat);
      var userMsg := Message(User, Trim(s.input), false);
      var reply := chat(ChatHistory(s.messages), Trim(s.input));
      && o.state.input == "" && !o.state.isLoading
      && userMsg.text != [] && IsTrimmed(userMsg.text)
      && (reply.Failure? ==> o.state.messages == s.messages + [userMsg, Message(Model, Disconnected, false)])
      && (reply.Success? ==>
            o.state.messages == s.messages + [userMsg]
              + (if reply.value.refinementRequest.Some? then [Message(Model, ActionNotice, true)] else [])
              + (if reply.value.text != "" then [Message(Model, reply.value.text, false)] else []))
  {
    var userMsg := Message(User, Trim(s.input), false);
    var reply := chat(ChatHistory(s.messages), Trim(s.input));
    var first := [Appended(userMsg)];
    SentUnfold(s, chat);
    assert MessagesOf(first) == [userMsg] by {
      assert first == [] + first;
      MessagesOfSnoc([], Appended(userMsg));
    }
    MessagesOfAppend(first, ReplyEvents(reply));
    ReplyMessages(reply);
  }

  /**
   * The chat's answer makes a refine request exactly when it asks for a refinement; then it
   * makes exactly one, right after the action notice, for the mapped target and with the
   * requested instruction, and everything else it does is appending a message.
   */
  lemma ReplyRequests(reply: Reply<ChatResponse>)
    ensures var e := ReplyEvents(reply);
      && ((exists k :: 0 <= k < |e| && e[k].RefineRequested?) <==>
            reply.Success? && reply.value.refinementRequest.Some?)
      && (forall k :: 0 <= k < |e| && e[k].RefineRequested? ==>
            && k == 1 && e[0] == Appended(Message(Model, ActionNotice, true))
            && e[k].target == MapTarget(reply.value.refinementRequest.value.target)
            && e[k].instruction == reply.value.refinementRequest.value.instruction
            && forall j :: 0 <= j < |e| && j != k ==> e[j].Appended?)
  {
    var e := ReplyEvents(reply);
    if reply.Success? && reply.value.refinementRequest.Some? {
      assert e[1].RefineRequested?;
    }
  }

  /** The same seen from the whole send: the user's message comes first, the request third. */
  lemma SendRequests(s: PanelState, chat: (seq<Content>, string) -> Reply<ChatResponse>)
    requires !Blocked(s)
    ensures var o := Sent(s, chat);
      var reply := chat(ChatHistory(s.messages), Trim(s.input));
      && o.events[0] == Appended(Message(User, Trim(s.input), false))
      && ((exists k :: 0 <= k < |o.events| && o.events[k].RefineRequested?) <==>
            reply.Success? && reply.value.refinementRequest.Some?)
      && (forall k :: 0 <= k < |o.events| && o.events[k].RefineRequested? ==>
            && k == 2 && o.events[1] == Appended(Message(Model, ActionNotice, true))
            && o.events[k].target == MapTarget(reply.value.refinementRequest.value.target)
            && o.events[k].instruction == reply.value.refinementRequest.value.instruction
            && forall j :: 0 <= j < |o.events| && j != k ==> o.events[j].Appended?)
  {
    var reply := chat(ChatHistory(s.messages), Trim(s.input));
    var e := ReplyEvents(reply);
    var events := [Appended(Message(User, Trim(s.input), false))] + e;
    SentUnfold(s, chat);
    ReplyRequests(reply);
    assert forall k :: 1 <= k < |events| ==> events[k] == e[k - 1];
    if exists k :: 0 <= k < |events| && events[k].RefineRequested? {
      var k :| 0 <= k < |events| && events[k].RefineRequested?;
      assert e[k - 1].RefineRequested?;
    }
    if reply.Success? && reply.value.refinementRequest.Some? {
      assert events[2].RefineRequested?;
    }
  }

  /**
   * The history keeps exactly the messages that are not action notices, in their order, and
   * carries each one's role and text.
   */
  lemma {:induction false} NonActionExact(messages: seq<Message>)
    ensures var kept := NonAction(messages);
      && IsSubsequence(kept, messages)
      && (forall k :: 0 <= k < |kept| ==> !kept[k].isAction)
      && (forall m :: m in messages && !m.isAction ==> m in kept)
      && (forall m :: m in kept ==> m in messages)
  {
    if messages != [] {
      NonActionExact(messages[1..]);
      var rest := NonAction(messages[1..]);
      if !messages[0].isAction {
        assert NonAction(messages) == [messages[0]] + rest;
        assert ([messages[0]] + rest)[1..] == rest;
      } else {
        assert NonAction(messages) == rest;
      }
      assert forall m :: m in messages ==> m == messages[0] || m in messages[1..];
    }
  }

  lemma HistoryOfMessages(messages: seq<Message>)
    ensures var kept := NonAction(messages);
      && |ChatHistory(messages)| == |kept|
      && forall k :: 0 <= k < |kept| ==> ChatHistory(messages)[k] == Content(RoleName(kept[k].role), [kept[k].text])
  {
  }
}
