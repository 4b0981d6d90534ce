/**
 * The terminal's conversation controller: the transcript, the input box, the
 * typing indicator and the replies scheduled to appear after the simulated
 * delay. The pure `State` and its step functions specify each transition; the
 * class `ChatSession` performs them in place.
 */
module Conversation {
  import opened Text
  import opened Intents

  datatype Sender = User | Ai

  /** One line of the transcript; `id` only keys the line for display. */
  datatype Message = Message(id: nat, sender: Sender, text: string)

  const GreetingText := "Hello! I am Farzana's AI Assistant. You can ask me about her skills, experience, projects, or how this portfolio was built. How can I help you today?"

  /** The greeting every session starts with and every clear returns to. */
  const InitialMessage := Message(1, Ai, GreetingText)

  /** Where leaving the terminal navigates to. */
  const HomeRoute := "/"

  /** What a submission asks for, decided from the input box before anything changes. */
  datatype Command = Ignore | Leave | Reset | Ask(lower: string)

  function Dispatch(input: string): Command {
    if Trim(input) == [] then Ignore
    else
      var lower := Normalize(input);
      if lower == "exit" || lower == "quit" then Leave
      else if lower == "clear" || lower == "cls" then Reset
      else Ask(lower)
  }

  /** The four kinds of submission, each stated on the raw input. */
  lemma DispatchSpec(input: string)
    ensures Dispatch(input) == Ignore <==> AllSpace(input)
    ensures Dispatch(input) == Leave <==> Normalize(input) == "exit" || Normalize(input) == "quit"
    ensures Dispatch(input) == Reset <==> Normalize(input) == "clear" || Normalize(input) == "cls"
    ensures Dispatch(input).Ask? <==>
      !AllSpace(input) && Normalize(input) !in ["exit", "quit", "clear", "cls"]
    ensures Dispatch(input).Ask? ==> Dispatch(input).lower == Normalize(input) && Dispatch(input).lower != []
  {
    TrimEmptyIffBlank(input);
  }

  /** Everything the terminal holds between two events. */
  datatype State = State(
    messages: seq<Message>,
    input: string,
    typing: bool,
    timers: seq<string>,  // normalized inputs whose replies are still to come, oldest first
    clock: nat)           // the next message id

  /** A navigation request to the page router, or none. */
  datatype Effect = Stay | Navigate(route: string)

  /** The state right after the terminal mounts. */
  const Mounted := State([InitialMessage], "", false, [], 2)

  /** Typing into the input box replaces its text. */
  function AfterEdit(s: State, text: string): State {
    s.(input := text)
  }

  /** The state after submitting the input box. */
  function AfterSend(s: State): State {
    match Dispatch(s.input)
    case Ignore => s
    case Leave => s
    case Reset => s.(messages := [InitialMessage], input := "")
    case Ask(lower) =>
      s.(messages := s.messages + [Message(s.clock, User, s.input)], input := "", typing := true,
         timers := s.timers + [lower], clock := s.clock + 1)
  }

  /** The navigation a submission requests. */
  function SendEffect(s: State): Effect {
    if Dispatch(s.input) == Leave then Navigate(HomeRoute) else Stay
  }

  /** The oldest scheduled reply fires: the answer to its own input is appended. */
  function AfterDeliver(s: State): State
    requires s.timers != []
  {
    s.(messages := s.messages + [Message(s.clock, Ai, Respond(s.timers[0]))], typing := false,
       timers := s.timers[1..], clock := s.clock + 1)
  }

  /** The Clear Console button: only the transcript is reset. */
  function AfterClearConsole(s: State): State {
    s.(messages := [InitialMessage])
  }

  /** Every scheduled reply fires, oldest first. */
  function DeliverAll(s: State): State
    decreases |s.timers|
  {
    if s.timers == [] then s else DeliverAll(AfterDeliver(s))
  }

  /** The assistant lines that the pending replies produce, with the ids they are given. */
  function ReplyLines(pending: seq<string>, clock: nat): seq<Message> {
    seq(|pending|, k requires 0 <= k < |pending| => Message(clock + k, Ai, Respond(pending[k])))
  }

  lemma ReplyLinesCons(pending: seq<string>, clock: nat)
    requires pending != []
    ensures ReplyLines(pending, clock)
         == [Message(clock, Ai, Respond(pending[0]))] + ReplyLines(pending[1..], clock + 1)
  {
  }

  // ----- The invariant -----

  /**
   * The transcript starts with the greeting, its ids strictly increase and are
   * all below the next id, and the typing indicator is only on while a reply is
   * still to come.
   */
  ghost predicate Wellformed(s: State) {
    && |s.messages| >= 1
    && s.messages[0] == InitialMessage
    && (forall i, j :: 0 <= i < j < |s.messages| ==> s.messages[i].id < s.messages[j].id)
    && (forall i :: 0 <= i < |s.messages| ==> s.messages[i].id < s.clock)
    && (s.typing ==> s.timers != [])
  }

  lemma MountedIsWellformed()
    ensures Wellformed(Mounted)
  {
  }

  lemma AppendKeepsWellformed(s: State, m: Message)
    requires Wellformed(s) && m.id == s.clock
    ensures var t := s.(messages := s.messages + [m], clock := s.clock + 1);
      |t.messages| >= 1 && t.messages[0] == InitialMessage
      && (forall i, j :: 0 <= i < j < |t.messages| ==> t.messages[i].id < t.messages[j].id)
      && (forall i :: 0 <= i < |t.messages| ==> t.messages[i].id < t.clock)
  {
  }

  /** Editing the input box keeps the invariant. */
  lemma EditKeepsWellformed(s: State, text: string)
    requires Wellformed(s)
    ensures Wellformed(AfterEdit(s, text))
  {
  }

  /** Submitting keeps the invariant. */
  lemma SendKeepsWellformed(s: State)
    requires Wellformed(s)
    ensures Wellformed(AfterSend(s))
  {
    if Dispatch(s.input).Ask? {
      AppendKeepsWellformed(s, Message(s.clock, User, s.input));
    }
  }

  /** A reply arriving keeps the invariant. */
  lemma DeliverKeepsWellformed(s: State)
    requires Wellformed(s) && s.timers != []
    ensures Wellformed(AfterDeliver(s))
  {
    AppendKeepsWellformed(s, Message(s.clock, Ai, Respond(s.timers[0])));
  }

  /** The Clear Console button keeps the invariant. */
  lemma ClearConsoleKeepsWellformed(s: State)
    requires Wellformed(s)
    ensures Wellformed(AfterClearConsole(s))
  {
  }

  /** The submit handler's three early tests, in the order it makes them, and the state each leaves. */
  lemma SendCases(s: State)
    ensures Trim(s.input) == [] ==> AfterSend(s) == s && SendEffect(s) == Stay
    ensures Trim(s.input) != [] && (Normalize(s.input) == "exit" || Normalize(s.input) == "quit") ==>
      AfterSend(s) == s && SendEffect(s) == Navigate(HomeRoute)
    ensures Trim(s.input) != [] && (Normalize(s.input) == "clear" || Normalize(s.input) == "cls") ==>
      AfterSend(s) == s.(messages := [InitialMessage], input := "") && SendEffect(s) == Stay
    ensures Trim(s.input) != [] && Normalize(s.input) !in ["exit", "quit", "clear", "cls"] ==>
      AfterSend(s) == s.(messages := s.messages + [Message(s.clock, User, s.input)], input := "", typing := true,
                         timers := s.timers + [Normalize(s.input)], clock := s.clock + 1)
      && SendEffect(s) == Stay
  {
  }

  // ----- Submitting -----

  /** Blank or white-space-only input changes nothing and goes nowhere. */
  lemma BlankSendIsNoOp(s: State)
    requires AllSpace(s.input)
    ensures AfterSend(s) == s && SendEffect(s) == Stay
  {
    DispatchSpec(s.input);
  }

  /** "exit" or "quit", in any case and with any surrounding blanks, asks to go home and changes nothing. */
  lemma ExitNavigatesHome(s: State)
    requires Normalize(s.input) == "exit" || Normalize(s.input) == "quit"
    ensures AfterSend(s) == s
    ensures SendEffect(s) == Navigate("/")
  {
    DispatchSpec(s.input);
  }

  /** "clear" or "cls" leaves only the greeting, empties the input box, and schedules nothing. */
  lemma ClearResetsTranscript(s: State)
    requires Normalize(s.input) == "clear" || Normalize(s.input) == "cls"
    ensures AfterSend(s).messages == [InitialMessage]
    ensures |AfterSend(s).messages| == 1 && AfterSend(s).messages[0].sender == Ai && AfterSend(s).messages[0].id == 1
    ensures AfterSend(s).input == "" && AfterSend(s).timers == s.timers && AfterSend(s).typing == s.typing
    ensures SendEffect(s) == Stay
  {
    DispatchSpec(s.input);
  }

  /**
   * Any other input appends exactly one user line holding the untrimmed text,
   * turns the typing indicator on, and schedules the reply to its normalized form;
   * no assistant line appears yet.
   */
  lemma AskAppendsUserLine(s: State)
    requires !AllSpace(s.input) && Normalize(s.input) !in ["exit", "quit", "clear", "cls"]
    ensures AfterSend(s).messages == s.messages + [Message(s.clock, User, s.input)]
    ensures AfterSend(s).typing && AfterSend(s).input == ""
    ensures AfterSend(s).timers == s.timers + [Normalize(s.input)]
    ensures SendEffect(s) == Stay
  {
    DispatchSpec(s.input);
  }

  // ----- The transcript only grows or resets -----

  /** `after` extends `before` at the end, or is the fresh greeting alone. */
  predicate AppendedOrReset(before: seq<Message>, after: seq<Message>) {
    before <= after || after == [InitialMessage]
  }

  /** No transition edits or removes a single line: each appends at most one line or resets to the greeting. */
  lemma StepsOnlyAppendOrReset(s: State, text: string)
    ensures AfterEdit(s, text).messages == s.messages
    ensures AppendedOrReset(s.messages, AfterSend(s).messages) && |AfterSend(s).messages| <= |s.messages| + 1
    ensures s.timers != [] ==> AfterDeliver(s).messages == s.messages + [AfterDeliver(s).messages[|s.messages|]]
    ensures AfterClearConsole(s).messages == [InitialMessage]
  {
  }

  // ----- Replies arrive in submission order -----

  /** Delivering every pending reply appends their answers in the order they were scheduled, and nothing else. */
  lemma {:induction false} DeliverAllInOrder(s: State)
    ensures DeliverAll(s).messages == s.messages + ReplyLines(s.timers, s.clock)
    decreases |s.timers|
  {
    if s.timers != [] {
      var t := AfterDeliver(s);
      DeliverAllInOrder(t);
      var m := Message(s.clock, Ai, Respond(s.timers[0]));
      assert t.messages == s.messages + [m];
      assert t.timers == s.timers[1..] && t.clock == s.clock + 1;
      ReplyLinesCons(s.timers, s.clock);
      assert s.messages + ReplyLines(s.timers, s.clock) == t.messages + ReplyLines(t.timers, t.clock);
    }
  }

  /** Once every reply has arrived nothing is pending, the typing indicator is off unless nothing was ever pending, and the input box is untouched. */
  lemma {:induction false} DeliverAllSettles(s: State)
    ensures DeliverAll(s).timers == []
    ensures DeliverAll(s).input == s.input
    ensures DeliverAll(s).typing == (s.typing && s.timers == [])
    ensures DeliverAll(s).clock == s.clock + |s.timers|
    decreases |s.timers|
  {
    if s.timers != [] {
      DeliverAllSettles(AfterDeliver(s));
    }
  }

  /**
   * An ordinary submission adds exactly two lines once everything has arrived:
   * its user line now, and its own answer after the answers to the questions
   * already waiting.
   */
  lemma QuestionAnsweredInTurn(s: State)
    requires Dispatch(s.input).Ask?
    ensures var t := DeliverAll(AfterSend(s));
      t.messages == s.messages + [Message(s.clock, User, s.input)]
                    + ReplyLines(s.timers, s.clock + 1)
                    + [Message(s.clock + 1 + |s.timers|, Ai, Classify(s.input))]
      && !t.typing && t.timers == []
  {
    DispatchSpec(s.input);
    var u := AfterSend(s);
    assert u.timers == s.timers + [Normalize(s.input)];
    DeliverAllInOrder(u);
    DeliverAllSettles(u);
    ReplyLinesSnoc(s.timers, Normalize(s.input), s.clock + 1);
  }

  lemma ReplyLinesSnoc(pending: seq<string>, x: string, clock: nat)
    ensures ReplyLines(pending + [x], clock)
         == ReplyLines(pending, clock) + [Message(clock + |pending|, Ai, Respond(x))]
  {
  }

  /**
   * Two questions submitted before either reply arrives: both user lines come
   * first, then the two answers, in submission order.
   */
  lemma TwoQuickQuestions(s: State, a: string, b: string)
    requires s.timers == []
    requires Dispatch(a).Ask? && Dispatch(b).Ask?
    ensures var t := DeliverAll(AfterSend(AfterEdit(AfterSend(AfterEdit(s, a)), b)));
      t.messages == s.messages + [
        Message(s.clock, User, a), Message(s.clock + 1, User, b),
        Message(s.clock + 2, Ai, Classify(a)), Message(s.clock + 3, Ai, Classify(b))]
      && !t.typing && t.timers == []
  {
    var ua := Message(s.clock, User, a);
    var ub := Message(s.clock + 1, User, b);
    TwoQuestionsQueued(s, a, b);
    DeliverTwo(s.messages + [ua, ub], Normalize(a), Normalize(b), s.clock + 2);
    AppendPairs(s.messages, ua, ub, Message(s.clock + 2, Ai, Classify(a)), Message(s.clock + 3, Ai, Classify(b)));
  }

  lemma AppendPairs(m: seq<Message>, p: Message, q: Message, r: Message, w: Message)
    ensures m + [p, q] + [r, w] == m + [p, q, r, w]
  {
  }

  /** Both pending replies arrive, oldest first. */
  lemma DeliverTwo(m: seq<Message>, x: string, y: string, clock: nat)
    ensures DeliverAll(State(m, "", true, [x, y], clock))
         == State(m + [Message(clock, Ai, Respond(x)), Message(clock + 1, Ai, Respond(y))], "", false, [], clock + 2)
  {
    var s := State(m, "", true, [x, y], clock);
    DeliverAllInOrder(s);
    DeliverAllSettles(s);
    ReplyLinesTwo(x, y, clock);
  }

  /** Two questions typed and submitted in a row: both user lines, both replies queued in order. */
  lemma TwoQuestionsQueued(s: State, a: string, b: string)
    requires s.timers == []
    requires Dispatch(a).Ask? && Dispatch(b).Ask?
    ensures AfterSend(AfterEdit(AfterSend(AfterEdit(s, a)), b))
         == State(s.messages + [Message(s.clock, User, a), Message(s.clock + 1, User, b)], "", true,
                  [Normalize(a), Normalize(b)], s.clock + 2)
  {
    var s1 := AfterSend(AfterEdit(s, a));
    TypedQuestion(s, a);
    TypedQuestion(s1, b);
    assert s.messages + [Message(s.clock, User, a)] + [Message(s.clock + 1, User, b)]
        == s.messages + [Message(s.clock, User, a), Message(s.clock + 1, User, b)];
  }

  /** Typing a question and submitting it, as one whole-state transition. */
  lemma TypedQuestion(s: State, text: string)
    requires Dispatch(text).Ask?
    ensures AfterSend(AfterEdit(s, text))
         == State(s.messages + [Message(s.clock, User, text)], "", true, s.timers + [Normalize(text)], s.clock + 1)
  {
    DispatchSpec(text);
  }

  lemma ReplyLinesTwo(x: string, y: string, clock: nat)
    ensures ReplyLines([x, y], clock) == [Message(clock, Ai, Respond(x)), Message(clock + 1, Ai, Respond(y))]
  {
  }

  /** A clear does not cancel a reply already scheduled: it lands right after the fresh greeting. */
  lemma ClearKeepsPendingReply(s: State)
    requires Dispatch(s.input) == Reset && s.timers != []
    ensures AfterDeliver(AfterSend(s)).messages == [InitialMessage, Message(s.clock, Ai, Respond(s.timers[0]))]
  {
  }

  // ----- The terminal component -----

  class ChatSession {
    var messages: seq<Message>
    var input: string
    var typing: bool
    var timers: seq<string>
    var clock: nat

    function Snapshot(): State
      reads this
    {
      State(messages, input, typing, timers, clock)
    }

    ghost predicate Valid()
      reads this
    {
      Wellformed(Snapshot())
    }

    /** Mounting the terminal: the greeting alone, an empty box, nothing pending. */
    constructor ()
      ensures Valid() && Snapshot() == Mounted
    {
      messages := [InitialMessage];
      input := "";
      typing := false;
      timers := [];
      clock := 2;
    }

    /** The input box's change handler. */
    method Edit(text: string)
      requires Valid()
      modifies this
      ensures Valid() && Snapshot() == AfterEdit(old(Snapshot()), text)
    {
      input := text;
      EditKeepsWellformed(old(Snapshot()), text);
    }

    /** The form's submit handler. */
    method Send() returns (effect: Effect)
      requires Valid()
      modifies this
      ensures Valid() && Snapshot() == AfterSend(old(Snapshot()))
      ensures effect == SendEffect(old(Snapshot()))
    {
      ghost var before := Snapshot();
      SendKeepsWellformed(before);
      SendCases(before);
      if Trim(input) == [] {
        return Stay;
      }
      var lower := Normalize(input);
      if lower == "exit" || lower == "quit" {
        return Navigate(HomeRoute);
      }
      if lower == "clear" || lower == "cls" {
        messages := [InitialMessage];
        input := "";
        return Stay;
      }
      var userLine := Message(clock, User, input);
      messages := messages + [userLine];
      clock := clock + 1;
      input := "";
      typing := true;
      timers := timers + [lower];
      return Stay;
    }

    /** The oldest scheduled reply's timer fires. */
    method Deliver()
      requires Valid() && timers != []
      modifies this
      ensures Valid() && Snapshot() == AfterDeliver(old(Snapshot()))
    {
      DeliverKeepsWellformed(Snapshot());
      var lower := timers[0];
      timers := timers[1..];
      var aiLine := Message(clock, Ai, Respond(lower));
      messages := messages + [aiLine];
      clock := clock + 1;
      typing := false;
    }

    /** The Clear Console button. */
    method ClearConsole()
      requires Valid()
      modifies this
      ensures Valid() && Snapshot() == AfterClearConsole(old(Snapshot()))
    {
      ClearConsoleKeepsWellformed(Snapshot());
      messages := [InitialMessage];
    }

    /** The Exit Terminal button: always asks to go home, changes nothing. */
    method ExitTerminal() returns (effect: Effect)
      ensures effect == Navigate(HomeRoute)
    {
      effect := Navigate(HomeRoute);
    }
  }
}
