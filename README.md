# AI terminal chat engine

A Dafny model of the chat engine behind the portfolio's "AI terminal" page (`src/components/AiPage.jsx`).
A visitor types into a console. The engine does one of four things with each submission:

- it ignores blank input;
- it navigates home on `exit` or `quit`;
- it resets the transcript on `clear` or `cls`;
- otherwise it echoes the line as a user message, shows a typing indicator, and
  800 ms later appends a canned reply.

A fixed, ordered chain of keyword tests picks the reply.

The project has three modules:

- `Text`: the string primitives the engine relies on.
  - `trim()`: the JavaScript white-space and line-terminator set.
  - `toLowerCase()`: ASCII letters only.
  - `includes()`: a recursive left-to-right search, proved equivalent to "the pattern occurs at some index".
- `Intents`: the reply chain.
  - `Respond` is the `if / else if` chain on the normalized input, exactly as written.
  - `Rules` / `FirstMatch` is the same classifier as an explicit, ordered rule table, proved equal to the chain on every input.
  - Lemmas pin down first-match-wins and substring (not word) matching, with the concrete cases `""`, `"hire"`, `"this"`, `"happy"`, `"how is your stack built"` and `"how is your tech stack"`.
- `Conversation`: the terminal's state and its transitions.
  - A pure `State` holds:
    - `messages`: the transcript;
    - `input`: the input box;
    - `typing`: the indicator;
    - `timers`: the replies still to arrive, oldest first;
    - `clock`: the next message id.
  - Step functions (`AfterSend`, `AfterDeliver`, `AfterClearConsole`, `AfterEdit`) specify each event.
  - The class `ChatSession` performs the same events in place on its fields. Each method is proved to produce exactly the state its step function describes and to keep the invariant `Wellformed`. The invariant says:
    - the greeting comes first;
    - ids strictly increase and stay below the next id;
    - the indicator is on only while a reply is pending.

Time and identity are modelled as follows:

- The 800 ms `setTimeout` is a FIFO queue of pending normalized inputs. `Deliver` is "the oldest timer fires".
- The reply is computed at delivery from the captured normalized input, as the source's closure does.
- `Date.now()` ids become a counter starting at 2; the greeting has id 1.
- `router.push("/")` becomes a returned `Effect`.

This model follows the component's code in the following respects:

- `clear` / `cls` and the Clear Console button restore the constant greeting with id 1, not a message with a fresh id.
- A clear does not cancel a reply already scheduled. That reply lands right after the greeting (`ClearKeepsPendingReply`).
- Two questions sent before the first reply arrives give user, user, answer, answer (`TwoQuickQuestions`). The replies keep submission order because equal 800 ms delays fire in scheduling order.
- The typing indicator switches off when any reply arrives, even if another is still pending.
- `exit` / `quit` leaves the input box as it was. `clear` / `cls` empties it. The Clear Console button resets only the transcript.

## Model

| member | source | states |
|---|---|---|
| Text.TrimStartSpec | src/components/AiPage.jsx:54 | leading trim returns the suffix after a white-space-only prefix, starting at a non-space |
| Text.TrimEndSpec | src/components/AiPage.jsx:54 | trailing trim returns the prefix before a white-space-only suffix, ending at a non-space |
| Text.TrimSlice | src/components/AiPage.jsx:56 | `trim()` yields a contiguous slice of the input with only white space cut at both ends and none left at either edge |
| Text.TrimEmptyIffBlank | src/components/AiPage.jsx:54 | `!input.trim()` holds exactly when the input is all white space (both directions) |
| Text.TrimIdempotent | src/components/AiPage.jsx:56 | trimming twice is trimming once |
| Text.ToLowerIdempotent | src/components/AiPage.jsx:56 | lower-casing keeps length, maps each character by the ASCII rule, leaves no upper-case letter, and is idempotent |
| Text.LowerCharKeepsSpace | src/components/AiPage.jsx:56 | lower-casing a character never creates or removes white space |
| Text.NormalizeIdempotent | src/components/AiPage.jsx:56 | `trim().toLowerCase()` applied to its own result changes nothing |
| Text.IncludesIffContains | src/components/AiPage.jsx:77 | the left-to-right `includes` search succeeds exactly when the pattern occurs at some index |
| Text.ContainsInContext | src/components/AiPage.jsx:77 | containment is substring containment: a match survives any text added on either side |
| Text.FoundBetween | src/components/AiPage.jsx:77 | a keyword placed anywhere in the input is found |
| Text.ContainsNeedsRoom | src/components/AiPage.jsx:77 | a keyword longer than the input is not found |
| Text.MissingChar | src/components/AiPage.jsx:77 | a keyword with a character the input lacks is not found |
| Text.OccurrenceAfter | src/components/AiPage.jsx:77 | if the keyword's first character is absent from a prefix, any match lies in the rest |
| Intents.RespondInReplies | src/components/AiPage.jsx:77-100 | every input, normalized or raw, gets one of the eight fixed replies, and that reply is non-empty |
| Intents.RepliesDistinct | src/components/AiPage.jsx:78-99 | the eight reply texts are pairwise different |
| Intents.ContainsAnyIff | src/components/AiPage.jsx:80 | a disjunction of `includes` tests fires exactly when one of its keywords occurs |
| Intents.FirstMatchPicksFirstFiring | src/components/AiPage.jsx:77-100 | in an `else if` chain the first firing rule decides the reply |
| Intents.FirstMatchFallsBack | src/components/AiPage.jsx:98-100 | when no rule fires the final `else` reply is given |
| Intents.FirstMatchSpec | src/components/AiPage.jsx:77-100 | the table's reply is either the first firing rule's reply or the fallback with no rule firing |
| Intents.FirstFiring | src/components/AiPage.jsx:77-100 | any firing rule has a first firing rule at or before it |
| Intents.FirstMatchIsFirstFiring | src/components/AiPage.jsx:77-100 | with distinct replies, a rule's reply is given exactly when it is the first to fire, and the fallback exactly when none fires |
| Intents.RuleConditions | src/components/AiPage.jsx:77-95 | each table rule fires exactly when the chain's corresponding `includes` condition holds |
| Intents.RuleRepliesDistinct | src/components/AiPage.jsx:78-99 | the table's seven replies are pairwise different and none is the fallback |
| Intents.RulesAgreeWithChain | src/components/AiPage.jsx:77-100 | the ordered rule table and the `if / else if` chain give the same reply on every input |
| Intents.RespondIsFirstFiringRule | src/components/AiPage.jsx:77-100 | the chain answers with rule k's reply iff rule k fires and no earlier rule does, and with the fallback iff no rule fires |
| Intents.FiringBoundsReply | src/components/AiPage.jsx:77-100 | once rule k fires, the reply comes from rule k or an earlier rule, whatever else the input contains |
| Intents.HireNeverGreets | src/components/AiPage.jsx:83-93 | any input containing "hire" also contains "hi", yet gets the how-built, skills or contact reply, never the greeting |
| Intents.BlankInputFallsBack | src/components/AiPage.jsx:56-100 | white-space-only input normalizes to "" and gets the fallback reply |
| Intents.EmptyInputFallsBack | src/components/AiPage.jsx:98-100 | `""` gets the fallback reply |
| Intents.StackBuiltIsHowBuilt | src/components/AiPage.jsx:77-81 | "how is your stack built" contains "stack" yet gets the how-built reply, since that rule comes first |
| Intents.StackBuiltKeywords | src/components/AiPage.jsx:77-80 | "how is your stack built" contains "how", "stack" and "built" |
| Intents.TechStackIsSkills | src/components/AiPage.jsx:77-81 | "how is your tech stack" gets the skills reply: "how" without a partner keyword does not fire the first rule |
| Intents.TechStackLacksPartner | src/components/AiPage.jsx:77 | none of portfolio/site/made/built occurs in "how is your tech stack" |
| Intents.NoSiteInTechStack | src/components/AiPage.jsx:77 | "site" does not occur in "how is your tech stack" |
| Intents.BuildThisSiteIsHowBuilt | src/components/AiPage.jsx:77-78 | "how did you build this site" pairs "how" with "site" and gets the how-built reply |
| Intents.BuildThisSiteKeywords | src/components/AiPage.jsx:77 | "how did you build this site" contains "how" and "site" |
| Intents.HireIsContact | src/components/AiPage.jsx:83-93 | "hire" contains "hi" but gets the contact reply |
| Intents.ThisIsGreeting | src/components/AiPage.jsx:92-93 | "this" gets the greeting reply through the substring "hi" |
| Intents.HappyIsProjects | src/components/AiPage.jsx:89-90 | "happy" gets the projects reply through the substring "app" |
| Conversation.DispatchSpec | src/components/AiPage.jsx:54-67 | a submission is ignored iff the input is all white space, leaves iff it normalizes to exit/quit, resets iff it normalizes to clear/cls, and otherwise asks with its non-empty normalized text |
| Conversation.MountedIsWellformed | src/components/AiPage.jsx:20-34 | the mounted terminal (greeting only, nothing pending) satisfies the invariant |
| Conversation.AppendKeepsWellformed | src/components/AiPage.jsx:70 | appending a line with the next id keeps the greeting first and the ids increasing |
| Conversation.EditKeepsWellformed | src/components/AiPage.jsx:340 | typing into the box keeps the invariant |
| Conversation.SendKeepsWellformed | src/components/AiPage.jsx:52-72 | every submission keeps the invariant |
| Conversation.DeliverKeepsWellformed | src/components/AiPage.jsx:102-104 | a reply arriving keeps the invariant |
| Conversation.ClearConsoleKeepsWellformed | src/components/AiPage.jsx:352 | the Clear Console button keeps the invariant |
| Conversation.BlankSendIsNoOp | src/components/AiPage.jsx:54 | white-space-only input leaves transcript, input, indicator and pending replies unchanged and requests no navigation |
| Conversation.ExitNavigatesHome | src/components/AiPage.jsx:56-61 | exit/quit, in any case and with surrounding blanks, requests navigation to "/" and changes nothing |
| Conversation.ClearResetsTranscript | src/components/AiPage.jsx:63-67 | clear/cls leaves exactly the greeting (one ai line, id 1), empties the box, schedules nothing and keeps pending replies |
| Conversation.AskAppendsUserLine | src/components/AiPage.jsx:69-72 | an ordinary submission appends exactly one user line with the untrimmed text, turns the indicator on, empties the box and queues its normalized text; no ai line yet |
| Conversation.StepsOnlyAppendOrReset | src/components/AiPage.jsx:63-104 | every transition keeps the transcript, extends it by one line at the end, or resets it to the greeting |
| Conversation.DeliverAllInOrder | src/components/AiPage.jsx:74-105 | delivering all pending replies appends each answer in scheduling order, with consecutive ids, and nothing else |
| Conversation.DeliverAllSettles | src/components/AiPage.jsx:102-104 | after all replies arrive nothing is pending, the box is untouched, the ids advanced by one per reply, and the indicator is off unless nothing was pending |
| Conversation.QuestionAnsweredInTurn | src/components/AiPage.jsx:69-105 | an ordinary submission yields its user line now and its own classifier answer after the answers already waiting |
| Conversation.TwoQuickQuestions | src/components/AiPage.jsx:69-105 | two questions sent before any reply give user, user, answer to the first, answer to the second |
| Conversation.ClearKeepsPendingReply | src/components/AiPage.jsx:63-105 | a clear does not cancel a scheduled reply: it arrives right after the fresh greeting |
| Conversation.ChatSession.constructor | src/components/AiPage.jsx:32-34 | the terminal mounts with the greeting alone, an empty box, the indicator off and nothing pending |
| Conversation.ChatSession.Edit | src/components/AiPage.jsx:340 | the change handler replaces the box's text and keeps the invariant |
| Conversation.ChatSession.Send | src/components/AiPage.jsx:52-72 | the submit handler updates the fields exactly as `AfterSend` and returns the navigation `SendEffect` requests, keeping the invariant |
| Conversation.ChatSession.Deliver | src/components/AiPage.jsx:74-105 | the oldest timer firing appends the answer to its own input and turns the indicator off, as `AfterDeliver` states |
| Conversation.ChatSession.ClearConsole | src/components/AiPage.jsx:352 | the Clear Console button resets the transcript to the greeting and nothing else |
| Conversation.ChatSession.ExitTerminal | src/components/AiPage.jsx:358 | the Exit Terminal button always requests navigation to "/" and changes no state |

## Left out

- Rendering is not modelled: JSX, framer-motion animations, the message list markup and the typing dots.
- The 2000 ms preloader (lines 38-43), the auto-scroll effect (lines 46-50) and input focus are UI and carry no chat logic.
- Wall-clock time is not modelled.
  - The 800 ms timers are an explicit FIFO queue delivered one by one.
  - Replies firing out of order is not modelled, because equal delays in one JavaScript event loop fire in scheduling order.
- `Date.now()` ids are not modelled; a counter replaces them. The chance of two lines sharing a millisecond id is not captured.
- `router.push` is a foreign call into Next.js. It is modelled only as the returned `Effect`.
- `e.preventDefault()` is a DOM call and is not modelled.
- Text.LowerChar: full Unicode `toLowerCase` is not modelled. Only ASCII `A`-`Z` are mapped; other characters are kept.
- Text.IsSpace: the set is fixed to the JavaScript WhiteSpace and LineTerminator code points of the current standard.
- The remaining files are not part of this model: page layout, drag clamping, project data, cursor and text effects, and build configuration. They are presentation or configuration with no chat logic.
