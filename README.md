# FireAlarm, modelled in Dafny

FireAlarm is a chat bot that watches the stream of active Stack Overflow
questions and reports likely low-quality ones to a chat room. This project
models its decision-making core and proves properties of it:

- **The question filter** (`question_filter.dfy`, FireAlarm/Filter.swift):
  - decoding a websocket event into a question id;
  - the one-day activity cut-off;
  - which body tokens the Bayesian classifier consults;
  - the six-hour report suppressor over `recentlyReportedPosts`;
  - the websocket's bounded reconnect counter.

  `Filter` is a class whose methods update `recentlyReportedPosts`,
  `wsRetries`, the running flag and the log of messages posted to the room.
- **Room notifications** (`main_program.dfy`, Sources/main.swift):
  - which users of a room's database a report pings, and the mention string;
  - the update note of the startup message.
- **Console input and shutdown** (`background_tasks.dfy`,
  Sources/BackgroundTasks.swift):
  - routing a console line to a room (`>roomID text`);
  - the reboot/update/exit decision of `shutDown`.

  The task loop in Sources/main.swift:337-375 repeats the routing code of
  `handleInput` line for line, so one definition models both.
- **Static post filters of the C chatbot** (`chatbot_filter.dfy`,
  chatbot/Filter.c):
  - `createFilter`;
  - `postMatchesFilter`, with its first-occurrence text search, the
    short-body test, the out-pointers and their 32-bit `unsigned` offsets.
- **The `privilege` command** (`command_privilege.dfy`,
  FireAlarm/CommandPrivilege.swift):
  - argument checks;
  - case-insensitive privilege lookup;
  - user lookup;
  - the in-place grant.

Shared pieces:

- `strings.dfy` models the Foundation string operations the code relies on:
  - `components(separatedBy:)`, `joined(separator:)` and `lowercased()`;
  - the `alphanumerics` and `whitespaces` character sets;
  - removing spaces;
  - `Int(String)` over the 64-bit range.
- `chat.dfy` holds stand-ins for the chat library's users, rooms and
  command listener. The listener is reduced to the log of the messages it
  is handed.

The following become parameters:

- the clock (`now`, in integer seconds);
- the JSON parser;
- the API fetch;
- the outcome of each connection attempt;
- the classifier's floating-point verdict;
- POSIX `regexec`;
- the URL-to-id helper.

Messages posted to a room are appended to a log field.

`wsRetries` is never reset, not even after a successful reconnect
(FireAlarm/Filter.swift:51, 264). The ten-attempt bound therefore holds over
the filter's lifetime, and `QuestionFilter.LifetimeBound` states this.

## Model

| member | source | states |
|---|---|---|
| Strings.SplitRoundTrip | FireAlarm/Filter.swift:126 | `components(separatedBy:)` loses nothing: there is one more part than separators, and re-inserting the separators between the parts gives the string back |
| Strings.SplitPartsHaveNoSeparator | FireAlarm/Filter.swift:126 | no component contains a separator, so the components are the maximal separator-free runs |
| Strings.SplitJoin | Sources/main.swift:94 | joining separator-free parts with a separator and splitting on it gives the parts back |
| Strings.JoinSplitSpaces | Sources/main.swift:219-228 | splitting on spaces and re-joining with one space gives the original text |
| Strings.SeparatorsAreSeparators | FireAlarm/Filter.swift:126 | the characters between components are all separators; with the two rows above this pins the components down as the maximal separator-free runs |
| Strings.RemoveAll | Sources/main.swift:94 | removing a character leaves no occurrence of it and shortens the string by exactly its number of occurrences |
| Strings.RemoveAllKeepsOthers | Sources/main.swift:94 | every other character keeps its number of occurrences |
| Strings.RemoveAllConcat | FireAlarm/CommandPrivilege.swift:57 | removal distributes over concatenation, so the surviving characters keep their order |
| Strings.RemoveAllChar | FireAlarm/CommandPrivilege.swift:57 | a single character is removed exactly when it is the removed character |
| Strings.ParseShowRoundTrip | Sources/BackgroundTasks.swift:54 | `Int(String)` reads back every 64-bit integer from its decimal text |
| Chat.ChatUser.constructor | Sources/main.swift:26-48 | a user with no stored info is not notified and has no notification tags, reasons or privileges |
| Chat.ChatListener.ProcessMessage | Sources/BackgroundTasks.swift:71-80 | handing a message to the listener appends exactly that message to its log |
| QuestionFilter.KnownMembers | FireAlarm/Filter.swift:127-133 | a component is consulted exactly when it is non-empty and a key of the word table |
| QuestionFilter.KnownConcat | FireAlarm/Filter.swift:126-133 | token selection keeps body order: it distributes over concatenation of component lists |
| QuestionFilter.CheckedWordsAreKnownRuns | FireAlarm/Filter.swift:126-133 | the consulted tokens are exactly the non-empty, known, maximal alphanumeric runs of the lower-cased body; each is alphanumeric and lower-case; the runs and separators rebuild the lower-cased body |
| QuestionFilter.Filter.CheckPost | FireAlarm/Filter.swift:119-148 | the loop collects exactly `CheckedWords` of the body, in order, and the verdict is taken on them |
| QuestionFilter.Recent | FireAlarm/Filter.swift:169-171 | pruning keeps exactly the entries reported after the cut-off |
| QuestionFilter.RecentConcat | FireAlarm/Filter.swift:169-171 | pruning keeps the entries' original order |
| QuestionFilter.RecentKeepsUniqueIds | FireAlarm/Filter.swift:168-172 | pruning preserves "no two entries share an id" |
| QuestionFilter.AppendKeepsUniqueIds | FireAlarm/Filter.swift:177-183 | appending a report whose id is absent preserves "no two entries share an id" |
| QuestionFilter.Filter.ReportPost | FireAlarm/Filter.swift:167-190 | prunes entries older than six hours; returns already-reported with the pruned list and nothing posted when the id is still present; otherwise appends exactly one `(id, now)`, posts one report with the first tag (or "tagless") and returns reported; keeps ids unique |
| QuestionFilter.SuppressedWithinWindow | FireAlarm/Filter.swift:168-183 | after a `reportPost` step that reports a question at t1, a `reportPost` step for the same id under six hours later returns already-reported, posts nothing and keeps only the pruned list |
| QuestionFilter.ReleasedAfterWindow | FireAlarm/Filter.swift:168-183 | after a `reportPost` step that reports a question at t1, a `reportPost` step for the same id six hours or more later reports it again: one new entry and one new room message |
| QuestionFilter.Filter.CheckAndReportPost | FireAlarm/Filter.swift:156-164 | returns not-bad exactly when the verdict on the consulted tokens is false, and then changes nothing; otherwise it is one report step |
| QuestionFilter.DecodeFieldsCases | FireAlarm/Filter.swift:220-230 | a missing or non-string site is `noSite`; another site is ignored; on Stack Overflow a missing or non-integer id is `noQuestionID`; otherwise the id is decoded; each as an if-and-only-if |
| QuestionFilter.NoFetchUnlessQuestion | FireAlarm/Filter.swift:207-232 | an event that does not decode to a Stack Overflow question id never reaches the API, and it is silently ignored exactly when it names another site |
| QuestionFilter.CheckedOnlyRecent | FireAlarm/Filter.swift:232-239 | a question is checked exactly when it was fetched for a decoded id and was created no more than a day before its last activity |
| QuestionFilter.Filter.WebSocketMessageData | FireAlarm/Filter.swift:203-252 | the event's outcome is the decode/fetch/age chain, with non-API errors wrapped as JSON parsing errors; only a checked question can change the suppressor or post, and then as `CheckAndReportPost` says |
| QuestionFilter.Reconnect | FireAlarm/Filter.swift:254-271 | from count `retries`, the loop connects at the first successful attempt at or below ten, and gives up exactly when every remaining attempt fails |
| QuestionFilter.LifetimeBound | FireAlarm/Filter.swift:254-271 | since the counter is never reset, the socket is reopened at most ten times over any sequence of websocket ends |
| QuestionFilter.ExhaustedGivesUp | FireAlarm/Filter.swift:258-263 | once the count is at ten, no further attempt is made |
| QuestionFilter.Filter.AttemptReconnect | FireAlarm/Filter.swift:254-271 | the count ends where `Reconnect` says; giving up posts exactly one failure message and leaves the count at ten |
| QuestionFilter.Filter.WebSocketEnd | FireAlarm/Filter.swift:273-285 | a stopped filter does not reconnect; a running one reconnects as `AttemptReconnect` says |
| QuestionFilter.Filter.Start | FireAlarm/Filter.swift:61-89 | `start` marks the filter running before the connection attempt, whether or not that attempt succeeds |
| QuestionFilter.Filter.Stop | FireAlarm/Filter.swift:91-94 | `stop` clears the running flag |
| QuestionFilter.Filter.constructor | FireAlarm/Filter.swift:28-54 | a new filter has no recent reports, a zero retry count and is not running |
| MainProgram.NotificationString | Sources/main.swift:53-95 | the loop collects exactly the users `Audience` selects, in database order, and returns their space-free handles joined by spaces |
| MainProgram.AudienceMembers | Sources/main.swift:55-92 | a user is pinged exactly when they are opted in and their tags or reasons accept the report; a user who has not opted in is never pinged |
| MainProgram.AudienceConcat | Sources/main.swift:55-92 | the audience keeps database order |
| MainProgram.MentionsRoundTrip | Sources/main.swift:94 | the mention string is empty exactly when nobody is pinged; otherwise it splits on spaces back into the handles, each `@` followed by a space-free name |
| MainProgram.UpdateNoteSplitsAtFirstSpace | Sources/main.swift:218-228 | the new version is the text before the first space; the note is present exactly when there is a space, and is then the rest of the text in parentheses |
| BackgroundTasks.RoomIndex | Sources/BackgroundTasks.swift:59 | the position of the first room with the id, or none when no room has it |
| BackgroundTasks.HandleInput | Sources/BackgroundTasks.swift:42-81 | hands exactly one message, from user 0 and not an edit, to the listener when the input routes, and none otherwise |
| BackgroundTasks.FirstComponentStart | Sources/BackgroundTasks.swift:45-50 | the first whitespace component starts with `>` exactly when the input does |
| BackgroundTasks.UnprefixedInputGoesToFirstRoom | Sources/BackgroundTasks.swift:43-69 | input not starting with `>` goes to the first room unchanged |
| BackgroundTasks.RouteToNamedRoom | Sources/BackgroundTasks.swift:50-66 | `>N`, whitespace and a rest go to the first room with id N, as the rest's components joined by single spaces |
| BackgroundTasks.NothingDispatched | Sources/BackgroundTasks.swift:50-62 | nothing is dispatched exactly when the input starts with `>` and the id is not an integer or names no room |
| BackgroundTasks.RouteInBounds | Sources/BackgroundTasks.swift:59-68 | a dispatch always names one of the rooms |
| BackgroundTasks.ShutDownOutcome | Sources/BackgroundTasks.swift:84-118 | the process re-execs exactly for reboot or update; update execs `FireAlarm`; reboot changes to the original directory and execs `argv[0]`; a failed exec exits 1; any other reason exits 0 |
| ChatbotFilter.ToU32 | chatbot/Filter.c:56-57 | the `(unsigned)` cast is the identity on the values an `unsigned` holds |
| ChatbotFilter.ToU32Periodic | chatbot/Filter.c:56-57 | the cast is unchanged by adding or subtracting 2^32, and `(unsigned)-1` is 0xffff_ffff |
| ChatbotFilter.Find | chatbot/Filter.c:54 | `strstr` finds a position exactly when the pattern occurs, and it is the first occurrence |
| ChatbotFilter.Filter.CreateFilter | chatbot/Filter.c:11-21 | the new filter's description, pattern, type and counters equal the arguments |
| ChatbotFilter.MatchRegexFilter | chatbot/Filter.c:33-49 | no match returns 0 and writes nothing; an error fails; a match returns 1 and writes `rm_so` and `rm_eo`, as `unsigned`, through the non-null pointers |
| ChatbotFilter.PostMatchesFilter | chatbot/Filter.c:51-69 | returns `Match`'s value and writes through the non-null out-pointers exactly `Span`'s offsets; nothing is written otherwise; when both pointers alias, the end offset is what remains |
| ChatbotFilter.TextMatchIffOccurs | chatbot/Filter.c:53-60 | a text filter returns 1 exactly when its pattern occurs in the body, and 0 exactly when it does not |
| ChatbotFilter.TextSpanIsFirstOccurrence | chatbot/Filter.c:54-58 | on a text match the start offset is the first occurrence, and end minus start in `unsigned` arithmetic is the pattern's length |
| ChatbotFilter.OutcomeCases | chatbot/Filter.c:51-69 | only a text or regex match writes offsets; results are 0 or 1; short-body returns 1 exactly for bodies under 500 bytes; an unknown type always fails |
| CommandPrivilege.PrivilegeIndex | FireAlarm/CommandPrivilege.swift:34-39 | the first privilege whose name matches case-insensitively, or none when no name matches |
| CommandPrivilege.UserIndex | FireAlarm/CommandPrivilege.swift:55-63 | the first user designated by id, by space-free lower-cased name or by URL id, or none when no user matches |
| CommandPrivilege.Run | FireAlarm/CommandPrivilege.swift:24-77 | replies usage, invalid privilege, unknown user, already held or granted in that order of checks; on a grant the target's privileges become old ∪ privilege; no other user changes |
| CommandPrivilege.SecondGrantRefused | FireAlarm/CommandPrivilege.swift:70-75 | a grant goes only to a user without the privilege, and the same command afterwards is refused as already held |
| CommandPrivilege.ReplyCases | FireAlarm/CommandPrivilege.swift:24-77 | each reply as an if-and-only-if: usage for a wrong argument count; invalid privilege when no name matches; unknown user when the privilege is valid and nobody is designated; already held when the first designated user holds the privilege; otherwise a grant of the first matching privilege to the first designated user, who did not hold it |

## Left out

- Floating-point scoring in `checkPost`, FireAlarm/Filter.swift:120-121 and 139-147. This covers the prior, the products, the underflow guard and the `1e45` threshold. The verdict is a parameter applied to the consulted tokens in order, and these tokens are all the scoring depends on.
- JSON parsing, UTF-8 decoding and the base64 rendering of undecodable frames, FireAlarm/Filter.swift:192-216. Events arrive as already-parsed JSON values, and the inner parser is a parameter. The text of error messages is not modelled.
- The websocket transport: creating the socket, its callbacks, `write`, `connect`, `disconnect`. The outcome of each connection attempt is a parameter.
- `questionWithID`, the API fetch, is a parameter.
- `Date` and `Calendar`: times are integer seconds. The branch where `Calendar` fails to compute the cut-off (FireAlarm/Filter.swift:173-175) cannot occur in this model.
- Text posted to rooms is modelled as structured log entries. The report entry keeps the tags from which `notificationString` is computed; the exact wording and links are not modelled.
- Character handling is ASCII-only. This applies to `alphanumerics`, `whitespaces` (space and tab), `lowercased()` and case-insensitive comparison; Unicode categories and case folding beyond ASCII are not modelled.
- The user info dictionary's decoding (Sources/main.swift:26-48) is modelled only as its defaults. The notification settings are plain fields.
- Reading `version-new.txt`, the version links and the rest of the startup message are file I/O and formatting. Only the note's composition is modelled.
- `shutDown`'s polling loops, saving and leaving rooms are concurrency and I/O. Only the exec/exit decision is modelled, with exec success as a parameter.
- The rest of `main` and of Sources/BackgroundTasks.swift: login, saving, timers, Redunda, webhooks, the task queue.
- ChatbotFilter.Filter.CreateFilter: compiling a regex filter with `regcomp`, and exiting when that fails (chatbot/Filter.c:23-29), are not modelled. The matcher for a regex filter is the `regexec` parameter. `malloc` and `strcpy` are modelled as the copied values.
- ChatbotFilter.PostMatchesFilter: exiting the process is modelled as a failure outcome. Offsets are reduced modulo 2^32 as the casts do. A regex match's offsets are whatever the `regexec` parameter reports.
- Filter.h is not part of this model. The enum values of `FilterType` are therefore kept symbolic, with an unknown type carrying its code.
- CommandPrivilege.Run: the `.owner` requirement (FireAlarm/CommandPrivilege.swift:16-18) is enforced by the command dispatcher, which is not part of this model.
- CommandPrivilege.Run: `privilegeNames` (a privilege and its name per entry, in iteration order) and `postIDFromURL` are parameters, because their definitions are not part of this model. A privilege is its set of bits, and the grant reply's text is not modelled.
- Concurrency: `reportPost` updates `recentlyReportedPosts` without a lock (FireAlarm/Filter.swift:167-190). The model runs each handler call atomically, so unique ids and one report per id are promised only when websocket callbacks do not overlap.
- `handleError` (FireAlarm/Filter.swift:199, 250) is not part of this model. Whatever it posts or counts is not modelled; `WebSocketMessageData` returns the error as `Failed(..)`, and its promise that nothing is posted covers only the filter's own messages.
- Loading `filter.json` in `init` (FireAlarm/Filter.swift:36-46) is file I/O. The word table is the constructor's `words` parameter.
- BackgroundTasks.HandleInput: requires at least one room, because the `rooms.first!` path traps on an empty list. This also excludes `>N` input with no rooms, which the source turns away without trapping (Sources/BackgroundTasks.swift:59-62). `RouteInput` itself has no such requirement.
- QuestionFilter.Filter.ReportPost: the source reads the clock twice, once for the cut-off and once for the new entry (FireAlarm/Filter.swift:168, 183). The model uses one `now` for both.
