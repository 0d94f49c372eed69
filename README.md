# Chrysallis matching core, modelled in Dafny

Chrysallis pairs students for interview practice. A client joins a practice
room over socket.io. The backend keeps a pool of waiting users, scores every
other waiting user in the same room against the newcomer, and pairs the
newcomer with the best candidate if that score is above 20. It then records
a matched room and tells both users about each other. After that the two
browsers exchange WebRTC offers, answers and ICE candidates through the
server, and chat with each other.

The front end contributes some plain logic:

- the two registration forms: their butterfly "fold score", validation,
  field updates, the practice-goal list, the theme lookup and the social icons;
- the elevator-pitch countdown timer;
- the practice-room filter.

This project models that logic and proves properties of the model. The
modules follow the source files:

| module (file) | models |
|---|---|
| `Util` (util.dfy) | `Option`, order-preserving subsequences, duplicate-free lists |
| `Text` (text.dfy) | `trim`, `toLowerCase`, `includes` on `string` |
| `Matching` (matching.dfy) | the in-memory storage of backend/userMatching.js: the waiting pool and the cleanup sweep, with matched rooms kept in the in-memory registry |
| `Scoring` (scoring.dfy) | `calculateCompatibilityScore` and `findBestMatch` |
| `Server` (server.dfy) | the socket handlers and `findMatch` of backend/server.js, over a connection registry and an outbound event log |
| `FormCore` (forms.dfy) | the logic both registration forms share word for word, plus `Number(...)` on a select's value |
| `RegistrationPage` (registration_page.dfy) | the password rules and the year select of src/components/pages/RegistrationPage.tsx |
| `ChrysalisForm` (chrysalis_form.dfy) | validation and the year select of src/components/ChrysalisRegistrationForm.tsx |
| `PitchTimer` (pitch_timer.dfy) | src/components/shared/ElevatorPitchTimer.tsx |
| `Rooms` (rooms.dfy) | src/components/pages/Rooms.tsx |

Modelling choices:

- **The waiting pool.** The pool is a JavaScript `Map` keyed by socket id.
  It is modelled as the sequence of its values in iteration order, with
  unique ids. `set` on a present key replaces the value where it stands;
  `set` on a new key appends it.
- **Scoring.** Arithmetic is exact (`real`). `Math.round(x)` is
  `(x + 1/2).Floor`. `Math.random() * 10` becomes a parameter `r` with
  `0 <= r < 10`, one per candidate.
- **Dates.** `new Date()` and `Date.now()` become an integer parameter
  `now`, in milliseconds.
- **State-changing code.** Code written as a sequence of state changes is
  written as classes with methods:
  - `Matching.Store` is the storage;
  - `Server.Hub` is the socket server;
  - `PitchTimer.Timer` is the timer's three state variables;
  - `Rooms.RoomsPage` is the page state.

  The cleanup loop, the fold-score accumulator, the field-by-field error
  record and the splice-based drag reorder keep their step-by-step form.
  Each is proved against a function of its inputs.

## Model

| member | source | states |
|---|---|---|
| Util.SubsequenceMembers | backend/userMatching.js:89-91 | every element of an order-preserving subsequence occurs in the original list |
| Util.SubsequenceLength | backend/userMatching.js:262-266 | a subsequence (here the potential matches of a pool) is no longer than the list it comes from |
| Text.TrimFacts | src/components/pages/RegistrationPage.tsx:87 | `trim` never lengthens a string, gives `''` exactly for all-white input, and otherwise leaves no white space at either end |
| Text.ToLower | src/components/pages/Rooms.tsx:132-133 | `toLowerCase` keeps the length and maps every character through the case mapping |
| Text.IncludesAt | src/components/pages/RegistrationPage.tsx:89 | `s.includes(t)` holds exactly when `t` occurs at some position of `s` |
| Matching.Lookup | backend/userMatching.js:128-136 | `Map.get`: nothing exactly for an absent id; otherwise the value stored under that id, the only one with that id |
| Matching.IndexOf | backend/userMatching.js:121 | the position of an id in the pool, or none exactly when it is absent |
| Matching.Upsert | backend/userMatching.js:130-132 | `Map.set`: ids stay unique; a present id's value is replaced where it stands, with every other entry kept; a new id is appended |
| Matching.UpsertLookup | backend/userMatching.js:119-136 | after `set` the key maps to the new value and every other key maps to what it mapped to before |
| Matching.DeleteKeeps | backend/userMatching.js:190 | `Map.delete(s)` keeps exactly the entries with other ids, in order, and `s` is absent afterwards |
| Matching.DeleteAbsent | backend/userMatching.js:188-192 | deleting an absent id changes nothing, so a second removal is a no-op |
| Matching.DeleteUnique | backend/userMatching.js:188-193 | deletion keeps ids unique and removes one entry when the id was present, none otherwise |
| Matching.DeleteAt | backend/userMatching.js:377-380 | deleting the id at position `i` of a unique-id pool removes exactly that position |
| Matching.UniqueCons | backend/userMatching.js:9 | prepending an entry with a fresh id keeps the keys unique |
| Matching.WaitingInRoom | backend/userMatching.js:88-91 | `getWaitingUsersInRoom`: exactly the waiting entries of that room, in pool order |
| Matching.PotentialMatches | backend/userMatching.js:261-266 | `getPotentialMatches`: exactly the waiting entries of the room other than the current user, in pool order |
| Matching.PotentialMatchesExcludeSelf | backend/userMatching.js:261-266 | the potential matches are the room's waiting list with the current user's id removed |
| Matching.RecentKeeps | backend/userMatching.js:374-381 | the survivors of a sweep are exactly the entries not older than the cutoff, in pool order |
| Matching.RecentSnoc | backend/userMatching.js:377-382 | the survivors of a pool extended by one entry are the old survivors plus that entry if it is recent |
| Matching.CleanupDrop | backend/userMatching.js:378-380 | one loop step that deletes an old entry keeps the sweep invariant and unique ids |
| Matching.CleanupKeep | backend/userMatching.js:377-382 | one loop step that keeps a recent entry keeps the sweep invariant |
| Matching.RoomKeyAsWrittenIsOrderDependent | backend/userMatching.js:218 | the key `` `${a}-${b}` `` differs for the two orders of the same pair |
| Matching.LexTotal | backend/userMatching.js:218 | the order used to make the key canonical is total |
| Matching.LexAntisymmetric | backend/userMatching.js:218 | that order is antisymmetric |
| Matching.SessionKey | backend/userMatching.js:218 | the corrected key is `a-b` for one of the two orders |
| Matching.SessionKeySymmetric | backend/userMatching.js:218 | the corrected key is the same for both orders of a pair |
| Matching.SessionKeyHasDash | backend/userMatching.js:218 | every matched-room key contains `-` |
| Matching.ClosingSessions | backend/userMatching.js:235-249 | closing a user's matched rooms leaves that user no session peers, keeps every other room and keeps rooms filed under their keys |
| Matching.CreatedRoomPeers | backend/userMatching.js:218-225 | a newly recorded room makes each of its two users the other's session peer |
| Matching.PracticeRoomIdIsNoSessionKey | backend/server.js:114 | a practice-room id (no `-`) is never a matched-room key, so removing it changes nothing |
| Matching.Store.constructor | backend/userMatching.js:8-12 | storage starts with an empty pool and no matched rooms |
| Matching.Store.AddUserToWaitingList | backend/userMatching.js:119-142 | stores the user as waiting with the current time, replacing any entry under the same id; other entries unchanged; returns the id |
| Matching.Store.RemoveUserFromWaitingList | backend/userMatching.js:187-193 | `deletedCount` is 1 exactly when the id was present, else 0; the pool loses exactly that id |
| Matching.Store.CreateMatchedRoom | backend/userMatching.js:208-232 | the intended in-memory insert (as written the call throws at `db.collection`, line 215): records the room holding both users under the canonical key; the pool unchanged |
| Matching.Store.RemoveMatchedRoom | backend/userMatching.js:235-252 | the intended in-memory delete (as written the call throws at `db.collection`, line 242, before any delete): deletes exactly that key, with count 1 exactly when it was present |
| Matching.Store.CloseSessionsOf | backend/userMatching.js:235-252 | removes every matched room of a user and returns the user's session peers |
| Matching.Store.CleanupOldWaitingUsers | backend/userMatching.js:366-386 | the loop removes exactly the entries with `joinedAt < now - 5 min`, keeps the rest in order, and returns how many it removed |
| Scoring.CommonKeeps | backend/userMatching.js:296-298 | the common goals are exactly those of `user1` also chosen by `user2`, in `user1`'s order, and no more numerous than `user1`'s |
| Scoring.GoalTerm | backend/userMatching.js:296-301 | the goal term lies in [0, 30] and is 0 when either list is empty |
| Scoring.ComponentValues | backend/userMatching.js:290-310 | the tech term is 40 exactly on equal interests, else 0; the university and year terms are 10 exactly for equal non-empty values, else 0 |
| Scoring.Deterministic | backend/userMatching.js:287-310 | the part without the random term lies in [0, 90] |
| Scoring.Round | backend/userMatching.js:315 | `Math.round` lands within one half of its argument |
| Scoring.Score | backend/userMatching.js:287-316 | for `0 <= r < 10` the score is an integer in [0, 100] within one half of the deterministic part plus `r` |
| Scoring.DistinctCard | backend/userMatching.js:296-298 | a duplicate-free list has as many distinct elements as entries |
| Scoring.CommonNoDups | backend/userMatching.js:296-298 | filtering a duplicate-free list keeps it duplicate-free |
| Scoring.CommonCount | backend/userMatching.js:296-298 | for a duplicate-free `user1` list the number of common goals is the size of the intersection |
| Scoring.DeterministicSymmetric | backend/userMatching.js:287-310 | for duplicate-free goal lists the deterministic part is the same in both argument orders |
| Scoring.GoalTermAsymmetricWithDuplicates | backend/userMatching.js:296-301 | with a duplicated goal the two argument orders give 30 and 15 |
| Scoring.CommonAll | backend/userMatching.js:296-298 | when every goal of `user1` is shared, the filter returns `user1`'s list |
| Scoring.IdenticalProfilesAccepted | backend/userMatching.js:287-350 | two identical complete profiles score 90 before the random term and are always accepted |
| Scoring.Scores | backend/userMatching.js:338-342 | one score per candidate, position by position |
| Scoring.FirstMaxIndex | backend/userMatching.js:345-348 | the head after a stable sort by decreasing score: a maximal score, and the earliest one |
| Scoring.BestAmong | backend/userMatching.js:327-356 | nothing exactly when there are no candidates or no candidate scores above 20; otherwise the earliest candidate with the maximal score, above 20 |
| Scoring.FindBestMatch | backend/userMatching.js:320-362 | a match is a waiting user of the same room other than the searcher, scoring above 20; no candidates means no match |
| Server.PeerOf | backend/server.js:199-215 | the `user-matched` payload carries the peer's id, name, techInterest, practiceGoals, university and year |
| Server.ToRoom | backend/server.js:111 | `socket.to(x)` reaches `x` exactly when it is connected and is not the sender |
| Server.IoTo | backend/server.js:199 | `io.to(x)` reaches `x` exactly when it is connected |
| Server.Broadcast | backend/server.js:148 | `socket.broadcast` reaches exactly the connected sockets other than the sender |
| Server.SenderLabel | backend/server.js:150 | a missing or empty sender becomes `'Unknown'`; any other is kept |
| Server.RelaySignal | backend/server.js:121-143 | a signal goes to the target alone, never back to the sender, with `userId` set to the sender and the payload unchanged |
| Server.ChatOut | backend/server.js:148-151 | a chat message keeps its fields, with the sender defaulted |
| Server.SelectMatch | backend/server.js:175-187 | no match for an unknown joiner; a match pairs the stored joiner with a different waiting user of the room, scoring above 20 |
| Server.MatchedPairLeavesPool | backend/server.js:195-196 | after the two removals neither party is in the pool and every other entry is |
| Server.EvictionTime | backend/server.js:29 | the first sweep that evicts a user, on a 10-minute schedule, is the first one more than 5 minutes after the join |
| Server.ResidenceBound | backend/server.js:29 | a waiting user is evicted at most 15 minutes after joining |
| Server.ResidenceBoundReached | backend/userMatching.js:374 | the 15-minute bound is reached, three times the 5-minute age the sweep tests |
| Server.Hub.constructor | backend/server.js:71 | no connections, no events, empty storage |
| Server.Hub.Connect | backend/server.js:71-72 | a connection joins the registry |
| Server.Hub.FindMatch | backend/server.js:172-220 | unknown joiner or no match: nothing changes and nothing is emitted; a match: the room is recorded, both ids leave the pool, and exactly two `user-matched` events go out, each to one party and each carrying the other |
| Server.Hub.FindMatchAsWritten | backend/server.js:192 | as written, with in-memory storage: a match is found and dropped, with the pool, the rooms and the log unchanged and both users still waiting |
| Server.Hub.JoinRoom | backend/server.js:75-98 | stores the sender as waiting in the room and runs the corrected `findMatch`: no match leaves the sender waiting with nothing emitted; a match records the room under the canonical key, removes both users from the pool and sends each party one `user-matched` carrying the other |
| Server.Hub.LeaveRoomAsWritten | backend/server.js:102-117 | the sender leaves the pool, `user-left` goes to the socket named by the practice-room id, and the matched rooms stay |
| Server.Hub.LeaveRoom | backend/server.js:102-117 | the sender leaves the pool, its matched rooms close, and `user-left` reaches its connected session peers |
| Server.Hub.Signal | backend/server.js:121-143 | appends exactly the relayed signal |
| Server.Hub.ChatMessageAsWritten | backend/server.js:146-152 | appends one delivery of the chat event to every other connection |
| Server.Hub.ChatMessage | backend/server.js:146-152 | appends one delivery of the chat event to the sender's connected session peers |
| Server.Hub.Disconnect | backend/server.js:155-168 | the sender leaves the pool and the registry, and every other connection receives `user-left` |
| Server.LeaveNoticeReachesNoPeer | backend/server.js:111 | the `user-left` of `leave-room` reaches nobody when no socket carries the practice-room id |
| Server.ChatReachesStrangers | backend/server.js:148 | a broadcast reaches a connection that shares no session with the sender; session routing does not |
| Server.MatchedUsersAreSessionPeers | backend/server.js:192 | once their room is recorded, two matched users are each other's session peers |
| FormCore.ToNumber | src/components/pages/RegistrationPage.tsx:305 | `Number` gives a number exactly for a decimal numeral (0 for `''`) and `NaN` for the labels it cannot read |
| FormCore.DigitsValueZero | src/components/ChrysalisRegistrationForm.tsx:379 | a numeral is worth 0 exactly when all its digits are `0` |
| FormCore.NumberTruthy | src/components/ChrysalisRegistrationForm.tsx:379 | what the year select stores is truthy exactly for a numeral with a non-zero digit |
| FormCore.SocialsProvided | src/components/pages/RegistrationPage.tsx:79 | the number of filled-in social handles is at most 4, and 0 exactly when all are empty |
| FormCore.Points | src/components/pages/RegistrationPage.tsx:75-80 | a form meets at most five fold conditions |
| FormCore.PointsExtremes | src/components/pages/RegistrationPage.tsx:75-80 | five points exactly when every condition holds, none exactly when none does |
| FormCore.FoldScore | src/components/pages/RegistrationPage.tsx:73-82 | the score is one plus the number of conditions met, and always lies in [1, 6] |
| FormCore.BlurbOfThirty | src/components/ChrysalisRegistrationForm.tsx:194 | an intro of exactly 30 characters earns no fold point yet passes the length check |
| FormCore.UpdateField | src/components/pages/RegistrationPage.tsx:39-44 | sets only that field, including the `shareSocialsAfterSession` checkbox's flag; blanks that field's message only if one was shown; every other message and field unchanged |
| FormCore.UpdateFieldIdempotent | src/components/ChrysalisRegistrationForm.tsx:154-160 | typing the same value twice has the effect of typing it once |
| FormCore.AddPracticeGoal | src/components/pages/RegistrationPage.tsx:60-64 | a chosen goal is not added again; a new goal is appended; no duplicates are introduced |
| FormCore.RemoveKeeps | src/components/pages/RegistrationPage.tsx:66-71 | removal drops every occurrence of that goal and keeps the others in order |
| FormCore.RemoveAbsent | src/components/ChrysalisRegistrationForm.tsx:182-187 | removing an unchosen goal changes nothing |
| FormCore.RemoveUndoesAdd | src/components/ChrysalisRegistrationForm.tsx:176-187 | removing a goal just added restores the list |
| FormCore.AppendRemove | src/components/ChrysalisRegistrationForm.tsx:182-187 | removing a new last goal gives back the list before it |
| FormCore.MovePermutes | src/components/pages/RegistrationPage.tsx:54-56 | a drop keeps the length and the multiset of goals and puts the dragged goal at the destination |
| FormCore.MoveBack | src/components/ChrysalisRegistrationForm.tsx:170-172 | dragging the goal back restores the list |
| FormCore.SpliceOut | src/components/pages/RegistrationPage.tsx:55 | `splice(src, 1)` in place: the contents become the old ones without the element at `src` |
| FormCore.SpliceIn | src/components/pages/RegistrationPage.tsx:56 | `splice(d, 0, x)` in place: `x` is inserted at `d` and the old contents follow it in order |
| FormCore.OnDragEnd | src/components/pages/RegistrationPage.tsx:50-58 | no destination: the list is unchanged; otherwise the in-place splices produce the goal moved from the source index to the destination index |
| FormCore.NoAtInWhitespace | src/components/pages/RegistrationPage.tsx:88-89 | a blank email never contains `@`, so "Email is required" is always replaced by "Please enter a valid email" |
| FormCore.CommonErrors | src/components/ChrysalisRegistrationForm.tsx:200-211 | name, email, intro and goal messages, each set exactly when its check fails; an empty record exactly when all pass |
| FormCore.FindTheme | src/components/ChrysalisRegistrationForm.tsx:254 | `find`: nothing exactly when no theme has the name; otherwise the first theme with it |
| FormCore.ThemesWellFormed | src/components/ChrysalisRegistrationForm.tsx:27-34 | each theme has six colours and no two share a name |
| FormCore.ThemeColors | src/components/ChrysalisRegistrationForm.tsx:253-255 | the named theme's colours, the first theme's for an unknown name |
| FormCore.SocialIcon | src/components/ChrysalisRegistrationForm.tsx:257-265 | the four platforms map to their icons, and any other name that is not an `Object.prototype` property maps to `'🔗'` |
| RegistrationPage.FirstFailing | src/components/pages/RegistrationPage.tsx:91-99 | the first rule in order that rejects the password, or none exactly when all accept it |
| RegistrationPage.FirstFailingInOrder | src/components/pages/RegistrationPage.tsx:91-99 | the rules are tried in the order required, length, capital, digit |
| RegistrationPage.PasswordAccepted | src/components/pages/RegistrationPage.tsx:91-99 | all rules pass exactly for a trimmed length of at least 8 with a capital letter and a digit |
| RegistrationPage.PasswordError | src/components/pages/RegistrationPage.tsx:91-99 | the `else if` chain yields the message of the first failing rule, and nothing when all pass |
| RegistrationPage.ValidateForm | src/components/pages/RegistrationPage.tsx:84-107 | valid exactly when the name is non-blank, the email has `@`, the password passes, the intro has 30 trimmed characters and a goal is chosen; the password message is the first failing rule's, and each of the name, email, intro and goal messages is set exactly when its check fails |
| RegistrationPage.YearOptionsAreLabels | src/constants/index.ts:19-24 | each year option is a label `Number` cannot read |
| RegistrationPage.SelectYearAsWritten | src/components/pages/RegistrationPage.tsx:305 | as written, the placeholder stores 0 and every year option stores `NaN` |
| RegistrationPage.SelectYearAsWrittenLosesYear | src/components/pages/RegistrationPage.tsx:76 | as written, no year choice earns the tech-and-year fold point |
| RegistrationPage.SelectYearKeepsYear | src/components/pages/RegistrationPage.tsx:76 | corrected, a chosen year earns the point together with a tech interest, and the placeholder does not |
| ChrysalisForm.ValidateForm | src/components/ChrysalisRegistrationForm.tsx:200-215 | valid exactly when the name is non-blank, the email has `@`, the intro has 30 trimmed characters and a goal is chosen; each of the name, email, intro and goal messages is set exactly when its check fails, and there is no password message |
| ChrysalisForm.SelectYear | src/components/ChrysalisRegistrationForm.tsx:20-25 | the placeholder stores 0 and the `i`-th option stores the number `i + 1` |
| ChrysalisForm.SelectYearCounts | src/components/ChrysalisRegistrationForm.tsx:192 | a chosen year earns the tech-and-year point together with a tech interest; the placeholder does not |
| PitchTimer.TickFacts | src/components/shared/ElevatorPitchTimer.tsx:18-24 | a tick never takes the time below zero, counts down by one while time is left, and reaches 0 exactly from 1 or less |
| PitchTimer.TicksCountDown | src/components/shared/ElevatorPitchTimer.tsx:16-24 | from `t` seconds the countdown reaches 0 after exactly `t` ticks and stays there |
| PitchTimer.Timer.constructor | src/components/shared/ElevatorPitchTimer.tsx:10-12 | thirty seconds, stopped |
| PitchTimer.Timer.Tick | src/components/shared/ElevatorPitchTimer.tsx:16-24 | while running with time left, a tick takes one second off and stops the timer exactly when it reaches 0 |
| PitchTimer.Timer.Start | src/components/shared/ElevatorPitchTimer.tsx:40-42 | starts the timer and changes nothing else |
| PitchTimer.Timer.Pause | src/components/shared/ElevatorPitchTimer.tsx:44-46 | stops the timer and changes nothing else |
| PitchTimer.Timer.PressStartPause | src/components/shared/ElevatorPitchTimer.tsx:166-168 | toggles running, except while disabled at zero |
| PitchTimer.Timer.Reset | src/components/shared/ElevatorPitchTimer.tsx:48-51 | stops the timer and restores the chosen duration |
| PitchTimer.Timer.ChangeTime | src/components/shared/ElevatorPitchTimer.tsx:53-57 | sets the duration and the time left to the choice and stops the timer |
| PitchTimer.NatToStringValue | src/components/shared/ElevatorPitchTimer.tsx:62 | `toString` writes a non-empty decimal numeral worth the number |
| PitchTimer.FormatTimeDecodes | src/components/shared/ElevatorPitchTimer.tsx:59-63 | the display is minutes, a colon and exactly two digits of seconds below 60, and reads back as the time shown |
| Rooms.FilteredRoomsKeeps | src/components/pages/Rooms.tsx:131-136 | a room is shown exactly when its name or a skill contains the search term (ignoring case) and the category is "all" or the room's; shown rooms keep their order |
| Rooms.EmptySearchShowsAll | src/components/pages/Rooms.tsx:131-136 | an empty search in "all" shows every room |
| Rooms.CategoryNarrows | src/components/pages/Rooms.tsx:134 | choosing a category shows an order-preserving part of what "all" shows |
| Rooms.DifficultyColor | src/components/pages/Rooms.tsx:138-145 | the three levels map to their classes and anything else to grey |
| Rooms.OnlyRoomTwoHasTimer | src/components/pages/Rooms.tsx:163-165 | of the listed rooms, only room 2 is the elevator-pitch room |
| Rooms.RoomsPage.constructor | src/components/pages/Rooms.tsx:9-14 | empty search, "all", no video chat |
| Rooms.RoomsPage.SetSearchTerm | src/components/pages/Rooms.tsx:215 | sets the search term and nothing else |
| Rooms.RoomsPage.SelectCategory | src/components/pages/Rooms.tsx:193 | sets the category and nothing else |
| Rooms.RoomsPage.JoinRoom | src/components/pages/Rooms.tsx:147-155 | no user data: an alert and no change; otherwise the room becomes current and the video chat opens |
| Rooms.RoomsPage.LeaveVideoChat | src/components/pages/Rooms.tsx:157-160 | closes the video chat and clears the current room |

## Left out

- MongoDB. The model covers only the in-memory branch of the storage
  functions, and the choice of backend is fixed. `connectToDB`, the
  collection calls and the fallback switch (backend/userMatching.js:17-55)
  are foreign I/O.
- Matching.Store.RemoveMatchedRoom and Matching.Store.CreateMatchedRoom are
  the intended in-memory operations. As written, both call `db.collection`
  outside their `try` (backend/userMatching.js:215 and :242). In in-memory
  mode `connectToDB` returns the plain storage object (:40-42), so the call
  throws before anything is stored or deleted. `Server.Hub.FindMatchAsWritten`
  and `Server.Hub.LeaveRoomAsWritten` model that outcome.
- Server.SelectMatch: server.js's `getUserFromWaitingList` opens its own
  MongoDB connection. It is modelled as a lookup in the same in-memory pool.
- Server.Hub.JoinRoom: with missing user data the handler reads
  `userData.name` (backend/server.js:79) before its `try` and throws. The
  rejected promise is unhandled, which by default ends the Node process.
  That path is left out: the model keeps the state unchanged.
- Server.Hub.JoinRoom: the `error` event (backend/server.js:97) is not
  modelled. In in-memory mode neither awaited call throws, because
  `findMatch` catches its own errors.
- FormCore.SocialIcon: names inherited from `Object.prototype` (such as
  `constructor` or `toString`) are not modelled; `icons[platform]` would
  return the inherited property. The forms only pass the four keys of
  `socials` (src/components/pages/RegistrationPage.tsx:485).
- `Math.random`: it is a parameter, one value per candidate. A caller must
  pass at least as many values as there are waiting users.
- Floating point is exact `real` arithmetic. The timer's progress
  percentage and colour band are floating-point display logic and are left
  out.
- Timers and scheduling:
  - `setInterval` and `setTimeout` become explicit method calls (`Tick`, a
    sweep at `now`), and every socket handler is one atomic step.
  - Awaits inside a handler do not interleave with other handlers.
  - React's effect scheduling and state batching are not modelled.
- Socket.io internals, WebRTC, media, login and user insertion are not part
  of this model. Neither are the Gemini and HTTP calls, the `fetch` in the
  forms, local storage parsing and rendering.
- Matching.Profile: the backend's `year` is a string. Forms send a number, or
  `null` for `NaN`. Strict equality and truthiness behave the same on these
  values when a missing year is written as the empty string.
- FormCore.ToNumber covers only the select values `Number` is applied to
  here: the empty string, decimal numerals, and labels that start with a
  digit and contain a letter no numeric literal has. Signs, fractions,
  exponents, white space and `Infinity` are not modelled.
- Text.ToLower maps ASCII letters only. The room names, skills and search terms
  the model reasons about are ASCII, and Unicode case mapping is left out.
- FormCore.OnDragEnd requires in-range indices, which react-beautiful-dnd
  supplies. `splice` clamping of out-of-range indices is not modelled.
- PitchTimer.Timer.Start requires time left. Its only caller, the start
  button, is disabled at zero; `PressStartPause` models the button.
- PitchTimer.Timer.ChangeTime takes one of the offered durations 30, 60
  and 90.
- Rooms.RoomsPage.JoinRoom takes one of the listed rooms' ids, which are
  what the join buttons pass.
- Rooms.RoomsPage: the timer and audio toggles are not modelled
  (`isTimerOpen`, the room-3 audio panel), nor the scroll lock.
- `updateSocial` is not modelled, and neither is the submit flow.
- Matching.MatchedRoom: the constant `status: 'active'` field is not
  stored. The `users` collection of the in-memory store is unused and left
  out.

## Findings

| source | as written | input that shows it | evidently intended | confidence | as-written member | corrected member |
|---|---|---|---|---|---|---|
| backend/userMatching.js:218 | the matched-room key is `` `${user1.socketId}-${user2.socketId}` ``, which depends on who joined last | users `A` and `B`: `A-B` from one side, `B-A` from the other | one key per pair, whatever the order | medium, not executed | Matching.RoomKeyAsWrittenIsOrderDependent | Matching.SessionKeySymmetric |
| backend/userMatching.js:215 | `createMatchedRoom` calls `db.collection` before its `try`. In in-memory mode `db` is the plain storage object, so the call throws. Even before that, server.js's `getUserFromWaitingList` (backend/server.js:223-247) opens its own MongoDB connection, which fails inside `findMatch`'s `try`, so scoring is not reached either. Either way `findMatch` catches the error. The model's lookup in the same pool is the abstraction listed under Left out, and it reaches the `db.collection` failure | any successful match with in-memory storage: both users stay waiting and no `user-matched` is sent | record the room in the in-memory `matchedRooms` map (backend/userMatching.js:10), remove both users, notify both | high, not executed | Server.Hub.FindMatchAsWritten | Server.Hub.FindMatch |
| backend/server.js:114 | `leave-room` deletes the matched room whose key is the practice-room id, but matched rooms are keyed `a-b` | leave `"3"` after matching: no room has the key `"3"`, and the session stays recorded. In in-memory mode the call throws even earlier, at `db.collection` (backend/userMatching.js:242), and `leave-room` catches it (backend/server.js:115-116), so nothing is deleted either way | close the sender's matched rooms | high, not executed | Matching.PracticeRoomIdIsNoSessionKey | Matching.ClosingSessions |
| backend/server.js:111 | `socket.to(roomId)` uses the practice-room id, but no socket is ever put into that room, so `user-left` reaches nobody | leave `"3"` while matched with `B`: nothing is delivered to `B` | tell the sender's session peers | high, not executed | Server.LeaveNoticeReachesNoPeer | Server.Hub.LeaveRoom |
| backend/server.js:148 | chat is broadcast to every other connection, not to the sender's session | `A`, `B` matched and `C` connected alone: `C` receives `A`'s chat | deliver to the sender's session peers | high, not executed | Server.Hub.ChatMessageAsWritten | Server.Hub.ChatMessage |
| src/components/pages/RegistrationPage.tsx:305 | the year select stores `Number(value)`, but this page's options are `'1st'`, `'2nd'`, `'3rd'`, `'4th+'` | choose "1st year": the year becomes `NaN`, and the tech-and-year fold point is never earned | store the option value (the field is typed `year: string`) | high, not executed | RegistrationPage.SelectYearAsWrittenLosesYear | RegistrationPage.SelectYearKeepsYear |

The eviction age is 5 minutes (backend/userMatching.js:374), but the sweep
runs only every 10 minutes (backend/server.js:29). `Server.ResidenceBound`
and `Server.ResidenceBoundReached` prove what that gives: a waiting user can
stay in the pool for 15 minutes.
