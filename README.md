# Málaga Quest – Zona Vialia: a verified model of the game-state core

Málaga Quest is a city-adventure web game. A group chats with the "Maestro del
Enigma", who sets puzzles about the Vialia area of Málaga's María Zambrano
station. This project models the logic behind that chat in Dafny and proves
properties about it:

- **The chat view's tracker.** Each reply from the Maestro is scanned for a score written before
  "/6000". An accepted score (0..6000) replaces the group's score and sets its level. A
  fixed list of Spanish completion phrases counts solved puzzles, up to 12. The transcript,
  score, level and puzzle count are saved in the browser store under the keys
  `malaga-quest-vialia-<group>`, `-score`, `-level` and `-puzzles`. They are loaded back
  with defaults, and are removed when a new game starts.
- **The chat endpoint** `POST /api/chat`. It returns one of three fixed replies, chosen
  from the content of the last message only.
- **The landing page.**
  - It lists saved games found in the store, newest first, and shows three of them.
  - It labels each game "hace N días/horas/minutos".
  - It refuses to start without a group name.
  - It runs a 3-2-1 countdown before opening the chat.

Files:

| file | module | contents |
|---|---|---|
| `wrappers.dfy` | `Wrappers` | `Option` |
| `strings.dfy` | `Strings` | digits, `parseInt`, `toString`, `trim`, `toLowerCase`, `/i` case folding, `includes`, `startsWith` over `seq<char>` |
| `storage.dfy` | `QuestStorage` | messages, the abstract transcript codec, the store (`map<string,string>`) and the group-scoped keys |
| `reply_patterns.dfy` | `ReplyPatterns` | the four score patterns and the eight completion patterns, each written as a dedicated scanner |
| `score_tracker.dfy` | `ScoreTracker` | levels, the pure step functions, and the class `QuestChat` holding the chat view's state |
| `chat_route.dfy` | `ChatRoute` | the endpoint and its three replies |
| `canned_reply_scan.dfy` | `CannedReplyScan` | what the tracker makes of the endpoint's "1865" reply |
| `landing_page.dfy` | `LandingPage` | session listing, stable newest-first sort, the "time ago" label, the countdown, and the class `QuestPage` |

Some constants disagree with each other, and the model keeps them as the code
writes them:

- The level thresholds 9, 7 and 4 are applied to a score out of 6000, so every accepted score from 9 on earns "Leyenda absoluta" (`LevelSaturates`).
- The puzzle cap is 12, while the console message says "/9".
- The endpoint's congratulation announces "300/9000". No score pattern reads that, so the reply changes neither the score nor the puzzle count (`CannedReplyScan.CongratulationChangesNothing`).

## Model

| member | source | states |
|---|---|---|
| ScoreTracker.GetLevelFromScore | src/components/ChatComponent.tsx:99-104 | each of the four levels is returned exactly for its score range (≥9, 7..8, 4..6, <4), so the levels partition the integers |
| ScoreTracker.LevelMonotone | src/components/ChatComponent.tsx:99-104 | a higher score never earns a lower level |
| ScoreTracker.LevelSaturates | src/components/ChatComponent.tsx:99-104 | every accepted score from 9 to 6000 earns the top level, which no other score outranks |
| ScoreTracker.NextPuzzleCount | src/components/ChatComponent.tsx:131-137 | with no completion phrase the count stays; with one it grows by one below 12; at or above 12 it stays; a count ≤ 12 stays ≤ 12 |
| ScoreTracker.ScoreWrites | src/components/ChatComponent.tsx:182-183 | an accepted score adds exactly the `-score` key (its decimal text) and the `-level` key (its level); every other key keeps its value; no score means no write |
| ScoreTracker.PuzzleWrites | src/components/ChatComponent.tsx:137-139 | the `-puzzles` key is written, with the new count's text, only when the count grew; every other key keeps its value |
| ScoreTracker.UnmarkedReplyKeepsScore | src/components/ChatComponent.tsx:155-188 | a reply with no digit right before "/6000" yields no score and leaves the store unchanged |
| ScoreTracker.CapReached | src/components/ChatComponent.tsx:133-139 | at the cap of 12 a completion phrase neither changes the count nor writes the key |
| ScoreTracker.LoadedNumber | src/components/ChatComponent.tsx:227-242 | a saved number is applied only when its key is truthy and it parses; otherwise the current value stays |
| ScoreTracker.LoadedLevel | src/components/ChatComponent.tsx:234-236 | a truthy saved level is applied verbatim, otherwise the current level stays |
| ScoreTracker.WelcomeNamesGroup | src/components/ChatComponent.tsx:255-261 | the welcome text contains the group name right after its greeting line |
| ScoreTracker.WelcomeMessage | src/components/ChatComponent.tsx:253-263 | the welcome is an assistant message stamped with the load time that names the group |
| ScoreTracker.LoadedTranscript | src/components/ChatComponent.tsx:244-266 | without a truthy saved transcript the transcript becomes just the welcome message; a saved one that decodes replaces it; one that fails to decode leaves it unchanged |
| ScoreTracker.Persisted | src/components/ChatComponent.tsx:280-284 | a non-empty transcript is written under the group's key and nothing else changes; an empty one writes nothing |
| ScoreTracker.ScoreSurvivesReload | src/components/ChatComponent.tsx:227-236 | a saved score and its level are loaded back exactly as saved |
| ScoreTracker.PuzzlesSurviveReload | src/components/ChatComponent.tsx:237-242 | a saved puzzle count is loaded back exactly as saved |
| ScoreTracker.TranscriptSurvivesReload | src/components/ChatComponent.tsx:244-248 | given a codec that round-trips, a saved non-empty transcript is loaded back exactly |
| ScoreTracker.LoadIsIdempotent | src/components/ChatComponent.tsx:220-284 | a fresh view loading from the store a load left behind, at any later time, gets the same score, level, puzzle count and transcript |
| ScoreTracker.ClearedSessionLoadsFresh | src/components/ChatComponent.tsx:415-425 | after a reset, loading finds score 0, level "Novato curioso", 0 puzzles and just the welcome message |
| ScoreTracker.AnswerText | src/components/ChatComponent.tsx:327-346 | the assistant's text is the reply content, or "Error al obtener respuesta" when it is empty, or the connection-error text on failure; it is never empty |
| ScoreTracker.ApiMessages | src/components/ChatComponent.tsx:306-309 | the request holds one message per transcript entry, in order, with the same role and content |
| ScoreTracker.RequestEndsWithInput | src/components/ChatComponent.tsx:294-309 | the endpoint reads the trimmed input as the last message |
| ScoreTracker.ReplyWrites | src/components/ChatComponent.tsx:335-346 | a failed request writes no score, level or puzzle key; neither does a delivered reply with no accepted score and no completion phrase |
| ScoreTracker.QuestChat.constructor | src/components/ChatComponent.tsx:24-35 | the initial state: empty transcript and draft, not loading, score 0, level "Novato curioso", 0 puzzles |
| ScoreTracker.QuestChat.PersistMessages | src/components/ChatComponent.tsx:280-284 | the store becomes `Persisted` of the current transcript; nothing else changes |
| ScoreTracker.QuestChat.LoadSession | src/components/ChatComponent.tsx:220-267 | score, display score, level, puzzles and transcript become their loaded values from the store as it was; the transcript is then saved |
| ScoreTracker.QuestChat.LoadScore | src/components/ChatComponent.tsx:227-233 | score and display score become the loaded number; the other fields stay |
| ScoreTracker.QuestChat.LoadLevel | src/components/ChatComponent.tsx:234-236 | the level becomes the loaded level; the other fields stay |
| ScoreTracker.QuestChat.LoadPuzzles | src/components/ChatComponent.tsx:237-242 | the puzzle count becomes the loaded number; the other fields stay |
| ScoreTracker.QuestChat.LoadTranscript | src/components/ChatComponent.tsx:244-266 | the transcript becomes `LoadedTranscript`; the other fields stay |
| ScoreTracker.QuestChat.DetectPuzzleCompletion | src/components/ChatComponent.tsx:118-143 | the count becomes `NextPuzzleCount` and the store `PuzzleWrites` of the old state; score, level and transcript stay |
| ScoreTracker.QuestChat.ExtractScoreFromResponse | src/components/ChatComponent.tsx:146-192 | an accepted score replaces the score and display score and sets its level, and no score leaves all three; the puzzle count and store reflect both the score writes and the completion check, which runs in every case |
| ScoreTracker.QuestChat.ApplyAnnouncedScore | src/components/ChatComponent.tsx:155-188 | the loop over the patterns in order ends with exactly the score `AcceptedScore` names, or none, and the store `ScoreWrites` of it |
| ScoreTracker.QuestChat.SetScore | src/components/ChatComponent.tsx:160-183 | score, display score and level take the new score and its level, and both keys are written |
| ScoreTracker.QuestChat.ClearSession | src/components/ChatComponent.tsx:415-428 | when confirmed, exactly the group's four keys are removed and the state is reset; when not confirmed, nothing changes |
| ScoreTracker.QuestChat.BeginSend | src/components/ChatComponent.tsx:291-309 | blank input or a pending reply changes nothing and sends nothing; otherwise the trimmed input is appended, the draft is cleared, loading starts, the transcript is saved, and the request carries the whole transcript |
| ScoreTracker.QuestChat.Submit | src/components/ChatComponent.tsx:294-309 | the accepted input joins the transcript, which is saved, and the request mirrors it |
| ScoreTracker.QuestChat.FinishSend | src/components/ChatComponent.tsx:326-350 | exactly one assistant message is appended; a delivered reply is scanned (score, level, puzzles, keys); a failure changes no progress; loading ends; the transcript is saved |
| ScoreTracker.QuestChat.SendMessage | src/components/ChatComponent.tsx:291-350 | an accepted input grows the transcript by exactly the trimmed input and one answer, and ends with loading off and the draft cleared. A delivered reply's accepted score becomes the total and displayed score, with its level; without one the score and level stay. The puzzle count advances as `NextPuzzleCount` says. A failed request keeps score, displayed score, level and count. The store ends as saving, scanning and saving again make it. An ignored input changes nothing |
| ScoreTracker.QuestChat.Exchange | src/components/ChatComponent.tsx:294-350 | an accepted input and its answer: exactly two messages join the transcript, the wait ends, the score, level and count change as the answer dictates, and the store is saved, scanned and saved again |
| ReplyPatterns.SeparatorRunEnd | src/components/ChatComponent.tsx:149-151 | the greedy run of ':' and white space: every character in it is a separator and the next one is not |
| ReplyPatterns.DigitsBeforeDenominator | src/components/ChatComponent.tsx:152 | a capture at j is a non-empty run of digits from j immediately followed by "/6000" (the converse is `AnnouncementCaptured`) |
| ReplyPatterns.AnnouncementCaptured | src/components/ChatComponent.tsx:152 | digits from j standing immediately before "/6000" are exactly what the bare pattern captures at j |
| ReplyPatterns.CaptureAt | src/components/ChatComponent.tsx:148-152 | a match of a score pattern at i captures digits standing right before "/6000", at or after i (the converse is `LabelledCaptured`) |
| ReplyPatterns.LabelledCaptured | src/components/ChatComponent.tsx:149-151 | a labelled pattern matches at i when its label stands there up to case and the separators after it lead to digits before "/6000", and it captures those digits |
| ReplyPatterns.FirstCapture | src/components/ChatComponent.tsx:156 | the leftmost match captures digits right before "/6000" |
| ReplyPatterns.FirstCaptureNone | src/components/ChatComponent.tsx:156 | when no match is found, the pattern matches at no position from i on |
| ReplyPatterns.FirstCaptureFinds | src/components/ChatComponent.tsx:156 | a pattern that matches at some position from i on is found |
| ReplyPatterns.MarkFound | src/components/ChatComponent.tsx:152-156 | wherever a digit stands right before "/6000", the bare pattern finds a match |
| ReplyPatterns.FirstCaptureLeftmost | src/components/ChatComponent.tsx:156 | the match found is at the smallest position where the pattern matches |
| ReplyPatterns.AcceptedFrom | src/components/ChatComponent.tsx:155-188 | the patterns from p on, tried in order: the first whose leftmost number is at most 6000 gives the score, so an accepted score is never above 6000 |
| ReplyPatterns.AcceptedScore | src/components/ChatComponent.tsx:155-188 | the score the loop accepts: at most 6000 and written in the reply before "/6000"; `SoleAnnouncementAccepted` says which number it is |
| ReplyPatterns.AcceptedScoreAnnounced | src/components/ChatComponent.tsx:155-159 | an accepted score is at most 6000 and is written in the reply as digits right before "/6000" |
| ReplyPatterns.NoMarkNoScore | src/components/ChatComponent.tsx:155-159 | a reply with no digit right before "/6000" yields no score |
| ReplyPatterns.AnnouncementIsMark | src/components/ChatComponent.tsx:152 | any announced number puts a digit right before "/6000" |
| ReplyPatterns.LabelAbsent | src/components/ChatComponent.tsx:149-151 | a labelled pattern finds nothing in a text without its first letter in either case |
| ReplyPatterns.BareAnnouncement | src/components/ChatComponent.tsx:152-159 | the reply "N/6000" with N ≤ 6000 sets the score to exactly N |
| ReplyPatterns.SoleAnnouncementAccepted | src/components/ChatComponent.tsx:148-159 | a reply whose only "/6000" follows a whole number N ≤ 6000 sets the score to N, whatever text surrounds it ("Puntuación total: 450/6000" gives 450) |
| ReplyPatterns.SoleAnnouncementFrom | src/components/ChatComponent.tsx:155-159 | for such a reply, every pattern from p on accepts N, the first that matches included |
| ReplyPatterns.LabelledFirstCapture | src/components/ChatComponent.tsx:149-156 | for such a reply, a labelled pattern that matches anywhere captures exactly the digits of N |
| ReplyPatterns.BareFirstCapture | src/components/ChatComponent.tsx:152-156 | for such a reply, the bare pattern captures exactly the digits of N |
| ReplyPatterns.LabelledCaptureFollowsNonDigit | src/components/ChatComponent.tsx:149-151 | a labelled capture follows the label or a separator, never a digit |
| ReplyPatterns.NoLettersInAnnouncement | src/components/ChatComponent.tsx:149-152 | digits followed by "/6000" contain no 'p' or 't' in either case, so no label can match there |
| ReplyPatterns.MissingLetterNoMatch | src/components/ChatComponent.tsx:120-131 | a completion phrase cannot match a text that lacks one of its letters in both cases |
| ReplyPatterns.FoldedAt | src/components/ChatComponent.tsx:120-128 | the `/i` flag: a literal matches at i when each character there folds to the literal's; used by every pattern, and `MissingLetterNoMatch` and `LabelledCaptured` state its effect |
| ReplyPatterns.CompletionAt | src/components/ChatComponent.tsx:120-128 | one completion pattern at i: the phrase, or "has ganado ", digits and " puntos", up to case; `MissingLetterNoMatch` and `PhraseNotAcross` state when it cannot match |
| ReplyPatterns.Matches | src/components/ChatComponent.tsx:131 | `pattern.test(response)`: the pattern matches at some position |
| ReplyPatterns.CompletionDetected | src/components/ChatComponent.tsx:131 | `completionPatterns.some(...)`: one of the eight patterns matches; `NextPuzzleCount` and `CongratulationCompletesNothing` are stated through it |
| ReplyPatterns.PhraseNotAcross | src/components/ChatComponent.tsx:120-131 | a phrase matching neither half of a text does not match the whole when a character it lacks separates the halves |
| QuestStorage.GroupKeysDistinct | src/components/ChatComponent.tsx:417-420 | a group's four keys are four different keys |
| ScoreTracker.ScoreAndLevelKeysDiffer | src/components/ChatComponent.tsx:182-183 | the score key and the level key never collide, so one write cannot undo the other |
| Strings.ParseIntOfIntToString | src/components/ChatComponent.tsx:228 | parsing a number's decimal text gives the number back |
| Strings.ParseInt | src/components/ChatComponent.tsx:228 | `parseInt` in base 10: white space, an optional sign, the longest digit run, NaN as `None`; `ParseIntOfIntToString` states its round trip with `toString` |
| Strings.Trim | src/components/ChatComponent.tsx:292 | `trim()`; `TrimEmptyIffBlank`, `TrimEndsAreNotSpace` and `TrimIsSlice` state what it returns |
| Strings.Lower | src/app/api/chat/route.ts:12 | `toLowerCase`, character by character, keeping the length; `CannedReplyChoice` is stated through it |
| Strings.NatToString | src/components/ChatComponent.tsx:182 | the decimal text of a natural number is a non-empty run of digits whose value is the number |
| Strings.TrimEmptyIffBlank | src/components/ChatComponent.tsx:292 | the trimmed input is empty (falsy) exactly when the input is all white space |
| Strings.TrimEndsAreNotSpace | src/components/ChatComponent.tsx:296 | a non-empty trimmed text neither begins nor ends with white space |
| Strings.TrimIsSlice | src/components/ChatComponent.tsx:296 | the trimmed text is a slice of the input with only white space on either side |
| ChatRoute.Post | src/app/api/chat/route.ts:3-47 | every successful answer carries one of the three fixed replies |
| ChatRoute.LastContent | src/app/api/chat/route.ts:6-8 | the last message's content, "" for none; `OnlyLastMessageCounts` and `NothingToReadGetsWelcome` state its effect on the reply |
| ChatRoute.CannedReply | src/app/api/chat/route.ts:12-34 | the priority chain: always one of the three replies, and which one is stated both ways by `CannedReplyChoice` |
| ChatRoute.RepliesDistinct | src/app/api/chat/route.ts:12-34 | the three replies are three different texts |
| ChatRoute.CannedReplyChoice | src/app/api/chat/route.ts:12-34 | first puzzle exactly when the lower-cased last message contains "empezar" (even with "1865"); congratulation exactly when it contains "1865" but not "empezar"; welcome otherwise |
| ChatRoute.OnlyLastMessageCounts | src/app/api/chat/route.ts:8 | earlier turns never change the reply |
| ChatRoute.NothingToReadGetsWelcome | src/app/api/chat/route.ts:6-8 | an empty message list, or an empty last content, gets the welcome reply |
| ChatRoute.PostOutcome | src/app/api/chat/route.ts:36-46 | a request fails exactly when the handler cannot read its body (`Unparsable`), and then with status 500 and "Error procesando mensaje" |
| CannedReplyScan.CongratulationHasNoScoreMark | src/app/api/chat/route.ts:23 | no digit stands right before "/6000" anywhere in the congratulation |
| CannedReplyScan.NoMarkAroundSlash | src/app/api/chat/route.ts:23 | a text whose only '/' is the one in "/9000" has no score mark |
| CannedReplyScan.CongratulationNotPassOn | src/app/api/chat/route.ts:19-25 | "puedes pasar a la siguiente prueba" does not occur in the congratulation |
| CannedReplyScan.CongratulationCompletesNothing | src/app/api/chat/route.ts:19-25 | none of the eight completion phrases occurs in the congratulation |
| CannedReplyScan.CongratulationChangesNothing | src/app/api/chat/route.ts:18-25 | fed to the tracker, the congratulation yields no score, keeps the puzzle count and writes no key |
| CannedReplyScan.CongratulationReplyWritesNothing | src/app/api/chat/route.ts:18-25 | delivered to the chat view, the congratulation is shown as is and writes no score, level or puzzle key |
| LandingPage.GroupOf | src/app/page.tsx:89 | removing the prefix gives the group whose transcript key is the key |
| LandingPage.GroupOfTranscriptKey | src/app/page.tsx:88-89 | a group's transcript key has the prefix and gives the group back |
| LandingPage.IsSessionKey | src/app/page.tsx:88 | the filter: the prefix and none of "-score", "-level", "-puzzles"; `ProgressKeysAreNotSessions` and `SuffixInNameHidesGroup` state its effect |
| LandingPage.ProgressKeysAreNotSessions | src/app/page.tsx:88 | score, level and puzzle keys are never taken for transcripts |
| LandingPage.SuffixInNameHidesGroup | src/app/page.tsx:88 | a group whose name contains "-score", "-level" or "-puzzles" is never listed |
| LandingPage.NumberOrZero | src/app/page.tsx:103-105 | a missing or empty number key reads as 0; a present one is parsed, and a failed parse is kept as no number |
| LandingPage.SessionFrom | src/app/page.tsx:88-107 | a key yields a session exactly when it is a session key with a truthy transcript that decodes to more than one message; the session names the key's group and carries its score, puzzles and level, or the defaults 0, 0 and "Novato Perdido" |
| LandingPage.LastPlayedOfSession | src/app/page.tsx:99-106 | the last-played time is the last message's timestamp, or now when that is missing |
| LandingPage.Collect | src/app/page.tsx:86-114 | no more sessions than keys |
| LandingPage.YieldingIndices | src/app/page.tsx:86-97 | the positions of the keys that yield a session, each once and in increasing order |
| LandingPage.CollectInKeyOrder | src/app/page.tsx:86-114 | the collected sessions are one per key that yields one, in the order of the keys |
| LandingPage.CollectMembers | src/app/page.tsx:86-114 | a session is collected exactly when some key yields it |
| LandingPage.Insert | src/app/page.tsx:117 | insertion adds exactly the one session, and the result starts with it or with the old first |
| LandingPage.SortNewestFirst | src/app/page.tsx:117 | the sort is a permutation of its input |
| LandingPage.InsertKeepsOrder | src/app/page.tsx:117 | inserting into a newest-first list keeps it newest first |
| LandingPage.SortIsNewestFirst | src/app/page.tsx:117 | the sorted list is newest first |
| LandingPage.InsertIsStable | src/app/page.tsx:117 | insertion puts the new session first among those with its time |
| LandingPage.SortIsStable | src/app/page.tsx:117 | sessions with equal times keep their relative order |
| LandingPage.ShownAreNewest | src/app/page.tsx:302 | none of the sessions past the first three is newer than any of the three shown |
| LandingPage.FormatTimeAgo | src/app/page.tsx:154-165 | under a minute, or in the future, reads "hace un momento" |
| LandingPage.DescribeIsNotJustNow | src/app/page.tsx:161-164 | a label with a positive count never reads "hace un momento" |
| LandingPage.Describe | src/app/page.tsx:161-163 | "hace N unidad(es)"; `DescribeIsNotJustNow` and `PluralIffMany` state its properties |
| LandingPage.JustNowIffUnderAMinute | src/app/page.tsx:154-165 | "hace un momento" exactly when less than a minute has passed |
| LandingPage.LargestUnit | src/app/page.tsx:157-163 | the label uses the largest unit with a positive whole count, and that count is the floor of the elapsed time in the unit |
| LandingPage.PluralIffMany | src/app/page.tsx:161-163 | the label ends in 's' exactly when its count is above one |
| LandingPage.Tick | src/app/page.tsx:125-137 | while counting down, a positive counter drops by one, and at 0 the chat opens, the countdown hides and the counter resets to 3; otherwise nothing changes |
| LandingPage.TickKeepsRange | src/app/page.tsx:125-137 | the counter stays within 0..3 |
| LandingPage.CountdownOpensChat | src/app/page.tsx:125-137 | from c seconds left, after c + 1 runs the chat is shown with the counter back at 3 |
| LandingPage.IdleStaysIdle | src/app/page.tsx:126-131 | without a countdown running, no number of runs changes anything |
| LandingPage.QuestPage.constructor | src/app/page.tsx:72-78 | the initial page state: no chat, no countdown, counter 3, no selection, no sessions |
| LandingPage.QuestPage.DetectSavedSessions | src/app/page.tsx:82-119 | the listed sessions are exactly the collected ones, sorted newest first; nothing else changes |
| LandingPage.QuestPage.StartAdventure | src/app/page.tsx:139-146 | a blank or white-space group name is refused and changes nothing; otherwise the selection is cleared and the countdown starts |
| LandingPage.QuestPage.CountdownStep | src/app/page.tsx:125-137 | the screen flags advance by exactly one `Tick` |

## Left out

- The score animation (src/components/ChatComponent.tsx:61-96) is left out. `displayScore` is set straight to its final value, which is what the animation ends at.
- The level-change animation, the typewriter effect, auto-scroll, mobile detection and `getLevelColor` are left out; they are presentation only.
- Audio recording and transcription (`startRecording`, `stopRecording`, `transcribeAndSend`) are left out; they need the microphone and the network.
- The `fetch` to the endpoint is an input: `Outcome` is either a delivered `content` (empty when absent) or a failure (a non-OK status, a network error or an unreadable body).
- `JSON.stringify`/`JSON.parse` of a transcript is an abstract codec.
  - Decoding either yields a transcript or fails, which is the `catch` branch.
  - Reload lemmas assume a codec that round-trips.
  - `Unparsable` stands for every body on which the endpoint's handler throws: a body that is not JSON, the JSON `null` (reading `messages` of it throws), and a body whose last message has a truthy content that is not a string (`toLowerCase` throws). `ChatMessage.content` is a string, so a readable request cannot carry such a content.
- The store never refuses a write. In the browser, `setItem` can throw when the storage quota is full. Inside `sendMessage` that throw lands in its `catch`, which appends the connection-error text as a second answer after the reply; a score and level set before the throw stay set. The model does not capture this.
- `Date.now()` is a parameter (`now`, `sentAt`, `repliedAt`).
- The order of `localStorage.key(i)` is the `keys` parameter of `DetectSavedSessions`.
- `confirm` is the `confirmed` parameter of `ClearSession`.
- `alert`, `location.reload` and `console` output are left out; `StartAdventure` returns `refused` instead of raising the alert.
- The save effect runs after every change of the transcript. The model calls `PersistMessages` at the end of each method that changes the transcript, which gives the same final store. `ClearSession` empties the transcript without calling it; the save effect would write nothing then, because an empty transcript is not saved.
- `sendMessage` awaits the endpoint in the middle. `BeginSend` is the part before the await and `FinishSend` the part after. `SendMessage` applies the guard and then runs `Submit` and `FinishSend` in order (`Exchange`), so two sends cannot interleave in the model.
- React's batching of state updates and its stale closures are not modelled. Each method reads the current field values.
- `ParseInt` reads leading white space, a sign and decimal digits. It does not model hexadecimal prefixes, or numbers too large for a double losing precision.
- Case folding covers Basic Latin and Latin-1 letters only. That is every letter the patterns and replies use.
- `continueSession`, the map component, the FAQ and the page markup are left out; they hold no logic beyond setting state for rendering.
- The endpoint's texts are written as concatenations of short pieces. Each equals the endpoint's text character for character.
