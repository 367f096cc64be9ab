# Agentic Detective: a verified model of the case-file and game-state core

Agentic Detective is a murder-mystery game. The player describes a setting, and one language-model call turns that description into a whole case file. The file is split into two slices: a secret one (the storyline and the suspects with their secrets) and a spoiler-free one for the player (the profiles, the case report and the clues). The player then questions each suspect in a separate chat. Each chat is primed with a system prompt built from that suspect's secrets. At the end the player accuses one of them.

This project models the core of that game in Dafny and proves what the code promises.

- `js.dfy` (module `Js`) holds the JavaScript built-ins the code relies on:
  - nullable values;
  - `Array.prototype.find` and `findIndex`;
  - string truthiness;
  - `trim`, `trimStart` and `trimEnd`, over the ECMAScript WhiteSpace and LineTerminator set, which is also the set the regular-expression class `\s` matches.
- `response_cleanup.dfy` (module `ResponseCleanup`) cleans the model's reply before it is parsed as JSON:
  - Markdown code fences are stripped, in the order the code applies its replacements;
  - the global search for double-quoted string literals is modelled as a scan, proved equal to a reference grammar of the regular expression;
  - each literal is passed through the escape callback.
- `case_file.dfy` (module `CaseFile`) holds the case-file data model and the fixed avatar catalog.
  - The case-generation prompt and each suspect's system prompt are sequences of blocks. A block stands for one fixed passage or one interpolated value; the prose itself is not modelled.
  - Also here: the exchange estimate, the tier thresholds, the generation pipeline, the backend/player split, and the generation rules the prompt asks for.
- `game_store.dfy` (module `GameStore`) models the game store.
  - Each action is a pure transition on a `StoreState` value.
  - The class `Store` holds the same fields. Each of its methods performs exactly one transition and keeps the store invariant. For `CaseGenerated` and `SendComplete` this holds for a valid generated case and a valid ticket (`FilesValid`, `TicketValid`). Every case the generator produces and every ticket `SendBegin` issues is valid (`GeneratedFilesValid`, `BeginTicketValid`).
  - The asynchronous actions are split at their `await`:
    - `startCase` becomes `StartCase` and `CaseGenerated`;
    - `sendMessage` becomes `SendBegin`, which returns the ticket the code keeps across the await, and `SendComplete`.
  - A completion may arrive in any later state, including after a reset, exactly as in the code.
  - Traces of events (`Run`) carry the invariants that hold over a whole game.
- `notes.dfy` (module `Notes`) models the detective's notebook page: per-suspect notes and the pinned/unpinned scratchpad, each handler written as a function on the list it replaces.

In several places the code behaves differently from what a player would expect of the game. The model follows the code:

- **A failed chat turn is rolled back.** One would expect the player's question to stay in the history, unanswered, when the suspect's reply fails. The code instead puts back the session it captured before the optimistic update, so the player's message disappears (`SendFailureRollsBack`).
- **No phase guards.** The game is meant to move through setup, generation, briefing, investigation, accusation and resolution in that order. The actions do not check the phase.
  - `proceedToInvestigation` works from any phase, so the investigation phase is reachable with no case loaded (`InvestigationWithoutCase`).
  - `makeAccusation` resolves from any phase as soon as a backend slice is held.
  - No action ever sets the `accusation` phase (`AccusationPhaseUnreachable`).
  - So "the slices are loaded exactly in the phases from briefing to resolution" does not hold. What does hold is that the two slices are loaded and cleared together and share their clue list (`RunPreservesValid`).
- **Generated documents are not validated.** The prompt asks the model for a document that follows fixed rules (four suspects, one guilty, and so on). The code only parses what comes back. `WellFormedCase` states those rules, and the code never enforces it. It appears only as a hypothesis, for example in `VerdictOnWellFormedCase` and `InterrogatedSuspectHasProfile`.
- **The tells line needs a non-empty string.** The code tests the truthiness of `lyingTells`, not whether it is set, so an empty string also leaves the line out (`TellsLineIffLyingTells`).
- **Completions after a reset are not discarded.** A reply that arrives after a reset re-inserts its session and counts one exchange (`StaleReplyAfterReset`). A case generation that finishes after a reset moves the fresh store to the briefing with both new slices (`StaleCaseAfterReset`).

## Model

| member | source | states |
|---|---|---|
| Js.TrimStart | src/caseFile.ts:326-329 | the result is a suffix of the input, everything dropped is whitespace, and the result does not begin with whitespace (what `^…\s*` consumes) |
| Js.TrimEnd | src/caseFile.ts:328-329 | the result is a prefix of the input, everything dropped is whitespace, and the result does not end with whitespace (what `\s*$` consumes) |
| Js.TrimShape | src/caseFile.ts:329 | `trim` leaves no whitespace at either end, and leaves nothing exactly when the input is all whitespace |
| Js.TrimOfTrimmed | src/caseFile.ts:329 | text already free of whitespace at both ends is left unchanged by `trim` |
| Js.FindIndex | src/useGameStore.ts:139 | the index found holds the first element satisfying the predicate; none is found exactly when no element satisfies it |
| Js.Find | src/useGameStore.ts:230 | `find` returns an element exactly when one satisfies the predicate, and then it is the first such element |
| Js.Trim | src/caseFile.ts:329 | `String.prototype.trim`, as `TrimStart` after `TrimEnd`; specified by `TrimShape` and `TrimOfTrimmed` |
| ResponseCleanup.StripClosingFenceIsRegexReplace | src/caseFile.ts:328 | removing the closing fence cuts the text at the regular expression's match (a fence followed only by whitespace) and leaves it whole when there is no match |
| ResponseCleanup.StripJsonFence | src/caseFile.ts:326 | the `/^```json\s*/i` replace; specified by `StripFencesUnwrapsJsonFence` and `UnfencedIsOnlyTrimmed` |
| ResponseCleanup.StripOpeningFence | src/caseFile.ts:327 | the `/^```\s*/i` replace; specified by `StripFencesUnwrapsPlainFence` |
| ResponseCleanup.StripClosingFence | src/caseFile.ts:328 | the `/```\s*$/i` replace; specified by `StripClosingFenceIsRegexReplace` |
| ResponseCleanup.StripFences | src/caseFile.ts:324-329 | the three fence replaces in order, then `trim`; specified by `UnfencedIsOnlyTrimmed`, `StripFencesUnwrapsPlainFence` and `StripFencesUnwrapsJsonFence` |
| ResponseCleanup.UnfencedIsOnlyTrimmed | src/caseFile.ts:324-329 | text with no fence at either end is only trimmed |
| ResponseCleanup.StripFencesUnwrapsJsonFence | src/caseFile.ts:324-329 | a body wrapped in a ```` ```json ```` fence in any letter case comes back exactly, whatever whitespace follows the tag, precedes the closing fence or follows it, provided the body has no whitespace at either end and does not itself begin with a fence |
| ResponseCleanup.StripFencesUnwrapsPlainFence | src/caseFile.ts:324-329 | a body wrapped in a plain ```` ``` ```` fence comes back exactly, whatever whitespace follows the opening fence, precedes the closing fence or follows it, provided the body has no whitespace at either end; a body beginning with `j` or `J` is covered only with some whitespace after the opening fence, since one beginning with `json` would otherwise lose those letters to the `json` replace |
| ResponseCleanup.BodyEnd | src/caseFile.ts:333 | the scan of a literal body ends past its start and within the text |
| ResponseCleanup.LiteralEnd | src/caseFile.ts:333 | the match attempted at one position ends at least two characters on and within the text; specified by `LiteralEndIsRegexMatch` |
| ResponseCleanup.EscapedQuoteDoesNotClose | src/caseFile.ts:333 | a backslash-escaped quote does not close a literal: the scan continues after the pair |
| ResponseCleanup.BodyEndSound | src/caseFile.ts:333 | text the scan accepts ends in a quote and has a body in the regular expression's grammar |
| ResponseCleanup.BodyEndComplete | src/caseFile.ts:333 | every body of the grammar followed by a quote is accepted, ending at that quote |
| ResponseCleanup.LiteralEndIsRegexMatch | src/caseFile.ts:333 | a match is found at a position exactly when a string literal starts there, and the match is unique |
| ResponseCleanup.SegmentsCoverInput | src/caseFile.ts:332-333 | the global search splits the input into stepped-over characters and literals that, joined, give back the input in order |
| ResponseCleanup.SegmentsAreLiterals | src/caseFile.ts:333 | every segment replaced by the callback is a string literal of the grammar |
| ResponseCleanup.SegmentsAreMatches | src/caseFile.ts:332-333 | each segment sits at its offset in the input: a stepped-over character where no string literal starts, and a literal segment exactly where the regular expression matches, ending where the match ends |
| ResponseCleanup.Segments | src/caseFile.ts:332-333 | the left-to-right walk of the global search; specified by `SegmentsCoverInput`, `SegmentsAreLiterals` and `SegmentsAreMatches` |
| ResponseCleanup.Sanitize | src/caseFile.ts:332-344 | the global replace of double-quoted string literals by the callback: stepped-over characters are copied, matches are rewritten; specified by the `Sanitize…` lemmas below |
| ResponseCleanup.EscapeLiteral | src/caseFile.ts:334-343 | the callback, written as the source chains it; specified by `EscapeLiteralPerChar`, `EscapeLiteralHasNoControl` and `EscapeLiteralKeepsClean` |
| ResponseCleanup.EscapeLiteralPerChar | src/caseFile.ts:335-343 | the chain of three replacements and the filter equals rewriting each character on its own: LF, CR and TAB become two-character escapes, other characters below 32 are dropped, the rest are kept |
| ResponseCleanup.EscapeLiteralHasNoControl | src/caseFile.ts:335-343 | no escaped literal contains a character below 32 |
| ResponseCleanup.SanitizeEscapesOnlyLiterals | src/caseFile.ts:332-344 | in the output, no replaced literal contains a character below 32 |
| ResponseCleanup.EscapeLiteralKeepsClean | src/caseFile.ts:335-343 | a literal without control characters is returned unchanged |
| ResponseCleanup.SanitizeKeepsCleanInput | src/caseFile.ts:332-344 | input whose literals contain no control characters is returned unchanged |
| ResponseCleanup.SanitizeKeepsPrintableText | src/caseFile.ts:332-344 | input without control characters is returned unchanged |
| ResponseCleanup.SanitizeLeavesUnquotedText | src/caseFile.ts:332-333 | characters outside literals are copied unchanged, control characters included: text without a quote comes back as it was |
| ResponseCleanup.SanitizeEscapesWholeLiteral | src/caseFile.ts:332-344 | text that is a single string literal is one match, and comes back with each character rewritten by the callback |
| ResponseCleanup.SanitizeEscapesLineFeed | src/caseFile.ts:332-335 | a raw line feed inside a literal comes back as the two-character escape `\n` |
| CaseFile.EstimatedConversationsRoundsHalfUp | src/caseFile.ts:174 | `Math.round(d / 2)` equals `(d + 1) / 2` in floor division, and twice it lies between d and d + 1 |
| CaseFile.EstimatedConversations | src/caseFile.ts:174 | `Math.round(seed.duration / 2)`; specified by `EstimatedConversationsRoundsHalfUp` and `EstimatedConversationsOverSliderRange` |
| CaseFile.EstimatedConversationsOverSliderRange | src/App.tsx:28 | over the slider's range of 5 to 60 minutes the estimate runs from 3 to 30 and never falls |
| CaseFile.TierOfRanges | src/caseFile.ts:180-192 | each value selects exactly one guide: at most 3, 4 to 6, at least 7; a higher value never selects a lower tier |
| CaseFile.TierOf | src/caseFile.ts:180-192 | the guide ladder shared by intensity and difficulty; specified by `TierOfRanges` |
| CaseFile.AvatarLines | src/caseFile.ts:176-178 | one avatar line per catalog entry, in catalog order, with its id and description |
| CaseFile.PromptFor | src/caseFile.ts:171-226 | the case-generation prompt for a given avatar catalog; specified by `PromptForContents` |
| CaseFile.BuildPrompt | src/caseFile.ts:171-226 | `buildPrompt(seed)` over the shipped catalog; specified by `BuildPromptContents` |
| CaseFile.PromptForContents | src/caseFile.ts:171-226 | the prompt carries the theme, the extra details or "none" when they are empty, the difficulty and intensity with the guides they select, the catalog in order, and the same exchange estimate in the session line and as the guilty suspect's break target |
| CaseFile.BuildPromptContents | src/caseFile.ts:171-226 | for the eight-entry catalog the game ships, the prompt has 18 blocks and carries the theme, the extra details or "none", the difficulty and intensity with their guides, all eight catalog lines in order, and the same exchange estimate in the session line and as the break target |
| CaseFile.AvatarIdsDistinct | src/caseFile.ts:28-37 | the catalog holds eight entries with distinct ids |
| CaseFile.Split | src/caseFile.ts:348-358 | the backend/player split of the parsed document; specified by `SplitTakesPartsVerbatim`, `PlayerSliceIgnoresSecrets` and `SplitPreservesWellFormedness` |
| CaseFile.SplitTakesPartsVerbatim | src/caseFile.ts:348-358 | the backend slice is storyline, suspects and clues; the player slice is profiles, report and clues; both hold the one clue list |
| CaseFile.PlayerSliceIgnoresSecrets | src/caseFile.ts:91-101 | the player slice depends only on the profiles, the report and the clues: any change to the storyline or to any suspect field leaves it unchanged |
| CaseFile.CleanResponse | src/caseFile.ts:324-344 | the text handed to the JSON parser: fences stripped, then literals sanitized; specified by the `StripFences…` and `Sanitize…` lemmas |
| CaseFile.GenerateCaseFile | src/caseFile.ts:309-361 | a case is produced exactly when the model answers and the cleaned text parses; it is the split of the parsed document, so its slices share the clue list |
| CaseFile.SplitPreservesWellFormedness | src/caseFile.ts:212-226 | a document that follows the generation rules yields a backend slice that follows them, the player sees the same `clue_` ids, and the player's profiles and the backend's suspects match one to one by name |
| CaseFile.UniqueGuiltyIsFirst | src/caseFile.ts:220 | with exactly one guilty suspect, no other suspect is guilty |
| CaseFile.BuildSuspectSystemPrompt | src/caseFile.ts:367-406 | the suspect's system prompt as blocks; specified by `SuspectPromptContents` and the lemmas below |
| CaseFile.SuspectPromptContents | src/caseFile.ts:371-405 | the prompt names the suspect and the victim, gives the suspect's details, claimed alibi and knowledge of the others, and carries the behaviour block its honesty level selects, in both directions for each of the four behaviours; the partially honest and the innocent deceptive blocks carry the interpolated secret, "null" when there is none |
| CaseFile.GuiltMattersOnlyWhenDeceptive | src/caseFile.ts:371-377 | flipping a suspect's guilt changes the prompt if and only if the suspect is deceptive |
| CaseFile.TellsLineIffLyingTells | src/caseFile.ts:379-381 | the tells line appears exactly when `lyingTells` is a non-empty string, and then carries it |
| CaseFile.SuspectPromptIgnoresHiddenFields | src/caseFile.ts:383-405 | the prompt does not depend on the true alibi, true motive, avatar, physical description or break count |
| CaseFile.SuspectPromptUsesOnlyVictimName | src/caseFile.ts:383-384 | of the case report only the victim's name reaches the prompt |
| CaseFile.SecretReachesOnlyHidingSuspects | src/caseFile.ts:371-377 | an honest suspect, and a guilty deceptive one, get the same prompt whatever secret they carry |
| GameStore.SetSeedMerges | src/useGameStore.ts:98-101 | each key present in the patch replaces that field, every other field keeps its value from the current seed or from the default seed when there is none, and nothing else changes |
| GameStore.SetSeedComposes | src/useGameStore.ts:98-101 | two updates equal one update with the later keys winning; an empty patch leaves an existing seed unchanged, and where there is no seed it installs the default seed |
| GameStore.OnSetSeed | src/useGameStore.ts:98-101 | the `setSeed` transition; specified by `SetSeedMerges` and `SetSeedComposes` |
| GameStore.StartCaseCases | src/useGameStore.ts:104-111 | a theme with a non-whitespace character enters generation and clears the error; a missing seed or a blank theme sets only the error, leaving the phase |
| GameStore.OnStartCase | src/useGameStore.ts:104-111 | the synchronous part of `startCase`; specified by `StartCaseCases` |
| GameStore.OnCaseGenerated | src/useGameStore.ts:113-122 | the end of `startCase`, given the generated case or the failure; specified by `StaleCaseAfterReset`, `StepPreservesValid` and `Store.CaseGenerated` |
| GameStore.OnProceedToInvestigation | src/useGameStore.ts:126 | the unguarded `proceedToInvestigation`; specified by `InvestigationWithoutCase` |
| GameStore.StartInterrogationCases | src/useGameStore.ts:129-164 | without both slices, or for an unknown name, nothing changes; an existing session is only made active; otherwise a session with the first matching suspect's prompt, empty history and count 0 is added and made active, and other sessions are untouched |
| GameStore.StartInterrogationIdempotent | src/useGameStore.ts:129-164 | opening the same interrogation twice is opening it once |
| GameStore.OnStartInterrogation | src/useGameStore.ts:129-164 | the `startInterrogation` transition; specified by `StartInterrogationCases` and `StartInterrogationIdempotent` |
| GameStore.SendBeginGuard | src/useGameStore.ts:167-184 | a send starts exactly when the active name is non-empty, has a session and no reply is pending in the whole store; a refused send changes nothing; an accepted one appends exactly the player's message to that session and locks input |
| GameStore.SendRoundTrip | src/useGameStore.ts:186-207 | an answered send appends the player's message and the reply to the active session, raises its count and the total by one, unlocks input, and changes nothing else |
| GameStore.SendFailureRollsBack | src/useGameStore.ts:208-222 | a failed send restores every session to its value before the send, keeps both counters, unlocks input and sets the fixed error |
| GameStore.OnSendBegin | src/useGameStore.ts:167-184 | the part of `sendMessage` before its `await`; specified by `SendBeginGuard` |
| GameStore.OnSendComplete | src/useGameStore.ts:186-222 | the part of `sendMessage` after its `await`, for the ticket kept across it; specified by `SendRoundTrip`, `SendFailureRollsBack` and `StaleReplyAfterReset` |
| GameStore.StaleReplyAfterReset | src/useGameStore.ts:196-207 | a reply arriving after a reset re-inserts its session into the reset store and sets the total to 1 |
| GameStore.StaleCaseAfterReset | src/useGameStore.ts:114-115 | a generation finishing after a reset moves the reset store to the briefing with both new slices, no active suspect and no sessions |
| GameStore.VerdictNamesFirstGuilty | src/useGameStore.ts:230-240 | the killer reported is the first guilty suspect and the accusation is correct exactly when it names that suspect; with no guilty suspect the killer is "Unknown" and no accusation, "Unknown" included, is correct; the explanation is the true sequence of events |
| GameStore.VerdictOnWellFormedCase | src/useGameStore.ts:230-231 | on a case that follows the generation rules, the reported killer is the storyline's murderer and the accusation is correct exactly when it names the murderer |
| GameStore.Verdict | src/useGameStore.ts:230-240 | the accusation result computed from the backend slice; specified by `VerdictNamesFirstGuilty` and `VerdictOnWellFormedCase` |
| GameStore.OnMakeAccusation | src/useGameStore.ts:226-242 | the `makeAccusation` transition; specified by `AccusationIgnoresPhase` |
| GameStore.AccusationIgnoresPhase | src/useGameStore.ts:226-242 | without a backend slice nothing changes; with one the case resolves with the verdict, whatever the phase |
| GameStore.ResetForgetsEverything | src/useGameStore.ts:245-257 | a reset gives the same store whatever came before, so resetting twice is resetting once; the seed is the default and no case or session remains |
| GameStore.OnResetGame | src/useGameStore.ts:245-257 | the `resetGame` transition; specified by `ResetForgetsEverything` |
| GameStore.ActiveHistory | src/useGameStore.ts:265-270 | for a non-empty active name that has a session, the history is that session's history; otherwise it is empty |
| GameStore.ActiveSuspectProfile | src/useGameStore.ts:276-282 | a profile is returned exactly when the active name is non-empty, the player slice is loaded and a profile has that name, and then it is the first profile with that name |
| GameStore.InterrogatedSuspectHasProfile | src/useGameStore.ts:129-164 | on a case that follows the generation rules, opening the interrogation of any suspect the backend knows makes that suspect active and shows a profile with that name |
| GameStore.SelectorsIgnoreBackend | src/useGameStore.ts:264-282 | neither selector reads the backend slice |
| GameStore.ActiveHistoryAfterRoundTrip | src/useGameStore.ts:196-207 | after an answered send, the active history is the previous one plus the player's message and the reply |
| GameStore.RepliesAppend | src/useGameStore.ts:204 | the number of suspect replies grows by one exactly when a reply is appended |
| GameStore.GeneratedFilesValid | src/caseFile.ts:348-358 | every case the generator produces shares one clue list between its slices |
| GameStore.BeginTicketValid | src/useGameStore.ts:171-172 | the ticket a send keeps names its session's key and holds a player message |
| GameStore.StepPreservesValid | src/useGameStore.ts:98-257 | every action keeps the store invariant: slices loaded together with a shared clue list, and each session stored under its suspect's name with a count equal to its replies |
| GameStore.RunPreservesValid | src/useGameStore.ts:86-257 | along any sequence of actions from a valid store the invariant holds, so the backend and player slices are never out of step |
| GameStore.AccusationPhaseUnreachable | src/useGameStore.ts:34-40 | no sequence of actions enters the accusation phase |
| GameStore.StepKeepsTotal | src/useGameStore.ts:196-198 | outside a reset the total exchange count never falls, and it rises exactly on an answered send |
| GameStore.InvestigationWithoutCase | src/useGameStore.ts:126 | with no phase guard, the investigation phase is reachable from a fresh store with no case loaded |
| GameStore.Store.constructor | src/useGameStore.ts:85-95 | the initial store: setup, a copy of the default seed, no slices, no sessions, count 0, no error, not responding |
| GameStore.Store.SetSeed | src/useGameStore.ts:98-101 | performs the seed merge on the store and keeps the invariant |
| GameStore.Store.StartCase | src/useGameStore.ts:104-111 | performs the synchronous part of `startCase` |
| GameStore.Store.CaseGenerated | src/useGameStore.ts:113-122 | stores both slices and enters the briefing, or records the failure and returns to setup |
| GameStore.Store.ProceedToInvestigation | src/useGameStore.ts:126 | sets the investigation phase |
| GameStore.Store.StartInterrogation | src/useGameStore.ts:129-164 | opens or resumes an interrogation, as `StartInterrogationCases` states |
| GameStore.Store.SendBegin | src/useGameStore.ts:167-184 | applies the guard and the optimistic update, returning the ticket kept across the await |
| GameStore.Store.SendComplete | src/useGameStore.ts:186-222 | settles a send with its reply or its failure, for whatever ticket it is given |
| GameStore.Store.MakeAccusation | src/useGameStore.ts:226-242 | resolves the case with the verdict when a backend slice is held |
| GameStore.Store.ResetGame | src/useGameStore.ts:245-257 | returns every field to its initial value |
| Notes.InitialSuspectNotes | src/NotesPage.tsx:37-44 | one blank, neutral note per profile, in profile order, with its name and avatar |
| Notes.InitialActiveSuspect | src/NotesPage.tsx:50 | the first profile's name, or the empty string without profiles |
| Notes.UpdateSuspectNoteMerges | src/NotesPage.tsx:53-57 | the list keeps its length; every note of the named suspect gets the given fields merged in, and every other note is unchanged |
| Notes.UpdateSuspectNoteIdempotent | src/NotesPage.tsx:53-57 | repeating an update that does not rename the note changes nothing more |
| Notes.UpdateSuspectNote | src/NotesPage.tsx:53-57 | the `updateSuspectNote` handler; specified by `UpdateSuspectNoteMerges` and `UpdateSuspectNoteIdempotent` |
| Notes.ActiveSuspectNote | src/NotesPage.tsx:78 | a note is found exactly when one belongs to the active suspect, and then it is the first such note |
| Notes.FreshNotebookShowsFirstSuspect | src/NotesPage.tsx:37-50 | on a fresh notebook the active note is the first profile's blank note |
| Notes.AddCaseNoteCases | src/NotesPage.tsx:59-66 | blank input changes nothing; other input prepends one unpinned note holding the trimmed text, keeps the old list after it, and empties the input |
| Notes.AddCaseNote | src/NotesPage.tsx:59-66 | the `addCaseNote` handler, giving the new list and the new input; specified by `AddCaseNoteCases` |
| Notes.TogglePinFlipsOnlyThatId | src/NotesPage.tsx:68-72 | only the notes with that id flip their pin, every other note is unchanged, and toggling twice restores the list |
| Notes.TogglePin | src/NotesPage.tsx:68-72 | the `togglePin` handler; the list keeps its length; specified by `TogglePinFlipsOnlyThatId` |
| Notes.DeleteNoteRemovesExactlyThatId | src/NotesPage.tsx:74-76 | no note with that id remains and every other note occurs as often as before |
| Notes.DeleteNoteDistributes | src/NotesPage.tsx:74-76 | survivors keep their order: deleting from joined lists is joining the deletions |
| Notes.DeleteNote | src/NotesPage.tsx:74-76 | the `deleteNote` handler; the list never grows; specified by `DeleteNoteRemovesExactlyThatId` and `DeleteNoteDistributes` |
| Notes.SortedCaseNotesIsPermutation | src/NotesPage.tsx:79-81 | the listing holds exactly the notes of the list, each as often |
| Notes.SortedCaseNotesPinnedFirst | src/NotesPage.tsx:79-81 | every pinned note comes before every unpinned one |
| Notes.SortedCaseNotesIsStableSort | src/NotesPage.tsx:79-81 | the listing equals a stable insertion sort by the page's comparator: pinned notes in their order, then unpinned notes in theirs |
| Notes.SortedCaseNotes | src/NotesPage.tsx:79-81 | the pinned-first listing; specified by `SortedCaseNotesIsPermutation`, `SortedCaseNotesPinnedFirst` and `SortedCaseNotesIsStableSort` |

## Left out

- The Gemini SDK, the model calls and their configuration are not modelled. A model reply is a parameter: `Option<string>` for the case generation and `ChatOutcome` for a chat turn. The chat object is known only by the system prompt it was opened with. The SDK's own conversation history, which it sends with each turn, is not modelled.
- `JSON.parse`, together with its reading of the parsed value as a case file, is the parameter `parse` of `GenerateCaseFile`. The model stops at the cleaned string that is handed to it.
- `Date.now()` and the formatted time are parameters: message timestamps, case-note ids and note stamps.
- `console.error` is not modelled.
- The wording of both prompt templates is not modelled. Each passage is a block. Nothing is proved about the prose, including the final `trim` of the prompt text, which only affects the fixed passages at its ends.
- `usePlayerData` is not modelled as a separate member: it returns the player slice field itself.
- Numbers are modelled as integers. Fractional, NaN or infinite seeds, ages, counts or ids are not modelled.
- Strings are sequences of characters. UTF-16 surrogate pairs are not distinguished. Only code points below 32 and the whitespace set matter to the cleanup, and on those code units and code points agree.
- The sessions record is a map. Prototype keys such as `constructor`, which a plain object would report as present, are not modelled.
- An explicitly `undefined` key in a partial seed or note patch is not modelled: an absent key is `None`, and a present key always carries a value.
- An `honestyLevel` outside the three names the type allows is not modelled. In the code it would yield `undefined` as the behaviour block.
- Interpolating a missing secret writes "null", as the code does for `null`. A value that is `undefined` would write "undefined", and that case is not modelled.
- React state plumbing, JSX and rendering are not modelled: the notes page's JSX, the case report screen, the desk, the gallery, the HTTP relay and the fetch wrappers. The slider bounds serve only for `EstimatedConversationsOverSliderRange`.
- `WellFormedCase`: the code never checks the generation rules. The predicate serves only as a hypothesis, and no member claims it is enforced.
