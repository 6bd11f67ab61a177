# MoodLens in Dafny

MoodLens watches a user's face through the camera and labels each detection with one of seven emotions. It keeps a log of the session's samples and shows statistics, a mood history and a session clock. It asks a language model for wellness recommendations, falling back to a fixed table, and it guides a breathing exercise. An Express server stores the samples in memory and answers the recommendation and companion requests.

This project models the logic under that interface and proves what it promises:

| file | module | what it models |
|---|---|---|
| `schema.dfy` | `Schema` | the seven labels, entries, inserts, sessions, recommendations and the recommendation request, with the validity the zod schemas enforce and parsers from untyped fields |
| `history.dfy` | `History` | the mood-history fold of samples into episodes, the "emotion flow" and the episode-length formatter |
| `stats.dfy` | `EmotionStats` | the dashboard statistics (counts, dominant label, mean confidence, last-ten window), the `m:ss` session clock and the distribution bars |
| `dashboard.dfy` | `DashboardPage` | the page's session state as a class: detect, toggle, the last-20 label window and the debounced sync |
| `storage.dfy` | `Storage` | the in-memory store as a class over two JavaScript Maps, with their key order |
| `gateway.dfy` | `Gateway` | the fallback table, the choice between it and a generated answer, JSON extraction, item normalisation, the prompt values and the companion message |
| `routes.dfy` | `Routes` | the decisions of the HTTP handlers, with POST `/api/emotions` as a method over the store |
| `breathing.dfy` | `Breathing` | the breathing exercise's phase and cycle machine, its component class and the orb's scale and opacity |
| `header.dfy` | `Header` | the header's `h:mm:ss` / `m:ss` session clock |
| `monitor.dfy` | `Monitor` | the arg-max over the detector's expression scores, the 0.3 emit threshold and the monitor component's state |
| `recommendations_view.dfy` | `RecommendationsView` | the client panel's query enablement, query key, displayed list, rendering branch and breathing action |
| `text.dfy` | `Text` | JavaScript's decimal rendering, `parseInt`, truncating `%`, `padStart`, `split`/`join` and `trim`, each with an inverse or a reference definition |
| `util.dfy` | `Util` | sequence helpers: `slice`, `reverse`, de-duplication in first-seen order and a stable sort |

Some parts of the program have fixed behaviour worth knowing; the model keeps each of them as the code has it.

- **Dominant-label tie-break.** The dominant label is a running maximum seeded with `neutral` that is replaced only by a strictly greater count. So `neutral` wins every tie it is part of, and otherwise the earliest tied label in schema order wins.
- **Greedy JSON extraction.** The model's reply is cut from the first `{` to the last `}`, not at a balanced brace. Two objects separated by text are taken together with the text between them.
- **Generated kinds are not checked.** A generated item's `type` is copied unchecked, so an unknown kind passes through the server to the client. There the recommendation panel looks the kind up in its colour table, which holds only the five allowed kinds, and splits the missing entry, so the panel's render throws.
- **An empty generated list is kept.** An empty generated array is returned as it is and does not trigger the fallback.
- **The breathing exercise ends early.** It starts in `rest`, so the first wrap into `inhale` already counts as a cycle. The exercise therefore ends after 13 phases, that is after three full breaths, while the display promises four cycles.
- **Start time 0 is idle.** A start time of 0 is falsy in JavaScript, so both clocks and the sync treat it like a missing one.
- **The statistics clock stands still.** The statistics panel's session clock is memoised on the start time alone, so it reads the clock only in the render after a start or stop and shows "0:00" for the whole session, while the header's clock ticks every second. The model keeps that text as a field of the page and recomputes it only when the start time changes.
- **One fallback table.** The client's fallback table is identical to the server's, so one definition serves both.

Clocks, UUIDs, the language model, `JSON.parse` and the face detector are parameters of the functions that use them. Confidences, averages, priorities and orb values are `real`.

## Model

| member | source | states |
|---|---|---|
| Util.LastN | client/src/pages/Dashboard.tsx:43 | `slice(-n)` keeps the last min(n, length) elements, which end the input in order |
| Util.Take | client/src/components/MoodHistory.tsx:104 | `slice(0, n)` keeps the first min(n, length) elements, which begin the input |
| Util.Reverse | client/src/components/MoodHistory.tsx:80 | element i of the result is element length-1-i of the input |
| Util.Dedup | client/src/components/MoodHistory.tsx:102 | `[...new Set(s)]` has no repeats and holds exactly the elements of the input |
| Util.DedupFirstSeenOrder | client/src/components/MoodHistory.tsx:102 | the de-duplicated elements appear in the order of their first occurrence in the input |
| Util.SortBy | client/src/components/MoodHistory.tsx:48 | the sort yields a permutation of the input that is ordered by the key |
| Util.SortByStable | client/src/components/MoodHistory.tsx:48 | the sort is stable: elements with equal keys keep their relative order |
| Text.NatToString | client/src/components/EmotionDashboard.tsx:84 | a natural number renders as a non-empty digit string whose decimal value is the number, with no leading zero |
| Text.NatToStringInjective | server/gemini.ts:187 | different numbers render as different strings |
| Text.IntToString | client/src/components/Header.tsx:36 | `String(i)` is the digits of the absolute value of i, preceded by `-` for a negative i |
| Text.JsRem | client/src/components/Header.tsx:31-32 | JavaScript's `%` with a positive divisor: the result lies in [0, b) for a ≥ 0 and in (-b, 0] for a < 0 |
| Text.JsDivision | client/src/components/Header.tsx:31-32 | the truncating quotient and `%` recompose the dividend |
| Text.Pad2 | client/src/components/Header.tsx:36 | `padStart(2, "0")` leaves a string of two or more characters unchanged and left-pads a shorter one with zeros to length two |
| Text.Pad2Digits | client/src/components/Header.tsx:36-39 | a value below 100 pads to exactly two digits with the same decimal value |
| Text.Split | server/routes.ts:59-60 | `split(c)` yields at least one piece, and no piece contains the separator |
| Util.FirstIndex | server/gemini.ts:181 | the index of the first occurrence of the element (`indexOf`), or the length when it does not occur |
| Text.JoinSplit | server/routes.ts:59-60 | joining the pieces of a split with the separator gives the string back |
| Text.SplitJoin | server/routes.ts:59-60 | splitting a join of separator-free pieces gives the pieces back |
| Text.TrimStart | server/gemini.ts:227 | removes exactly the leading white space, so the result is a suffix that starts with a non-space |
| Text.TrimEnd | server/gemini.ts:227 | removes exactly the trailing white space, so the result is a prefix that ends with a non-space |
| Text.Trim | server/gemini.ts:227 | the result is the middle of the string with only white space cut on either side, and it neither starts nor ends with white space |
| Text.TrimIdempotent | server/gemini.ts:227 | trimming twice is trimming once |
| Text.DigitPrefixLength | server/routes.ts:63 | the length of the leading run of decimal digits, which is followed by a non-digit or the end |
| Text.ParseIntRoundTrip | server/routes.ts:63 | `parseInt(String(i))` is i for every integer i |
| Text.ParseIntUnsigned | server/routes.ts:63 | a digit string parses to its decimal value |
| Text.ParseIntSigned | server/routes.ts:63 | a minus sign before digits that parse to v gives -v |
| Text.ClockSecondsMinutes | client/src/components/EmotionDashboard.tsx:84 | an `m:ss` text with ss below 60 reads back as m·60 + ss seconds |
| Text.ClockSecondsHours | client/src/components/Header.tsx:36 | an `h:mm:ss` text with mm and ss below 60 reads back as h·3600 + mm·60 + ss seconds |
| Schema.ParseLabel | shared/schema.ts:3 | a string is accepted only as the label it names |
| Schema.ParseLabelName | shared/schema.ts:3 | every label's name is accepted as that label |
| Schema.LabelsComplete | shared/schema.ts:3 | the label list holds every label, seven in all, each once |
| Schema.NameHasNoSeparator | shared/schema.ts:3 | no label name is empty or contains a comma or a colon |
| Schema.WithId | server/storage.ts:24-25 | `{...emotion, id}` carries the given id, drops back to the insert it came from, and is valid exactly when the insert is |
| Schema.ParseInsert | shared/schema.ts:6-15 | an insert is accepted exactly when its label is one of the seven, its confidence lies in [0, 1] and its timestamp is present, and then its fields are kept |
| Schema.ParseInsertRoundTrip | shared/schema.ts:15 | every valid insert survives the trip through its JSON form |
| Schema.ParseRecommendationRequest | shared/schema.ts:40-44 | a request is accepted exactly when the current and every recent value are labels and the duration is present, and the labels are kept in order |
| Schema.ParseLabels | shared/schema.ts:42 | a list is accepted exactly when every element is a label, and then it keeps them in order |
| Schema.LabelsOf | client/src/pages/Dashboard.tsx:43 | `map(e => e.emotion)` keeps length and order |
| Schema.NamesOf | client/src/components/WellnessRecommendations.tsx:175 | each label becomes its name, with length and order kept |
| Schema.SumConfidenceBounds | client/src/components/EmotionDashboard.tsx:55-60 | the confidence total of valid entries lies between 0 and the number of entries |
| History.SortByTimestamp | client/src/components/MoodHistory.tsx:48 | the sorted copy is a permutation of the samples in ascending timestamp order |
| History.SegmentTimeline | client/src/components/MoodHistory.tsx:42-81 | the loop over the sorted copy (open an episode, extend it or push it, push the last, reverse) computes the timeline function |
| History.RunsAreRuns | client/src/components/MoodHistory.tsx:51-55 | the reference partition splits the samples into runs in which no step crosses a boundary (a label change or a gap over 5000 ms) |
| History.RunsFlatten | client/src/components/MoodHistory.tsx:50-78 | the runs, concatenated, are the samples |
| History.RunsMaximal | client/src/components/MoodHistory.tsx:51-55 | consecutive runs are separated by a boundary, so no run could be merged with the next |
| History.Summaries | client/src/components/MoodHistory.tsx:59-72 | one episode summary per run, in run order |
| History.ChronicleIsSummaries | client/src/components/MoodHistory.tsx:50-78 | the fold's episodes are exactly the summaries of the maximal runs, each with the first sample's id and start, the last sample's end, the run's size and its exact mean confidence |
| History.ExtendSummary | client/src/components/MoodHistory.tsx:67-72 | extending an episode with a sample gives the summary of the run with that sample appended |
| History.MeanStepOfSum | client/src/components/MoodHistory.tsx:70-72 | the incremental average update turns the mean of n values into the mean of n + 1 |
| History.ChronicleCounts | client/src/components/MoodHistory.tsx:50-78 | every episode has count ≥ 1, and the counts add up to the number of samples |
| History.SumCountsReverse | client/src/components/MoodHistory.tsx:80 | reversing the episodes keeps the count total |
| History.ChronicleSpaced | client/src/components/MoodHistory.tsx:51-55 | adjacent episodes with the same label are more than 5000 ms apart |
| History.ChronicleChronological | client/src/components/MoodHistory.tsx:48-78 | over sorted samples each episode starts no earlier than the previous one ends, and the last one ends at the last sample |
| History.ChronicleAverages | client/src/components/MoodHistory.tsx:69-72 | with confidences in [0, 1], every running average lies in [0, 1] |
| History.MeanStepBounds | client/src/components/MoodHistory.tsx:70-72 | one average update keeps the average in [0, 1] |
| History.TimelineShape | client/src/components/MoodHistory.tsx:42-81 | the timeline is empty exactly for no samples, counts sum to the number of samples, each episode has count ≥ 1 and start ≤ end, the list is newest first, and adjacent same-label episodes are more than 5000 ms apart |
| History.TimelineAverages | client/src/components/MoodHistory.tsx:42-81 | with valid samples, every episode's average confidence lies in [0, 1] |
| History.EmotionFlowShape | client/src/components/MoodHistory.tsx:98-105 | the flow is absent exactly for fewer than two samples; otherwise it lists at most five distinct labels of the last 50 samples in first-seen order, missing a label of that window only when five are listed, and listing every label that first occurs before a listed one, so it is the first five to appear |
| History.FirstDistinct | client/src/components/MoodHistory.tsx:102-104 | `[...new Set(w)].slice(0, n)` lists distinct elements of the window in first-seen order, misses one only when n are listed, and is closed under earlier first occurrence, so it holds exactly the first n distinct elements |
| History.FormatDurationRoundTrip | client/src/components/MoodHistory.tsx:91-96 | the text is `Ns` below a minute and `Mm Ss` from a minute on (`DurationText`), and it reads back as the whole seconds between start and end under a reader that accepts `Ns` only below 60 |
| EmotionStats.CountMap | client/src/components/EmotionDashboard.tsx:45-60 | the counts hold every label, zero-filled, each with its number of occurrences |
| EmotionStats.CountsSum | client/src/components/EmotionDashboard.tsx:57-60 | the counts add up to the number of samples |
| EmotionStats.DominantMaximal | client/src/components/EmotionDashboard.tsx:62-66 | the reduce ends on a label whose count is at least the seed's and every visited label's |
| EmotionStats.DominantTieBreak | client/src/components/EmotionDashboard.tsx:62-66 | the reduce leaves the seed only for a strictly greater count, and then for the first such label |
| EmotionStats.DominantLabelSpec | client/src/components/EmotionDashboard.tsx:62-66 | the dominant label has a maximal count; `neutral` wins any tie it is in; otherwise every label before the winner in schema order has a smaller count |
| EmotionStats.DominantExample | client/src/components/EmotionDashboard.tsx:62-66 | with happy and sad tied at 3 and neutral at 2, happy is dominant |
| EmotionStats.ComputeStats | client/src/components/EmotionDashboard.tsx:34-77 | the counting loop computes the stats function |
| EmotionStats.StatsShape | client/src/components/EmotionDashboard.tsx:35-76 | no samples give no dominant label, empty counts, average 0, no recent entries and total 0; otherwise the counts are exact and sum to the total, which is the number of samples; the recent entries are the last min(10, n), newest first |
| EmotionStats.NewestWindow | client/src/components/EmotionDashboard.tsx:68 | `slice(-10).reverse()` is the last min(10, n) samples, newest first |
| EmotionStats.AverageInRange | client/src/components/EmotionDashboard.tsx:73 | with valid samples the mean confidence lies in [0, 1] |
| EmotionStats.SessionDurationRoundTrip | client/src/components/EmotionDashboard.tsx:79-85 | from a start in the past, the memo body's text reads back as the whole seconds elapsed at the instant the memo reads the clock (which is only when the start time changes; see DashboardClockAtStart) |
| EmotionStats.DashboardClockAtStart | client/src/components/EmotionDashboard.tsx:79-85 | the memo evaluated within a second of the start reads "0:00"; as it depends on the start time only, this is the text the dashboard keeps showing for the whole session |
| EmotionStats.SessionDurationText | client/src/components/EmotionDashboard.tsx:79-85 | with a truthy start, the clock is minutes and padded seconds of the elapsed whole seconds |
| EmotionStats.MinutesTextRoundTrip | client/src/components/EmotionDashboard.tsx:82-84 | `m:ss` of a non-negative number of seconds reads back as that number |
| EmotionStats.MaxOver | client/src/components/EmotionDashboard.tsx:87 | the maximum is at least 1, bounds every listed count, and is 1 or one of those counts |
| EmotionStats.MaxCountBounds | client/src/components/EmotionDashboard.tsx:87 | `Math.max(...counts, 1)` bounds every label's count and is 1 or a label's count |
| EmotionStats.BarPercentageRange | client/src/components/EmotionDashboard.tsx:173 | every bar lies in [0, 100], the largest count's bar is 100, and an unseen label's bar is 0 |
| DashboardPage.ScheduledSyncSpec | client/src/pages/Dashboard.tsx:45-56 | a sync is scheduled exactly when the log is non-empty and the start time is truthy; it carries the last min(5, n) samples in order, under an id that parses back to the start time |
| DashboardPage.RecentLabelsSpec | client/src/pages/Dashboard.tsx:43 | the window holds the labels of the last min(20, n) samples, in arrival order |
| DashboardPage.Dashboard.constructor | client/src/pages/Dashboard.tsx:15-18 | the page starts idle, with an empty log, no start time, no current label, no pending sync and the statistics clock at "0:00" |
| DashboardPage.Dashboard.OnEmotionDetected | client/src/pages/Dashboard.tsx:21-24 | the sample is appended after the unchanged log, its label becomes current, the pending sync is rescheduled for the new state, and the statistics clock keeps its text (its memo does not depend on the log) |
| DashboardPage.Dashboard.OnToggleMonitoring | client/src/pages/Dashboard.tsx:26-37 | starting records `now` and clears the log and the current label; stopping drops the start time and keeps the log and label; either way the flag flips, nothing is pending and the statistics clock is recomputed at the following render, reading "0:00" after a stop and after a start rendered within the second (client/src/components/EmotionDashboard.tsx:79-85) |
| DashboardPage.Dashboard.OnSyncTimer | client/src/pages/Dashboard.tsx:45-64 | the timer sends the pending request, only the latest one, and changes nothing else, the statistics clock included |
| DashboardPage.Dashboard.ToggleTwice | client/src/pages/Dashboard.tsx:26-37 | two toggles restore the monitoring flag and leave the statistics clock at "0:00" |
| Storage.SetKey | server/storage.ts:29 | `Map.set` appends a new key to the key order and keeps an existing key in its place |
| Storage.SetKeyListsKeys | server/storage.ts:29 | after a set, the key order still lists the Map's keys, each once |
| Storage.LookupAfterAppend | server/storage.ts:27-29 | the session's list gains the entry at its end, and every other list is unchanged |
| Storage.AllEntriesAfterAppend | server/storage.ts:23-32 | appending an entry adds exactly that entry to the entries gathered over all sessions |
| Storage.ValuesInOrder | server/storage.ts:62 | `Array.from(values())` lists the value of each key, in key order |
| Storage.MergeSpec | server/storage.ts:56 | for each of the six fields, the spread takes the patch's value where the patch has the key and the session's otherwise, and an empty patch changes nothing |
| Storage.MergeIdempotent | server/storage.ts:56 | applying the same patch twice is applying it once |
| Storage.MergeThen | server/storage.ts:56 | two patches in a row equal their combined patch |
| Storage.SliceTo | server/storage.ts:72 | `slice(0, limit)` is a prefix of length min(limit, n), or n + limit for a negative limit (never below 0) |
| Storage.RecentEmotionsSpec | server/storage.ts:65-73 | the recent entries are drawn from the stored ones, newest first; there are min(limit, n) of them; none left out is newer than one kept |
| Storage.MemStorage.constructor | server/storage.ts:18-21 | the store starts with both Maps empty |
| Storage.MemStorage.CreateEmotionEntry | server/storage.ts:23-32 | `{...emotion, id}` is appended to its session's list, which is created if absent; other lists are unchanged; the gathered entries grow by exactly it; sessions are untouched |
| Storage.MemStorage.GetEmotionsBySession | server/storage.ts:34-36 | a stored session's list, or the empty list for an unknown id |
| Storage.MemStorage.CreateSession | server/storage.ts:38-46 | stores `{id, startTime: now, emotions: []}`, replacing any session with that id, and leaves the entries as they were |
| Storage.MemStorage.GetSession | server/storage.ts:48-50 | the stored session exactly when the id is stored |
| Storage.MemStorage.UpdateSession | server/storage.ts:52-59 | an unknown id gives nothing and changes nothing; otherwise the stored session becomes the old one merged with the updates, and every other session and all entries are unchanged |
| Storage.MemStorage.GetAllSessions | server/storage.ts:61-63 | one session per stored key, in key order, and every stored session appears |
| Storage.MemStorage.GetRecentEmotions | server/storage.ts:65-73 | the loop gathers every list in key order, then sorts newest first and keeps `limit`, as the recent-entries function says |
| Gateway.FallbackIdsSpelled | server/gemini.ts:9-133 | the table's ids are "1" to "14", two per label in schema order |
| Gateway.FallbackShape | server/gemini.ts:9-133 | each label's fallback has two valid recommendations, with priorities 1 and 2 |
| Gateway.FallbackKindValid | server/gemini.ts:9-133 | every fallback kind is one of the five allowed kinds |
| Gateway.FallbackIdsDistinct | server/gemini.ts:9-133 | the fourteen fallback ids are pairwise distinct |
| Gateway.LastIndexOf | server/gemini.ts:181 | the index of the last occurrence of the character, or the length when it does not occur |
| Gateway.ExtractJsonSpec | server/gemini.ts:181-182 | when some `{` precedes some `}`, the extracted text runs from the first `{` to the last `}`; otherwise the whole content is used |
| Gateway.ExtractJsonGreedy | server/gemini.ts:181-182 | two objects with text between them are extracted together with that text |
| Gateway.AiIdFields | server/gemini.ts:187 | `ai-<now>-<index>` splits back at its dashes into the prefix, the clock reading and the index |
| Gateway.AiIdDistinct | server/gemini.ts:187 | items at different positions get different ids, whatever the clock reads |
| Gateway.Normalise | server/gemini.ts:185-194 | the `.map` over the generated items; what it promises (pairwise distinct ids, kinds copied, the priority default) is stated by `Gateway.NormaliseSpec` |
| Gateway.NormaliseSpec | server/gemini.ts:185-194 | the ids are pairwise distinct, each type is the item's, and a missing or zero priority becomes the position plus one |
| Gateway.KindUnchecked | server/gemini.ts:188 | an item of an unknown kind passes into a recommendation the schema rejects |
| Gateway.Prompt | server/gemini.ts:147 | the minutes are `Math.floor(sessionDuration / 60000)` |
| Gateway.SplitCommaSpace | server/gemini.ts:146 | splitting `join(", ")` at commas gives the first name and each later name with one leading space |
| Gateway.PromptPattern | server/gemini.ts:146 | the prompt's emotion pattern splits back, after trimming, into the recent labels in order |
| Gateway.DecideSpec | server/gemini.ts:140-200 | a generated list is returned exactly when there is a key and the reply is non-empty and parses to an array of readable items; every other outcome falls back; the generated list is the normalised items |
| Gateway.NoKeyIgnoresModel | server/gemini.ts:140-143 | without a key, the answer is the fallback whatever the model would say |
| Gateway.EmptyListIsKept | server/gemini.ts:176-196 | the reply `{"recommendations":[]}`, parsed to an empty list, gives an empty list, not the fallback |
| Gateway.CompanionOutcomeSpec | server/gemini.ts:203-231 | the no-key message exactly without a key, the error message exactly when the call throws or gives empty text, the model's words otherwise |
| Gateway.CompanionSpokenSpec | server/gemini.ts:227 | the spoken answer is trimmed, no longer than the reply, and empty exactly when the reply is all white space |
| Gateway.TrimBlank | server/gemini.ts:227 | a string trims to nothing exactly when it is all white space |
| Routes.ParseInserts | server/routes.ts:16-21 | the array is accepted exactly when every record parses, and then it keeps them in order |
| Routes.ParseEmotionsBody | server/routes.ts:16-21 | the body is accepted exactly when both fields are present and every record parses, with the session id and records kept |
| Routes.ParseEmotionsBodyRoundTrip | server/routes.ts:16-21 | a body built from valid inserts is accepted as it was built |
| Routes.Stored | server/routes.ts:28-30 | one stored entry per insert, each with its fresh id and its insert's fields |
| Routes.PostEmotions | server/routes.ts:14-37 | an invalid body answers 400 and leaves the store unchanged; a valid one creates the session only if absent, appends every insert to that session's list in order, touches no other list, and answers with the number of inserts |
| Routes.AppendAll | server/routes.ts:28-30 | the inserts are appended to the session's list in body order, and nothing else changes |
| Routes.CurrentFromQuery | server/routes.ts:52-57 | a missing or empty value is `neutral`; any other value is accepted exactly when it is a label, and then as that label |
| Routes.KeepLabels | server/routes.ts:59-61 | the filter keeps no more pieces than it is given |
| Routes.KeepLabelsAppend | server/routes.ts:59-61 | filtering a concatenation filters each part |
| Routes.RecentFromQueryRoundTrip | server/routes.ts:59-61 | labels joined with commas come back as the same list, and a missing value gives none |
| Routes.KeepNames | server/routes.ts:59-61 | filtering a list of label names gives back the labels |
| Routes.DurationFromQuery | server/routes.ts:63 | a missing value or one without a leading number is 0 |
| Routes.DurationFromQueryRoundTrip | server/routes.ts:63 | every integer written in decimal is read back |
| Routes.GetRecommendations | server/routes.ts:50-76 | 400 exactly for a present, non-empty value that is not a label |
| Routes.GetRecommendationsSpec | server/routes.ts:52-69 | a named label, or `neutral` for a missing or empty one, is passed to the recommender with the parsed recent labels and duration |
| Routes.GetSessionWithEmotions | server/routes.ts:88-101 | 404 exactly for an unknown id; otherwise the stored session with `emotions` replaced by its entry list |
| Routes.CompanionInput | server/routes.ts:109-111 | the text is accepted exactly when present with length 1 to 200, and is kept as it is |
| Routes.PostCompanion | server/routes.ts:107-120 | 400 exactly when the input fails the schema |
| Routes.PostCompanionAnswers | server/routes.ts:113-115 | a valid request is answered with the companion's message for its text |
| Breathing.PhaseDuration | client/src/components/BreathingExercise.tsx:13-18 | every phase lasts a positive time |
| Breathing.PhaseIndex | client/src/components/BreathingExercise.tsx:20 | the index at which the phase sits in the sequence |
| Breathing.NextCycle | client/src/components/BreathingExercise.tsx:49-51 | the successor order is one cycle of four through every phase, and only `rest` wraps to `inhale` |
| Breathing.Progress | client/src/components/BreathingExercise.tsx:44-45 | `min(elapsed / duration, 1)` lies in [0, 1], is 1 exactly when the phase's time is up, and is the exact ratio before then |
| Breathing.StepSpec | client/src/components/BreathingExercise.tsx:43-68 | before time is up only progress moves; then the next phase starts at 0; the counter moves only on the wrap from rest; the exercise completes and resets exactly when that wrap reaches the target; every tick keeps the state valid; an inactive exercise does not move |
| Breathing.OneBreath | client/src/components/BreathingExercise.tsx:48-64 | one full breath from an inhale counts one cycle |
| Breathing.CompletesAfterThreeBreaths | client/src/components/BreathingExercise.tsx:23-64 | from the initial state, the exercise is still running after 12 phases and completes and resets on the 13th |
| Breathing.OpeningRest | client/src/components/BreathingExercise.tsx:53-60 | the opening `rest` ends in the first counted cycle |
| Breathing.FinalWrap | client/src/components/BreathingExercise.tsx:53-58 | the wrap that would count the fourth cycle fires completion and resets |
| Breathing.RunPhasesInactive | client/src/components/BreathingExercise.tsx:37 | an inactive exercise stays put |
| Breathing.OrbScale | client/src/components/BreathingExercise.tsx:77-92 | for progress in [0, 1] the scale lies in [1, 1.5], and it is 1 when inactive |
| Breathing.OrbOpacity | client/src/components/BreathingExercise.tsx:94-109 | for progress in [0, 1] the opacity lies in [0.4, 0.8], and it is 0.4 when inactive |
| Breathing.OpacityFollowsScale | client/src/components/BreathingExercise.tsx:77-109 | opacity is an affine function of scale in every state |
| Breathing.OrbContinuous | client/src/components/BreathingExercise.tsx:77-92 | the scale at a phase's end equals the scale at the next phase's start |
| Breathing.BreathingExercise.constructor | client/src/components/BreathingExercise.tsx:23-27 | the component starts in the initial state |
| Breathing.BreathingExercise.Reset | client/src/components/BreathingExercise.tsx:29-34 | reset returns to the initial state |
| Breathing.BreathingExercise.Toggle | client/src/components/BreathingExercise.tsx:184 | the play/pause button flips only the active flag |
| Breathing.BreathingExercise.UpdateProgress | client/src/components/BreathingExercise.tsx:43-68 | the field updates are the tick function's new state, and completion is reported as it says |
| Header.Decompose | client/src/components/Header.tsx:29-32 | for a non-negative duration, hours·3600 + minutes·60 + secs is the duration with minutes and secs below 60; hours is positive exactly from 3600 s |
| Header.HeaderClockRoundTrip | client/src/components/Header.tsx:22-46 | from a start in the past, the clock text reads back as the elapsed whole seconds |
| Header.ActiveClock | client/src/components/Header.tsx:28-41 | while monitoring from a truthy start, the text is the clock text of the elapsed whole seconds |
| Header.ClockTextRoundTrip | client/src/components/Header.tsx:34-40 | the clock text of any non-negative duration reads back as it |
| Header.LongClock | client/src/components/Header.tsx:34-37 | from the first hour on, `h:mm:ss` reads back as the duration |
| Header.ShortClock | client/src/components/Header.tsx:38-40 | within the first hour, `m:ss` reads back as the duration |
| Header.PaddedFieldsTwoDigits | client/src/components/Header.tsx:36-39 | each padded field is exactly two characters |
| Header.HeaderAgreesWithDashboard | client/src/components/Header.tsx:28-41 | within the first hour the header's text at an instant equals the dashboard memo's body evaluated at that same instant; the two formats agree, but the memo is evaluated only when the start time changes (see HeaderLeavesDashboardBehind) |
| Header.HeaderLeavesDashboardBehind | client/src/components/Header.tsx:43-45 | from one second into a session on, the ticking header shows a different text from the dashboard's clock, which was computed within the first second and still reads "0:00" |
| Header.FirstHourText | client/src/components/Header.tsx:38-39 | under an hour the header's text is minutes and padded seconds |
| Header.HeaderClockIdle | client/src/components/Header.tsx:23-26 | without monitoring or without a start, the text is `0:00` |
| Header.HeaderClockState.constructor | client/src/components/Header.tsx:20 | the state starts at `0:00` |
| Header.HeaderClockState.Refresh | client/src/components/Header.tsx:22-46 | one run of the effect writes the clock function's text and changes no prop |
| Monitor.Winner | client/src/components/EmotionMonitor.tsx:163-171 | the running maximum ends on a mapped entry with a positive score, if any |
| Monitor.WinnerSpec | client/src/components/EmotionMonitor.tsx:163-171 | there is no winner exactly when no mapped score exceeds 0; otherwise the winner is the first entry with the greatest mapped score |
| Monitor.Select | client/src/components/EmotionMonitor.tsx:163-171 | the chosen score is non-negative and bounds every mapped score; a zero score leaves `neutral`; a positive one is some entry's label and score |
| Monitor.UnmappedIgnored | client/src/components/EmotionMonitor.tsx:153-171 | a key outside the seven labels never changes the choice |
| Monitor.TieKeepsEarlier | client/src/components/EmotionMonitor.tsx:166-170 | a later score equal to the maximum keeps the earlier choice |
| Monitor.SelectEmotion | client/src/components/EmotionMonitor.tsx:163-171 | the loop over the entries computes the selection function |
| Monitor.EmittedEntry | client/src/components/EmotionMonitor.tsx:176-184 | an entry is emitted exactly above 0.3, carrying the chosen label and score |
| Monitor.EmittedEntryValid | client/src/components/EmotionMonitor.tsx:176-184 | with scores in [0, 1], the emitted entry is valid and its score is the greatest mapped one |
| Monitor.EmotionMonitor.constructor | client/src/components/EmotionMonitor.tsx:46-47 | the monitor starts with no label and confidence 0 |
| Monitor.EmotionMonitor.Detect | client/src/components/EmotionMonitor.tsx:111-189 | without a face (not ready, a failed detection, no face) nothing changes and nothing is emitted; with one, the shown label and confidence are the selection and the emitted entry is as above |
| Monitor.EmotionMonitor.MonitoringChanged | client/src/components/EmotionMonitor.tsx:204-208 | stopping clears the label and confidence; starting keeps them |
| RecommendationsView.QueryEnabled | client/src/components/WellnessRecommendations.tsx:176 | the query runs exactly when there is a current label |
| RecommendationsView.KeyRoundTrip | client/src/components/WellnessRecommendations.tsx:175 | the key's comma-joined label text, parsed by `Routes.RecentFromQuery`, gives back the last min(5, n) recent labels, in order |
| RecommendationsView.DisplayRecommendations | client/src/components/WellnessRecommendations.tsx:180-181 | the server's answer is shown as it is, even when empty; without an answer or a label the list is empty |
| RecommendationsView.DisplayFallback | client/src/components/WellnessRecommendations.tsx:180-181 | without an answer the panel shows the label's two valid fallback entries, with priorities 1 and 2 |
| RecommendationsView.Render | client/src/components/WellnessRecommendations.tsx:195-251 | the placeholder exactly without a current label, skeletons exactly while loading, a failed render exactly when a displayed recommendation has a kind outside the colour table, and otherwise cards showing the displayed list, every one of an allowed kind |
| RecommendationsView.UnknownKindFailsRender | client/src/components/WellnessRecommendations.tsx:241-251 | a generated item of an unknown kind, passed through by the server, makes the panel's render throw |
| RecommendationsView.FallbackRenders | client/src/components/WellnessRecommendations.tsx:180-181 | without an answer the fallback table's entries render as cards |
| RecommendationsView.StartsBreathingSpec | client/src/components/WellnessRecommendations.tsx:189-193 | only a breathing card starts the exercise; every other allowed kind does nothing |

## Left out

- Floating point: confidences, averages, priorities and orb values are exact `real`s, so the running average is the exact mean. The JavaScript result may differ in the last bits, and `NaN` is modelled only where it decides a branch (`parseInt` failing, a non-numeric priority).
- Schema.ParseInsert: a sample's `timestamp` is an integer, while the schema's `z.number()` also accepts fractional timestamps; fractional milliseconds are not modelled, like other floating point.
- Gateway.Normalise: a model item's `priority` is a number or absent. A non-empty string priority is truthy in JavaScript and would be passed through by `rec.priority || index + 1`, but the model reads anything that is not a number as absent, so such an item gets index + 1.
- RecommendationsView.KeyRoundTrip: proves that the key's label text parses back through the server's parser. How the query key becomes the request URL is the react-query fetcher's job, which is not part of this model; the lemma assumes that the fetcher sends the third key element as the `recentEmotions` query parameter.
- `Date.now()`, `crypto.randomUUID()` and `randomUUID()` are parameters (`now`, `id`, `freshId`, `clock`). Elapsed breathing time is a `nat` parameter per tick.
- The Gemini client and `JSON.parse` are parameters: the model's reply is an `Option<string>` (None when the call throws), and the parse result is a `Parsed` value. JSON value types beyond what the code reads, and extra fields, are not represented.
- The prompt's fixed instruction text is not modelled; only the values it interpolates (label, pattern, minutes) are.
- `fallbackRecommendations[currentEmotion] || fallbackRecommendations.neutral`: every label has a table entry, so the `neutral` alternative is unreachable and is not modelled.
- The error message's final characters are kept as the four code points the source file holds, where an emoji was evidently meant.
- `parseInt` accepts the decimal form with optional leading white space and sign; hexadecimal (`0x`) input is not modelled.
- String lengths are Dafny code points, while JavaScript counts UTF-16 units. The companion's 1..200 check differs for text outside the Basic Multilingual Plane.
- Repeated query parameters, which Express delivers as arrays, are treated as missing.
- The 500 responses are not modelled: no modelled operation throws.
- GET `/api/emotions/:sessionId` and GET `/api/sessions` pass storage results straight through; they are covered by `Storage.MemStorage.GetEmotionsBySession` and `Storage.MemStorage.GetAllSessions`. GET `/api/health` only reports the clock and is not modelled.
- `emotionMap[emotion]` is truthy only for the seven label names; inherited `Object.prototype` keys (such as `constructor`) are not modelled as mapped.
- Arrays returned by the store are values in the model, so aliasing between a returned list and the stored one (a caller mutating it) is not captured.
- EmotionStats.SessionDuration: the instant of the render that recomputes the memo is a parameter (`renderNow` of `DashboardPage.Dashboard.OnToggleMonitoring`); that it reads "0:00" is proved for a render within a second of the start, which React does not itself guarantee.
- Timers (`setTimeout`, `setInterval`, `requestAnimationFrame`) are events: the dashboard's pending sync is a slot that each change replaces, and a breathing tick is an explicit call. A sync failure is logged and changes no state, so it is not represented.
- The face detector, the camera, canvas drawing, model loading and the react-query fetcher are outside the model. Detection results arrive as a `Detection` value, and the fetched data as an `Option`.
- Locale time formatting (`toLocaleTimeString`) and all markup, colours and icons are not modelled.
- VoiceSentiment.tsx, StarryBackground.tsx and MoodCompanion.tsx are not part of this model.
- Routes.KeepLabels: its own contract bounds only the length; the order-preserving filter is stated by `Routes.KeepLabelsAppend`, `Routes.KeepNames` and `Routes.RecentFromQueryRoundTrip`.
- Routes.PostCompanionAnswers: follows from `Routes.PostCompanion`'s definition with no proof work.
- Gateway.GetWellnessRecommendations has no contract of its own; what it returns is stated through `Gateway.DecideSpec`.
