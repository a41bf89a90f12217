# homeside-fetcher decision and learning logic in Dafny

homeside-fetcher polls district-heating installations (HomeSide, Arrigo
and EBO controllers), stores their readings in InfluxDB, and uses them to
learn how each building behaves and to steer its heat curve. This project
models the parts of the fetcher that decide and learn:

- **Heat-curve control.** It maps curve points to outdoor temperatures and
  computes the bounded reduction a rising forecast calls for. It enters and
  leaves reduction mode with an expiry time. HomeSide and EBO control is
  taken over and handed back, and every EBO write passes safety checks.
- **Forecasting and learning.**
  - The Model C indoor forecaster applies a physics step, a learned hourly
    bias and a clamp.
  - The profile's sample schedule goes 24, 48, 96.
  - The thermal analyzer learns from a bounded window of samples.
  - The solar-event learner uses a baseline median, event finalisation, a
    3, 6, 12 update schedule and an early warning.
  - The thermal inertia test runs as a phase machine.
  - k is recalibrated as a percentile.
- **Energy.** Hot-water events are detected and merged, and energy is split
  into heating and hot water under caps. Degree hours and energy estimates
  are computed, and a weather-model factory hands out models.
- **Small state machines.** They cover the InfluxDB circuit breaker, the
  write throttle, orchestrator reconciliation with crash backoff, and the
  assistant's rate limit.
- **Parsers and validators.** They cover:
  - semicolon and CSV meter files with Swedish decimals;
  - trimming of trailing zero days;
  - value-aware deduplication of stored records;
  - gap detection and gap filling;
  - forecast trend classification;
  - GUI permissions and tool access;
  - removal of a customer's `.env` lines.

There is one Dafny module per source file, plus `Common`. `Common` holds
Option/Result, real-number helpers, a stable keyed sort and decimal integer
text.

**Types.**
- Temperatures and energies are `real`.
- Times are integer seconds, or minutes where the source uses minutes.
- The clock, the HTTP and InfluxDB answers, and a few numeric collaborators
  are parameters. These collaborators are the standard deviation, Python's
  `round`, sun elevation and the implied solar coefficient.

**Form.**
- Objects whose fields the source updates in place are classes. Examples
  are the controllers, the learner, the analyzer, the circuit breaker, the
  throttle, the orchestrator and the user store.
- Each method is proved against a pure step function. The properties the
  code promises are lemmas about that function.
- Loops in the source are `while` loops with invariants, proved against a
  recursive reference definition.

**Behaviour kept as the code has it.**
- The energy importer deletes a file only when nothing was unknown and
  nothing failed to parse.
- An empty meter-mapping value counts as an unknown meter.
- The meter tag is the unstripped meter id.
- The fallback meter id is the file name with ".txt" removed.
- Learner with no events since the last update: `update_coefficients`
  slices with `[-0:]`, so it re-blends all detected events.
- Daytime poll of a thermal inertia test that has already reached its
  target: the test fails as "window closed".
- HomeSide `enter_control` stores the baseline before the writes, so a
  failed entry still replaces it.
- Orchestrator crash backoff: it is computed from the incremented crash
  count before a long-running child's count is reset to 1.
- The thermal analyzer's 0.3-confidence branch is unreachable. It needs
  fewer than 5 valid intervals, and the coefficient already returns None
  there.
- The SMHI decision's "significant warming" branch never decides alone. A
  change above 2 degrees is already a rising trend.

## Model

| member | source | states |
|---|---|---|
| AiAssistant.RateStep | webgui/ai_assistant.py:28-38 | a new user or one whose window has ended gets a fresh window of one message and is allowed; a user at the limit is refused and unchanged; otherwise the count goes up by one; other users are untouched |
| AiAssistant.RateRun | webgui/ai_assistant.py:28-38 | over a run of calls by one user, at most one message per call is allowed, the user gains an entry once they have called, and every other user's entry is untouched |
| AiAssistant.WindowAllowsAtMostLimit | webgui/ai_assistant.py:30-38 | within one window a user gets at most `limit - count` further messages, however many calls are made |
| AiAssistant.RateLimiter.constructor | webgui/ai_assistant.py:24-25 | the per-user table starts empty with the configured hourly limit |
| AiAssistant.RateLimiter.CheckRateLimit | webgui/ai_assistant.py:28-38 | the table and the answer are those of one `RateStep` from the previous table |
| AiAssistant.CheckToolAccess | webgui/ai_assistant.py:109-157 | "none" and unknown levels allow; "admin" allows exactly admins; "house" allows exactly a missing or accessible house; "house_edit" additionally refuses viewers and users without edit rights; "building" allows exactly a missing or accessible building; "entity" allows exactly a missing entity id or one accessible among the buildings when the entity type is "building" and among the houses otherwise |
| AiAssistant.ViewersNeverEdit | webgui/ai_assistant.py:131-136 | a viewer is refused every house-editing tool whatever the arguments |
| AiAssistant.ToolsForMeaning | webgui/ai_assistant.py:175-191 | every tool offered comes from a definition the role may use (no admin tool for non-admins, no write tool for viewers) and every usable definition is offered |
| AiAssistant.GetAnthropicTools | webgui/ai_assistant.py:175-191 | the offered list is the filtered definitions for the caller's role, in order |
| AiAssistant.OldestId | webgui/ai_assistant.py:367-374 | returns a conversation no newer than any other |
| AiAssistant.TrimToNewest | webgui/ai_assistant.py:367-374 | keeps a sub-map of exactly `min(n, size)` conversations, and nothing dropped is newer than anything kept |
| AiAssistant.ChatHistory.constructor | webgui/ai_assistant.py:322-325 | the history starts empty, as when no history file exists |
| AiAssistant.ChatHistory.SaveConversation | webgui/ai_assistant.py:350-376 | the user's conversations are the old ones plus the saved one, trimmed to the 20 newest; every other user is untouched |
| AiAssistant.PreviewMeaning | webgui/ai_assistant.py:384-389 | without a user message the preview is empty; otherwise it is the first 80 characters of the first user message |
| AiAssistant.NewestId | webgui/ai_assistant.py:402 | returns a conversation at least as new as every other candidate |
| AiAssistant.NewestIds | webgui/ai_assistant.py:402-403 | the `min(n, size)` ids are distinct conversations in newest-first order, and none left out is newer than one listed |
| AiAssistant.GetUserConversations | webgui/ai_assistant.py:379-403 | at most ten summaries of distinct conversations of the user, newest first, with no unlisted conversation newer than a listed one |
| AiAssistant.SummariesNewest | webgui/ai_assistant.py:386-403 | summarizing the newest ids keeps each conversation's own summary, their order, and no unlisted conversation is newer |
| ArrigoSignals.FetchMap | arrigo_api.py:899-921 | fails exactly when a fetched signal has no id; otherwise holds exactly the signals marked `fetch`, each with its id, the field name falling back to the signal name, the unit to empty, the category to "other", and a minimum only for analog signals that carry one |
| ArrigoSignals.CollectFetched | arrigo_api.py:899-921 | the loop over one signal table builds exactly `FetchMap` of that table |
| ArrigoSignals.GetFetchSignals | arrigo_api.py:891-923 | succeeds exactly when every fetched signal of both tables has an id, and then returns the analog and digital fetch maps; the configuration is a value and is never changed |
| ArrigoSignals.UnflaggingRemovesOnlyThatSignal | arrigo_api.py:901-910 | clearing one signal's `fetch` flag removes that signal from the fetch map and leaves every other entry as it was |
| Auth.CanAccessHouse | webgui/auth.py:216-228 | an unknown user sees nothing; a known user sees a house exactly when they are an admin, hold the `*` entry, or list that house |
| Auth.CanEditHouse | webgui/auth.py:230-248 | viewers never edit and admins always do (unknown users never) |
| Auth.EditIsAccessExceptViewers | webgui/auth.py:216-248 | a user may edit a house exactly when they may see it and are not a viewer |
| Auth.UpdatesKeepKeys | webgui/auth.py:143-147 | updating adds no key except `password_hash`, and adds that only when a password is supplied; it removes no key, never stores the plain password, and leaves every key no update names as it was |
| Auth.NormalizeRole | webgui/auth.py:201-202 | the stored role is always user, viewer or admin, and a valid requested role is kept |
| Auth.GetPendingAction | webgui/auth.py:286-302 | an action is returned exactly when the token exists, has not expired and is still pending, and it is the stored action |
| Auth.UserStore.constructor | webgui/auth.py:55-62 | a new store holds no users and no pending actions |
| Auth.UserStore.CreateUser | webgui/auth.py:92-120 | fails and changes nothing exactly when the username is taken; otherwise the store gains exactly that user's new record (the fields of `create_user`, with the hashed password, the given role and house list, and no approval) and nothing else changes |
| Auth.UserStore.UpdateUser | webgui/auth.py:136-150 | succeeds exactly for an existing user, whose record becomes the updates applied to it; nothing else changes |
| Auth.UserStore.DeleteUser | webgui/auth.py:152-161 | succeeds exactly for an existing user, who is removed; nothing else changes |
| Auth.UserStore.ApproveUser | webgui/auth.py:190-210 | succeeds exactly for a user whose role is "pending"; that record then has exactly its role set to the normalised role, its houses, its approver and its approval time replaced, and every other user is untouched |
| Auth.UserStore.CreatePendingAction | webgui/auth.py:266-284 | adds exactly one pending action under the token, expiring the given number of hours after creation |
| Auth.UserStore.CompleteAction | webgui/auth.py:304-315 | succeeds exactly for an existing token, whose action gets the result as status and the completion time; nothing else changes |
| Auth.NewActionPendingUntilExpiry | webgui/auth.py:266-302 | a newly created action is offered until it expires and not after |
| Auth.CompletedActionIsGone | webgui/auth.py:298-315 | once completed with any result other than "pending", an action is no longer offered |
| EboControl.Put | control_EBO.py:98-101 | a dictionary assignment keeps keys distinct, adds the key if new (last), gives it the value, and leaves every other item in place |
| EboControl.Get | control_EBO.py:140-141 | a lookup finds a value exactly when the key is present, and it is that key's item |
| EboControl.LoadSignals | control_EBO.py:87-103 | every signal with a non-empty field name is indexed under it, keys stay distinct, and the writable set is exactly the field names of the write-on-change signals, so it lies within the indexed fields |
| EboControl.IndexSignals | control_EBO.py:97-101 | keys stay distinct, every non-empty field name is indexed, and no empty field name is |
| EboControl.WritableFields | control_EBO.py:97-103 | a field is writable exactly when some signal carrying it is marked write-on-change |
| EboControl.IndexedEntries | control_EBO.py:97-101 | every indexed signal is one of the configured signals, listed under its own field name, with its key |
| EboControl.IndexedLastWins | control_EBO.py:97-101 | a field name looks up the last configured signal that carries it |
| EboControl.GetAfterPut | control_EBO.py:101 | after `signals[field] = sig` the field looks up `sig` and every other field looks up what it did before |
| EboControl.FindByKey | control_EBO.py:143-146 | finds the first signal listed under the key, or reports that no signal has it |
| EboControl.PartialMatches | control_EBO.py:149 | holds exactly the signals whose field name contains the name, ignoring case |
| EboControl.PartialMatchesDistinct | control_EBO.py:149 | the partial matches have distinct field names |
| EboControl.ResolveSignalMeaning | control_EBO.py:129-156 | a resolved signal is one of the loaded ones; an exact field name resolves to itself; an ambiguity means neither field nor key was exact and two distinct fields contain the name; an unknown signal means no field contains it |
| EboControl.ResolveByKey | control_EBO.py:145-148 | a name that is not a field name but is a signal key resolves to the first signal listed under that key |
| EboControl.ResolveSingleMatch | control_EBO.py:150-153 | a name that is neither a field name nor a key, and is contained (ignoring case) in exactly one field name, resolves to that signal |
| EboControl.ResolvedMatchIsSingle | control_EBO.py:150-153 | a name that is neither a field name nor a key and resolves to a signal is contained in that field name and in no other |
| EboControl.FieldLimitKey | control_EBO.py:207-210 | a limit key is found exactly when the field name contains one of the patterns, and it is that pattern's key |
| EboControl.ValueLimits | control_EBO.py:205-218 | any limits found have their minimum below their maximum |
| EboControl.FieldLimitsTakePrecedence | control_EBO.py:207-216 | a field name containing a pattern gets the same limits whatever its category; otherwise it has limits exactly when its category is heat_curve or heating |
| EboControl.VetWrite | control_EBO.py:231-249 | a write passes only for a resolved, whitelisted field whose value lies within its limits, if it has any |
| EboControl.VetWriteComplete | control_EBO.py:235-249 | a write that resolves, is whitelisted and lies within its limits is never refused |
| EboControl.ReadbackMatchesMeaning | control_EBO.py:307 | reading back exactly the target verifies; a missing value never does; a match lies strictly within 0.1 of the target |
| EboControl.EboController.constructor | control_EBO.py:74-85 | the controller holds the signals and the whitelist of `LoadSignals`, and an empty audit log |
| EboControl.EboController.WriteValue | control_EBO.py:220-281 | a refused write sends nothing and logs nothing; a dry run logs one entry and sends nothing; otherwise the property write is sent to the signal's path, logged with the API's answer, and that answer is returned |
| EboControl.EboController.WriteAndVerify | control_EBO.py:283-313 | the write behaves exactly as `WriteValue` (refusal, dry run or sent write, with the same audit entry); the read-back is judged exactly when the write was sent and succeeded, and it verifies exactly when the value read back lies within 0.1 of the target |
| HomeSide.AdviseIndexBijection | control_homeside.py:32-33 | the point-to-advise-index table and its inverse are inverse bijections between points 1..10 and indices 64..73 |
| HomeSide.LastSegment | control_homeside.py:74 | the short name is a suffix of the full name containing no dot |
| HomeSide.ParseVariables | control_homeside.py:67-80 | every variable with a value is found by its short name, and by its path when the path is non-empty; no empty path is stored |
| HomeSide.PointsUpTo | control_homeside.py:103-108 | collects at most one entry per point up to `n` |
| HomeSide.PointsUpToReadFrom | control_homeside.py:103-108 | every collected entry names a point by its text with the value looked up under that point's name, and every point whose name has a value is collected |
| HomeSide.ReadBaseline | control_homeside.py:82-144 | a baseline is read only with at least one and at most ten override points |
| HomeSide.ReadBaselineMeaning | control_homeside.py:103-114 | the baseline's override curve holds exactly the points whose advise path had a value, each with the value read there |
| HomeSide.DesiredWrites | control_homeside.py:218-228 | at most one write per desired point, and every write goes to an advise index 64..73 |
| HomeSide.Accepted | control_homeside.py:230-235 | the API accepts at most as many writes as were sent |
| HomeSide.RestoreWrites | control_homeside.py:283-297 | restoring sends at most one write per stored entry |
| HomeSide.RestoreWritesReadValues | control_homeside.py:283-297 | restoring a curve read from the advise layer raises nothing and writes every point back to the address it was read from with the value read there |
| HomeSide.RestoreWritesPoints | control_homeside.py:283-297 | a curve whose keys all name points 1..10 raises nothing and is written back one write per entry, in order, each to address 63 + point |
| HomeSide.BaselineRestoresWhatWasRead | control_homeside.py:103-114 | the baseline a successful read stored is restored without error, each point to the advise address it came from with its value |
| HomeSide.RaisedStaysRaised | control_homeside.py:287-288 | once a stored key fails to parse as an integer, the rest of the curve changes nothing |
| HomeSide.FormatCurve | control_homeside.py:357-365 | at most ten lines in strictly increasing outdoor temperature; every present point has its line with its supply temperature, and every line is a present point's outdoor temperature with its stored supply temperature |
| HomeSide.FormatOnlyPresent | control_homeside.py:357-365 | each line formatted from the first `n` points is one of those points that is present, with its stored value |
| HomeSide.FormatFrom | control_homeside.py:359-364 | the lines for points 1..n are ordered by outdoor temperature and cover every present point |
| HomeSide.ControlRecord.constructor | control_homeside.py:183-190 | a new control record is not in control and holds no time, reason or baseline |
| HomeSide.HomeSideControl.constructor | control_homeside.py:54-65 | the controller shares the profile's control record |
| HomeSide.HomeSideControl.WriteDesiredCurve | control_homeside.py:216-235 | sends exactly `DesiredWrites`; the successes are the accepted writes and successes plus failures are all writes |
| HomeSide.HomeSideControl.EnterControl | control_homeside.py:183-266 | refuses and changes nothing when already in control or when the baseline read fails; otherwise stores the baseline, sends the desired writes, and takes control (with time and reason) exactly when at least one write was accepted |
| HomeSide.HomeSideControl.RestoreCurve | control_homeside.py:283-297 | sends exactly `RestoreWrites` and counts the writes the API refused |
| HomeSide.HomeSideControl.ExitControl | control_homeside.py:268-335 | not in control: true and no change; no stored curve: false and no change; otherwise the stored curve is written back, control is released with the baseline kept, and it succeeds exactly when every write was accepted (a malformed key raises before any state change) |
| HomeSide.HomeSideControl.GetStatus | control_homeside.py:337-349 | reports a baseline only when one with a Yref curve is stored, and the baseline details exactly when a baseline is stored |
| CustomerProfiles.NextInterval | customer_profile.py:205-212 | after an update the interval goes 24 to 48 to 96 and then stays; it never shrinks |
| CustomerProfiles.RecordSampleStep | customer_profile.py:190-216 | one more sample in total; an update is due exactly when the samples since the last update reach the interval; then the count restarts at 0 and the interval advances, otherwise the count goes up by one; nothing else changes |
| CustomerProfiles.RecordSamplePreservesSchedule | customer_profile.py:205-214 | recording a sample keeps the interval in {24, 48, 96} with the count below it, and never shrinks the interval |
| CustomerProfiles.UpdateFiresAfterInterval | customer_profile.py:197-214 | from a scheduled state, no update fires until the count reaches the interval, and the sample that reaches it fires one |
| CustomerProfiles.FirstUpdateAt24 | customer_profile.py:52-55 | from a fresh profile the 24th sample is the first to fire, and the next interval is 48 |
| CustomerProfiles.UpdateLearned | customer_profile.py:175-188 | only the supplied coefficient and confidence change, and the update time is set |
| CustomerProfiles.LearningStatusOf | customer_profile.py:226-233 | waiting without a coefficient; otherwise low below 0.5, moderate below 0.8, stable from 0.8 |
| CustomerProfiles.NonZeroBiasKeys | customer_profile.py:235 | exactly the hours whose bias is non-zero |
| CustomerProfiles.GetStatus | customer_profile.py:218-248 | the samples to the next update plus those since the last one make the interval (1..96 on a scheduled profile); the bias coverage counts at most every hour, and all of them exactly when none is zero; the label is `LearningStatusOf` |
| CustomerProfiles.CustomerProfile.constructor | customer_profile.py:60-79 | the profile holds the given identity, settings and learned parameters |
| CustomerProfiles.CustomerProfile.RecordSample | customer_profile.py:190-216 | the learned parameters advance by `RecordSampleStep` and the answer is its due flag; nothing else changes |
| CustomerProfiles.CustomerProfile.UpdateLearnedParams | customer_profile.py:175-188 | the learned parameters become `UpdateLearned` of the old ones; nothing else changes |
| CustomerProfiles.CandidateIds | customer_profile.py:268-274 | the last path segment first, then the second-to-last exactly when the id contains a slash |
| CustomerProfiles.FindProfileId | customer_profile.py:253-287 | a profile is found only among the candidates and only where the file exists and loads; none is found exactly when no candidate does; the last segment wins when it loads |
| CustomerProfiles.FirstLoadable | customer_profile.py:277-284 | the first candidate whose file exists and loads, and none exactly when no candidate does |
| EnergyImportService.Normalize | webgui/energy_import_service.py:82-85 | normalising never lengthens the text |
| EnergyImportService.StripKeeps | webgui/energy_import_service.py:81 | text without spaces at its ends is unchanged by stripping |
| EnergyImportService.StripQuotesKeeps | webgui/energy_import_service.py:81 | text without quotes at its ends is unchanged by stripping quotes |
| EnergyImportService.CleanEnds | webgui/energy_import_service.py:71-86 | text without spaces or quotes at its ends is parsed as its normalised form |
| EnergyImportService.NormalizeConcat | webgui/energy_import_service.py:82-85 | normalising works character by character: it distributes over concatenation |
| EnergyImportService.NormalizeDigits | webgui/energy_import_service.py:82-85 | digits pass through normalisation unchanged |
| EnergyImportService.NormalizeComma | webgui/energy_import_service.py:84-85 | digits, a decimal comma and digits become digits, a point and digits |
| EnergyImportService.DecimalCommaValue | webgui/energy_import_service.py:71-86 | digits, a decimal comma and digits parse as the number they spell ("2,000" is 2.0) |
| EnergyImportService.SeparatorNormalized | webgui/energy_import_service.py:82-83 | a space or point between two parts is dropped by normalisation |
| EnergyImportService.SeparatorIgnored | webgui/energy_import_service.py:80-86 | a space or a point inside a number is a thousands separator and does not change the value ("1 234,56" is 1234.56) |
| EnergyImportService.ParseRow | webgui/energy_import_service.py:124-154 | fewer than two columns is an error with the line number; a blank timestamp or value column skips the line; a negative value is an error; a reading is non-negative, tagged with the energy type, and carries the parsed timestamp and value |
| EnergyImportService.ParseLinesCount | webgui/energy_import_service.py:124-154 | each line yields at most one reading or one error |
| EnergyImportService.ParseLinesReadings | webgui/energy_import_service.py:124-154 | every reading is non-negative, tagged with the energy type, and the reading of one of the lines |
| EnergyImportService.ParseLinesErrors | webgui/energy_import_service.py:124-148 | every error is the failure of one of the lines |
| EnergyImportService.ParseLinesShortRows | webgui/energy_import_service.py:125-127 | every line with fewer than two columns is reported with its line number |
| EnergyImportService.ParseCsv | webgui/energy_import_service.py:88-158 | the loop returns exactly the readings and errors of `ParsedCsv`: an error for a file without a header, otherwise the lines from line 2 on |
| EnergyImportService.Values | webgui/energy_import_service.py:252 | the values of the readings, one per reading, in order |
| EnergyImportService.TrailingZeroDays | webgui/energy_import_service.py:316-338 | the days trimmed are days that occur in the readings |
| EnergyImportService.TrailingZeroDaysMeaning | webgui/energy_import_service.py:328-338 | every trimmed day is all zeros and later than every day with a non-zero reading |
| EnergyImportService.RowsOutside | webgui/energy_import_service.py:341-344 | removing days never adds readings |
| EnergyImportService.RowsOutsideMembers | webgui/energy_import_service.py:341-344 | a reading is kept exactly when it is one of the readings and its day is not removed |
| EnergyImportService.RowsOutsideNothing | webgui/energy_import_service.py:340-346 | removing no day keeps every reading in order |
| EnergyImportService.DroppingZerosKeepsTotal | webgui/energy_import_service.py:340-344 | dropping only all-zero days leaves the total energy unchanged |
| EnergyImportService.TrimKeepsTotal | webgui/energy_import_service.py:308-346 | trimming the trailing zero days never changes the total energy |
| EnergyImportService.LatestDay | webgui/energy_import_service.py:324-327 | returns the latest of the days |
| EnergyImportService.CollectDays | webgui/energy_import_service.py:318-322 | the grouping loop collects exactly the days of the readings |
| EnergyImportService.KeepOutside | webgui/energy_import_service.py:342-344 | the filtering loop keeps exactly `RowsOutside` |
| EnergyImportService.TrimmedAreTrailing | webgui/energy_import_service.py:327-336 | when the walk back over the days stops (at the first day with data, or with no day left), the days it marked are exactly the trailing zero days |
| EnergyImportService.TrimTrailingZeroDays | webgui/energy_import_service.py:308-346 | keeps exactly the readings outside the trailing zero days and returns how many days were trimmed |
| EnergyImportService.NewRows | webgui/energy_import_service.py:281-289 | the new readings are never more than the readings offered |
| EnergyImportService.NewRowsMembers | webgui/energy_import_service.py:281-289 | a reading is new exactly when it is one of the readings and its hour is not stored yet |
| EnergyImportService.DuplicateCount | webgui/energy_import_service.py:277-291 | duplicates plus new readings make up all readings |
| EnergyImportService.SortedOutside | webgui/energy_import_service.py:342-344 | trimming keeps readings sorted by hour |
| EnergyImportService.FilterKeepsOrder | webgui/energy_import_service.py:282-289 | trimming and then setting the stored hours aside keeps readings sorted by hour |
| EnergyImportService.SortedFilter | webgui/energy_import_service.py:282-289 | setting the stored hours aside keeps readings sorted by hour |
| EnergyImportService.SplitNew | webgui/energy_import_service.py:281-289 | the loop yields exactly `NewRows` and `DuplicateCount` |
| EnergyImportService.OfferedReadings | webgui/energy_import_service.py:254-303 | the readings offered for import are sorted by hour, each one of the parsed readings and within the date range; with no day trimmed the kept readings are the sorted ones |
| EnergyImportService.OfferedFromParsed | webgui/energy_import_service.py:254-289 | every reading offered for import after sorting, trimming days and dropping stored hours is one of the parsed readings |
| EnergyImportService.OfferedWithinKept | webgui/energy_import_service.py:281-289 | every new reading lies between the first and the last hour of the sorted readings it was taken from |
| EnergyImportService.Assess | webgui/energy_import_service.py:250-305 | totals come from all parsed readings; the readings are sorted by hour and the trailing all-zero days removed, and `trimmed_days` is the number of those days; it succeeds exactly when a reading is left, and otherwise fails with the all-trimmed error; on success the offered readings are exactly the kept ones whose hour is not stored, `duplicate_count` counts the kept ones whose hour is, the date range runs from the first to the last kept hour, the offered readings are sorted and come from the parsed ones, and their energy is `new_kwh` |
| EnergyImportService.DryRun | webgui/energy_import_service.py:215-305 | with no readings it fails and adds "no valid rows" only when there were no errors; otherwise, as `Assess` on the parsed readings: success exactly when readings survive trimming, the offered readings exactly the kept new ones, the duplicates and trimmed days counted, and every offered reading non-negative and of the requested energy type |
| EnergyImporting.ColumnMap | energy_importer.py:221-231 | a mapped column is a header position whose stripped, lower-cased name is a known column name, and it maps to that name's field |
| EnergyImporting.ColumnMapKeys | energy_importer.py:221-231 | a header position is mapped exactly when its stripped, lower-cased name is a known column name |
| EnergyImporting.TimestampHeadersMeaning | energy_importer.py:45-99 | the header names mapped to the timestamp field are exactly the listed timestamp headers |
| EnergyImporting.TimestampColumnMeaning | energy_importer.py:233-235 | the file has a timestamp column exactly when some header cell names a timestamp header |
| EnergyImporting.BuildColumnMap | energy_importer.py:225-231 | the loop over the header builds exactly `ColumnMap` |
| EnergyImporting.LowerTwice | energy_importer.py:223 | lower-casing twice is lower-casing once |
| EnergyImporting.LStripLower | energy_importer.py:223 | stripping the left end commutes with lower-casing |
| EnergyImporting.RStripLower | energy_importer.py:223 | stripping the right end commutes with lower-casing |
| EnergyImporting.StripLower | energy_importer.py:223 | stripping commutes with lower-casing |
| EnergyImporting.SplitLower | energy_importer.py:222 | with a separator that is not a letter, splitting a lower-cased line gives the lower-cased cells |
| EnergyImporting.ColumnNameLower | energy_importer.py:223 | a header cell's column name ignores its case |
| EnergyImporting.ColumnsOfLowered | energy_importer.py:221-231 | a lower-cased header line maps the same columns as the original |
| EnergyImporting.HeaderCaseInsensitive | energy_importer.py:221-231 | two header lines that differ only in letter case map the same columns |
| EnergyImporting.StripZulu | energy_importer.py:279-280 | a trailing "Z" is removed, and a value without one is unchanged |
| EnergyImporting.FirstFormatMeaning | energy_importer.py:294-301 | fails exactly when every format fails; otherwise the result is what the first accepting format parsed |
| EnergyImporting.ZuluIgnored | energy_importer.py:276-301 | a timestamp with a trailing "Z" parses as the same timestamp without it |
| EnergyImporting.ParseTimestampMeaning | energy_importer.py:276-301 | with a trailing "Z" removed, no time is read exactly when every one of the eight formats rejects the text; otherwise the time is that of the first format that accepts it |
| EnergyImporting.DecimalCommaAccepted | energy_importer.py:256-263 | a number written with a decimal comma reads as the same number with a point |
| EnergyImporting.ReadCellsFails | energy_importer.py:240-265 | a line fails exactly when one of its timestamp cells cannot be parsed |
| EnergyImporting.ReadCellsTimestamp | energy_importer.py:250-251 | a line has a timestamp exactly when it has a cell in a timestamp column |
| EnergyImporting.ReadCellsValues | energy_importer.py:254-265 | every value of a line is a numeric field read from a cell of that field's column |
| EnergyImporting.ReadCellsValueAt | energy_importer.py:254-265 | a field with a value is numeric and that value is the number read from a cell of the field's column |
| EnergyImporting.ReadCellsNumbersKept | energy_importer.py:254-263 | every cell of a numeric column that is not a missing value and parses as a number gives that field a value |
| EnergyImporting.ParseLine | energy_importer.py:238-272 | a line is skipped exactly when it is blank; a failing line is reported with its number, either as failed or as missing its timestamp |
| EnergyImporting.ParseLinesCount | energy_importer.py:238-272 | readings plus errors are the lines that are not blank |
| EnergyImporting.ParseLinesErrors | energy_importer.py:266-272 | every error is the failure of one of the lines |
| EnergyImporting.ParseLinesErrorKinds | energy_importer.py:266-272 | line errors are only failed lines and lines missing a timestamp |
| EnergyImporting.ParseLinesReadings | energy_importer.py:266-267 | every reading is the reading of one of the lines |
| EnergyImporting.SingleLineFile | energy_importer.py:216-220 | a file yields no readings and only the "no data rows" error exactly when its stripped content has no line break |
| EnergyImporting.NoTimestampColumnMeaning | energy_importer.py:233-235 | the "no timestamp column" error is reported exactly when the file has more than one line and its header has no timestamp column |
| EnergyImporting.ParseDataLines | energy_importer.py:238-272 | the loop over the data lines returns exactly `ParseLines` |
| EnergyImporting.ParseFile | energy_importer.py:206-274 | returns exactly `ParsedFile`: the header checks, then the data lines |
| EnergyImporting.FieldsMatch | energy_importer.py:445-460 | records match on a list of fields exactly when they match on each |
| EnergyImporting.RecordsMatch | energy_importer.py:441-461 | records match exactly when on every core field both lack a value or both values lie within 0.001 |
| EnergyImporting.MatchSymmetric | energy_importer.py:441-461 | matching is symmetric |
| EnergyImporting.CoreOf | energy_importer.py:421-427 | the stored record holds exactly the core fields the reading has, with its values |
| EnergyImporting.MatchesOwnStore | energy_importer.py:421-461 | a reading matches what storing it would leave in the database |
| EnergyImporting.OtherFieldsIgnored | energy_importer.py:443 | fields outside the five core fields never affect matching |
| EnergyImporting.ToWrite | energy_importer.py:330-344 | never more readings are written than were read |
| EnergyImporting.ToWriteMembers | energy_importer.py:330-344 | a reading is written exactly when it is one of the readings and is new or differs from what is stored |
| EnergyImporting.ClassificationCounts | energy_importer.py:330-346 | skipped plus written readings are all readings, and the updates are among the written ones |
| EnergyImporting.ReimportWritesNothing | energy_importer.py:330-353 | importing readings that are already stored unchanged writes nothing |
| EnergyImporting.Customer | energy_importer.py:317-322 | a meter is known exactly when its stripped id maps to a non-empty customer, which is returned |
| EnergyImporting.PointOf | energy_importer.py:362-372 | a point carries the reading's time, the house and the meter tags, and exactly the reading's numeric fields with their values |
| EnergyImporting.PointsOf | energy_importer.py:362-373 | one point per reading, in order |
| EnergyImporting.WriteOutcomeMeaning | energy_importer.py:303-391 | an unknown meter writes nothing and reports it; otherwise no error, the written and skipped readings make up all readings, only changed readings become points, a dry run sends no points, and otherwise one point is sent per written reading |
| EnergyImporting.PointsOfWritten | energy_importer.py:332-374 | every point sent has the timestamp of a reading that is new or changed |
| EnergyImporting.WriteToInflux | energy_importer.py:303-391 | the classification loop and the point loop produce exactly `WriteOutcome` |
| EnergyImporting.MeterOfFileName | energy_importer.py:495 | the fallback meter of "X.txt" is X |
| EnergyImporting.RemoveTxt | energy_importer.py:495 | removing ".txt" shortens the name by a multiple of four characters, and a name without a dot is unchanged |
| EnergyImporting.MeterKeys | energy_importer.py:493-501 | the meters of the file, each once, are exactly the meters of its readings |
| EnergyImporting.Group | energy_importer.py:494-496 | a meter's group is never larger than the readings |
| EnergyImporting.GroupMembers | energy_importer.py:494-496 | a reading is in a meter's group exactly when it is one of the readings and belongs to that meter |
| EnergyImporting.NoGroupOfNewMeter | energy_importer.py:494-496 | a meter no reading has gets an empty group |
| EnergyImporting.GroupSizesStep | energy_importer.py:494-496 | adding a reading adds one to the groups' total size |
| EnergyImporting.GroupingKeepsEveryReading | energy_importer.py:491-496 | the groups together hold every reading exactly once |
| EnergyImporting.GroupByMeter | energy_importer.py:491-496 | the grouping loop returns the meters in order of first appearance and, for each, exactly its group |
| EnergyImporting.WrittenAtMostGrouped | energy_importer.py:498-505 | no more readings are written than were grouped |
| EnergyImporting.WriteErrorsAreUnknownMeters | energy_importer.py:498-505 | writing the groups reports an error exactly when some meter is unknown |
| EnergyImporting.WriteAllStep | energy_importer.py:501-505 | writing one more meter's group adds its written count, errors and points |
| EnergyImporting.WriteGroups | energy_importer.py:498-505 | the loop over the meters returns exactly `WriteAll` and processes every grouped reading |
| EnergyImporting.ProcessFile | energy_importer.py:471-512 | without readings: nothing written and only the parse errors; otherwise parse errors followed by the write errors of every meter group, at most as many readings written as parsed; the file is deleted exactly when it is not a dry run, it had readings and there was no error at all |
| GapFilling.InsertDistinct | gap_filler.py:109 | inserting into a strictly increasing list keeps it strictly increasing and adds exactly the new value |
| GapFilling.SortedDistinct | gap_filler.py:109 | the timestamps sorted with duplicates removed: strictly increasing, holding exactly the queried timestamps |
| GapFilling.PairGaps | gap_filler.py:122-126 | a gap between points is exactly a consecutive pair of timestamps further apart than the threshold |
| GapFilling.PairGapsBounds | gap_filler.py:122-126 | every gap between points starts before it ends and lies between the first and the last timestamp |
| GapFilling.PairGapsOrdered | gap_filler.py:122-126 | the gaps between points are ordered and do not overlap |
| GapFilling.ConcatOrdered | gap_filler.py:118-131 | appending ordered gap lists, each gap of the first ending before the second begins, stays ordered |
| GapFilling.GapsOrdered | gap_filler.py:116-133 | the gaps found are ordered and do not overlap |
| GapFilling.GapsInRange | gap_filler.py:112-133 | every gap lies within the checked range, and with data every gap spans more than the threshold |
| GapFilling.GapsMeaning | gap_filler.py:116-131 | with data, a gap is exactly the leading edge, a consecutive pair or the trailing edge whose span exceeds the threshold |
| GapFilling.FindGaps | gap_filler.py:68-137 | a failed query gives no gaps; no data gives the whole range as one gap; otherwise the gaps of the sorted distinct timestamps at twice the expected interval |
| GapFilling.DetectWeatherGaps | gap_filler.py:497-551 | the same gaps as `FindGaps`, computed by a loop over pairs `(i, i + 1)` |
| GapFilling.GroupByTime | gap_filler.py:339-345 | every point's field is present at its timestamp, and the last point wins |
| GapFilling.GroupByTimeKeys | gap_filler.py:339-345 | the grouped timestamps are exactly those of the points |
| GapFilling.GroupPoints | gap_filler.py:339-345 | the grouping loop builds exactly `GroupByTime` |
| GapFilling.TimesInRange | gap_filler.py:347-351 | exactly the fetched timestamps within the target range, ends included |
| GapFilling.PointsAt | gap_filler.py:384-409 | both points written for a timestamp carry that timestamp |
| GapFilling.FillCounts | gap_filler.py:362-413 | every timestamp is written, skipped or counted as an error; a dry run has no errors and sends no points; otherwise two points go out per written timestamp |
| GapFilling.FillRespectsExisting | gap_filler.py:364-381 | a point is written only for a timestamp with both the room and the outdoor temperature and, when existing data is respected, without real existing data |
| GapFilling.FillTimeRange | gap_filler.py:281-419 | without an Arrigo connection one error; otherwise the grouped points within the range, in ascending time, each skipped, written or counted as an error as `FillAll` says |
| GapFilling.FillTimes | gap_filler.py:362-413 | the loop over the sorted timestamps returns exactly `FillAll` |
| GapFilling.StatsOf | gap_filler.py:1256-1276 | no values gives no statistics; one value gives spread 0 with minimum, maximum and mean all that value rounded |
| GapFilling.SignalStatus | gap_filler.py:1278-1296 | each status holds exactly under its own condition, in priority order: no data, always zero, constant setpoint or stale, low coverage, healthy |
| GapFilling.DroppedSignals | gap_filler.py:1278-1296 | a signal is no longer fetched exactly when it had no points, or barely varied while at zero or while not a setpoint |
| GapFilling.SingleValueIsFlat | gap_filler.py:1266-1288 | a signal with one value and some points is always zero, a constant setpoint or stale |
| GapFilling.NoValuesJudgedByCoverage | gap_filler.py:1271-1296 | a signal with points counted but no values fetched is judged by coverage alone and stays fetched |
| GapFilling.FieldValues | gap_filler.py:1256-1257 | at most one value per row, each the field's value in some row |
| GapFilling.MetaOf | gap_filler.py:1249-1314 | an entry's `fetch` flag agrees with its status, it has no data exactly when it has no points, and it has no statistics exactly when no value was fetched |
| GapFilling.Metadata | gap_filler.py:1248-1314 | entries exist exactly for the signals' Arrigo names, each with `fetch` agreeing with its status, and the last signal of a name wins |
| GapFilling.SaveSignalMetadata | gap_filler.py:1234-1314 | the loop over the signals builds exactly `Metadata` with the expected slot count and the core signals of a house or a building |
| HeatCurveControl.CurveYIndicesLayout | heat_curve_controller.py:30-43 | the curve's Y values sit at indices 64..73 and index i stands for outdoor temperature −30 + 5·(i − 64) °C |
| HeatCurveControl.OutdoorToYIndexIsInverse | heat_curve_controller.py:44 | the outdoor-to-index table is exactly the inverse of the index-to-outdoor table |
| HeatCurveControl.IndicesInRange | heat_curve_controller.py:151-156 | keeps exactly the listed indices whose outdoor temperature lies in the range, in the given increasing order |
| HeatCurveControl.GetAffectedIndices | heat_curve_controller.py:125-164 | an index is affected iff its outdoor temperature lies between the current and forecast temperatures widened by the 5 °C margin; the result is strictly increasing |
| HeatCurveControl.CalculateAdjustment | heat_curve_controller.py:166-205 | no change exactly when the rise is below 2 °C or the house is more than 0.5 °C below target; otherwise the reduction is −min(rise·0.5, 3), within [−3, −1] |
| HeatCurveControl.ShouldReduce | heat_curve_controller.py:207-301 | recommends a reduction iff the forecast trend exists and is rising, the adjustment is negative and some curve point is affected; then it carries that delta, those indices, the forecast hours and a confidence min(1, |rise|/5) within [0, 1] |
| HeatCurveControl.ReducedValue | heat_curve_controller.py:348 | a reduced point is the current value plus delta, floored at the 20 °C minimum supply temperature |
| HeatCurveControl.AdjustedValues | heat_curve_controller.py:345-348 | new values are computed for exactly the affected indices present in the current curve, each its reduced value |
| HeatCurveControl.PointsToAdjustMembers | heat_curve_controller.py:345-353 | the points written are exactly the affected indices present in the curve, each once |
| HeatCurveControl.ApplyWritesAt | heat_curve_controller.py:353-356 | after the write loop a point holds its new value iff it was written and accepted; every other point is as before |
| HeatCurveControl.CountWrittenPositive | heat_curve_controller.py:352-365 | the success count is positive iff at least one write was accepted |
| HeatCurveControl.RestoreUndoesReduction | heat_curve_controller.py:303-457 | when every write is accepted, reducing and then restoring from a baseline equal to the curve at entry returns every affected point to its original value and leaves other points untouched |
| HeatCurveControl.RestorePoints | heat_curve_controller.py:420-421 | restored points are exactly the adjusted indices the baseline holds |
| HeatCurveControl.BuildAdjustedValues | heat_curve_controller.py:345-348 | the loop builds exactly the adjusted-values map and the order its points are written in |
| HeatCurveControl.WriteCurvePoints | heat_curve_controller.py:353-365 | the write loop yields the device curve after the accepted writes and the number of accepted writes |
| HeatCurveControl.HeatCurveController.constructor | heat_curve_controller.py:74-80 | a new controller is not in reduction mode and holds no adjustment |
| HeatCurveControl.HeatCurveController.EnterReductionMode | heat_curve_controller.py:303-394 | refuses while active; otherwise stores the changed baseline, writes the reduced points, and enters reduction mode (start, expiry = now + hours, indices, delta) iff some write was accepted |
| HeatCurveControl.HeatCurveController.ExitReductionMode | heat_curve_controller.py:396-457 | succeeds with no change when inactive; fails with no change without a baseline; otherwise writes back the baseline of each adjusted index and clears the reduction state |
| HeatCurveControl.HeatCurveController.CheckExpiration | heat_curve_controller.py:459-473 | nothing happens before expiry or when inactive; at or after expiry the restore goes ahead exactly when a baseline is stored: the adjustment is then cleared and the device curve receives the stored baseline at the adjusted points; without a baseline nothing changes |
| HeatingEnergySeparation.PresentValues | energy_models/heating_energy_separator.py:126 | a value is kept iff some reading carries it; missing values are dropped |
| HeatingEnergySeparation.Baseline | energy_models/heating_energy_separator.py:130-134 | the baseline is a reading (the lower quartile) or the configured baseline temperature, never below the latter and never above the largest reading or that floor |
| HeatingEnergySeparation.RiseFactor | energy_models/heating_energy_separator.py:207-210 | the energy scale is at most 1.5, exactly 1 when the cold-to-target rise is not positive, and non-negative for a non-negative rise |
| HeatingEnergySeparation.CreateEvent | energy_models/heating_energy_separator.py:187-220 | no event without samples; otherwise the event spans start to end, its peak is the highest sample, its rise is peak minus baseline, and its energy is power × hours × rise factor |
| HeatingEnergySeparation.EventEnergyCapped | energy_models/heating_energy_separator.py:205-212 | an event's energy is at most 1.5 × the configured power over its duration |
| HeatingEnergySeparation.DetectDhwEvents | energy_models/heating_energy_separator.py:118-128 | too few readings, or no reading with a value, give no events |
| HeatingEnergySeparation.PresentValuesPermutation | energy_models/heating_energy_separator.py:123-128 | sorting the readings first does not change whether any value is present |
| HeatingEnergySeparation.CreateEventHot | energy_models/heating_energy_separator.py:147-172 | an event built from active samples peaked at or above the DHW threshold and rose at least the rise threshold |
| HeatingEnergySeparation.ScanStepKeepsInvariant | energy_models/heating_energy_separator.py:144-172 | one reading of the detection loop keeps every collected sample active and every closed event hot |
| HeatingEnergySeparation.ScanFromKeepsInvariant | energy_models/heating_energy_separator.py:144-172 | the whole detection loop keeps that invariant |
| HeatingEnergySeparation.MergeFromEnergy | energy_models/heating_energy_separator.py:222-249 | the merge loop preserves the total energy of the events it is given |
| HeatingEnergySeparation.MergeFromLength | energy_models/heating_energy_separator.py:222-249 | the merge loop outputs at least one and at most one event per input event |
| HeatingEnergySeparation.MergeFromHot | energy_models/heating_energy_separator.py:234-243 | merging hot events yields hot events (higher peak and rise kept) |
| HeatingEnergySeparation.MergeCloseEventsMeaning | energy_models/heating_energy_separator.py:222-249 | merging never adds events, keeps at least one when given any, preserves total energy and keeps events hot |
| HeatingEnergySeparation.DetectedEventsAreHot | energy_models/heating_energy_separator.py:104-185 | every detected event peaked at or above the DHW threshold and rose at least the rise threshold above the baseline |
| HeatingEnergySeparation.CapFromEnergy | energy_models/heating_energy_separator.py:338-354 | the capped DHW energy of one hour never exceeds what was left of the hour's budget |
| HeatingEnergySeparation.CapFromWithinHour | energy_models/heating_energy_separator.py:338-339 | only events starting within the hour are counted for it |
| HeatingEnergySeparation.HourlyDhwCapped | energy_models/heating_energy_separator.py:335-354 | DHW in one hour is at most 80% of that hour's consumption |
| HeatingEnergySeparation.PeriodResult | energy_models/heating_energy_separator.py:367-417 | heating plus DHW equals the period total; DHW is the estimated sum capped at 60% of the total, zero without events; confidence lies in [0.5, 1] and is 0.5 without events |
| HeatingEnergySeparation.ClosePeriods | energy_models/heating_energy_separator.py:316-328 | after closing finished periods the reading falls inside the current period |
| HeatingEnergySeparation.SeparateEnergy | energy_models/heating_energy_separator.py:251-269 | no energy data or no temperature data give no results |
| HeatingEnergySeparation.FlushWellFormed | energy_models/heating_energy_separator.py:356-363 | the last period is reported only with positive energy and is well formed |
| HeatingEnergySeparation.ClosePeriodsWellFormed | energy_models/heating_energy_separator.py:316-328 | closing periods only adds well-formed results |
| HeatingEnergySeparation.SeparateFromWellFormed | energy_models/heating_energy_separator.py:309-354 | the reading loop only adds well-formed results |
| HeatingEnergySeparation.SeparatedPeriodsWellFormed | energy_models/heating_energy_separator.py:251-365 | every reported period has positive energy split exactly into heating and DHW, DHW at most 60% and zero without events, confidence in [0.5, 1] |
| HeatingEnergySeparation.DetectDhwEventsLoop | energy_models/heating_energy_separator.py:104-185 | the imperative detection computes exactly the specified events |
| HeatingEnergySeparation.DetectSortedLoop | energy_models/heating_energy_separator.py:125-185 | the loop over the sorted readings computes exactly the specified events |
| HeatingEnergySeparation.DetectSortedHot | energy_models/heating_energy_separator.py:144-185 | detection over sorted readings yields only events that reached the DHW threshold and the rise threshold |
| HeatingEnergySeparation.FinishScanHot | energy_models/heating_energy_separator.py:175-180 | closing an event still in progress at the end of the data yields only hot events |
| HeatingEnergySeparation.ScanLoop | energy_models/heating_energy_separator.py:144-164 | the detection loop reaches exactly the specified scan state |
| HeatingEnergySeparation.MergeCloseEventsLoop | energy_models/heating_energy_separator.py:222-249 | the merge loop computes exactly the specified merge |
| HeatingEnergySeparation.CapHourLoop | energy_models/heating_energy_separator.py:336-354 | the capping loop computes exactly the specified capped events |
| HeatingEnergySeparation.SeparateEnergyLoop | energy_models/heating_energy_separator.py:251-365 | the imperative separation computes exactly the specified results |
| HeatingEnergySeparation.AddReadingLoop | energy_models/heating_energy_separator.py:309-354 | one iteration of the reading loop computes exactly the specified next state |
| InfluxWriting.ErrorStep | influx_writer.py:100-106 | a failure adds one to the count; the breaker opens (at now) exactly when the count first reaches the threshold while not already open |
| InfluxWriting.SuccessStep | influx_writer.py:135-149 | a success after failures clears the count and closes the breaker; without failures nothing changes |
| InfluxWriting.ShouldWriteStep | influx_writer.py:151-181 | disabled never writes; below the threshold always writes; an open breaker refuses within the cooldown; after it, writes only on a healthy reconnect (which resets the breaker) and otherwise restarts the cooldown |
| InfluxWriting.FailedReconnectRestartsCooldown | influx_writer.py:175-181 | a failed reconnect after the cooldown refuses and restarts the cooldown from now, so the next call within it also refuses |
| InfluxWriting.ErrorsBelowThreshold | influx_writer.py:100-106 | fewer failures than the threshold leave the breaker closed |
| InfluxWriting.ThresholdFailuresBlockWrites | influx_writer.py:100-173 | threshold consecutive failures open the breaker and every write within the cooldown is refused |
| InfluxWriting.CurveFieldName | influx_writer.py:633-634 | a curve point is stored in the field "y_" followed by its index |
| InfluxWriting.RemoveYPrefixNoY | influx_writer.py:679 | removing every "y_" from a string without 'y' leaves it unchanged |
| InfluxWriting.IntToStringHasNoY | influx_writer.py:634 | an index written in decimal contains no 'y' |
| InfluxWriting.CurveFieldRoundTrip | influx_writer.py:634-680 | reading back a field name written for an index yields that index |
| InfluxWriting.CurveFieldNameInjective | influx_writer.py:634 | distinct indices are stored in distinct fields |
| InfluxWriting.BaselineFields | influx_writer.py:632-634 | one field per curve point, named from its index and holding its value |
| InfluxWriting.PairsToMap | influx_writer.py:633 | the curve as a dictionary holds exactly the indices listed |
| InfluxWriting.ReadHeatCurveBaseline | influx_writer.py:644-686 | a baseline is returned only when it holds at least one point |
| InfluxWriting.ReadBaselineFields | influx_writer.py:673-680 | reading the written fields recovers exactly the curve dictionary |
| InfluxWriting.BaselineRoundTrip | influx_writer.py:612-686 | a non-empty baseline written and read back is the same curve |
| InfluxWriting.InfluxWriter.constructor | influx_writer.py:28-60 | a new writer has no failures and a closed breaker |
| InfluxWriting.InfluxWriter.LogInfluxError | influx_writer.py:100-133 | the writer's breaker takes one failure step |
| InfluxWriting.InfluxWriter.LogInfluxSuccess | influx_writer.py:135-149 | the writer's breaker takes one success step |
| InfluxWriting.InfluxWriter.ShouldWrite | influx_writer.py:151-221 | the decision and the new breaker state are those of the breaker rule |
| InfluxWriting.InfluxWriter.WriteHeatCurveBaseline | influx_writer.py:612-642 | writes only when the breaker allows and the curve is non-empty, sending one `y_` field per point |
| InfluxWriting.RecordsMatchLoop | influx_writer.py:1799-1812 | the loop answers exactly whether every numeric non-timestamp field is stored and within tolerance |
| InfluxWriting.RecordsMatchMeaning | influx_writer.py:1799-1812 | a numeric field missing from the stored record means no match; equal stored values for every numeric field mean a match |
| InfluxWriting.CountOf | influx_writer.py:1846-1855 | a count never exceeds the number of records |
| InfluxWriting.CountsPartition | influx_writer.py:1843-1879 | every record is exactly one of new, skipped or updated, and the records written are the new and updated ones |
| InfluxWriting.WriteEnergyRecords | influx_writer.py:1814-1879 | no records give (0, 0, 0); the three counts add up to the number of records, and the records written are exactly those not skipped |
| KRecalibration.DayK | k_recalibrator.py:166-198 | a day is usable iff it has both temperatures, positive heating energy, positive indoor-outdoor difference and an implied k strictly between 0 and 1; its k times the day's degree-hours is its heating energy |
| KRecalibration.DailyKsMeaning | k_recalibrator.py:163-198 | the collected days are at most the input days, each one an input day with a plausible k, and every input day that yields a k is collected |
| KRecalibration.CollectDailyKs | k_recalibrator.py:163-198 | the collection loop keeps exactly the usable days, in input order |
| KRecalibration.PercentileK | k_recalibrator.py:204-209 | the calibrated k is one of the daily values, between the smallest and the largest |
| KRecalibration.Median | k_recalibrator.py:212 | the median lies between the smallest and the largest value |
| KRecalibration.PercentileAtMostMedian | k_recalibrator.py:204-212 | with at least three days the 15th-percentile k never exceeds the median |
| KRecalibration.KsPlausible | k_recalibrator.py:189 | every daily k lies strictly between 0 and 1 |
| KRecalibration.Confidence | k_recalibrator.py:216-220 | confidence lies in [0, 1], never exceeds the share of two weeks used, equals that share (capped at 1) without spread, and is at most halved by spread |
| KRecalibration.CalculateK | k_recalibrator.py:138-239 | no result without energy or temperature data or with fewer than three usable days; otherwise k is one of the daily values in (0, 1), at most the median, with the days used and total days counted and confidence in [0, 1] |
| Orchestration.EnvKey | orchestrator.py:77-79 | the variable name is prefix, id and suffix joined by underscores |
| Orchestration.EnvKeyInjective | orchestrator.py:77-79 | with the same prefix and suffix, distinct configuration ids give distinct variable names |
| Orchestration.BuildingCredentials | orchestrator.py:108-125 | the username and password come from the credential reference when it is set and gives a non-empty value, otherwise from BUILDING_<id>_*; the domain only from the reference |
| Orchestration.BuildingEnv | orchestrator.py:99-135 | a building child gets the BMS and ARRIGO credential variables from those credentials and its poll offset; every other variable is inherited unchanged |
| Orchestration.HouseEnv | orchestrator.py:85-96 | a house child gets HOUSE_<id>_USERNAME/PASSWORD as its HomeSide credentials, the poll interval and InfluxDB switch with their defaults, and its poll offset as decimal text |
| Orchestration.Least | orchestrator.py:243 | the least id of a non-empty set is in it and precedes every other member |
| Orchestration.LeastBelowAll | orchestrator.py:243 | an id before the least of the rest precedes all of them |
| Orchestration.LeastBelow | orchestrator.py:243 | the least id precedes every other id of the set |
| Orchestration.Sorted | orchestrator.py:243 | sorting keeps exactly the ids of the set, each once |
| Orchestration.SortedAscending | orchestrator.py:243 | the sorted ids are strictly ascending |
| Orchestration.SortedHeadBelow | orchestrator.py:243 | the first sorted id precedes every later one |
| Orchestration.AddNew | orchestrator.py:243-256 | starting the new ids adds exactly those ids to the children |
| Orchestration.AddNewMeaning | orchestrator.py:242-256 | the k-th new id gets a fresh child at offset base + 10·k; existing children are untouched |
| Orchestration.AddNewAt | orchestrator.py:242-256 | the k-th new id gets a fresh child at offset base + 10·k |
| Orchestration.ReconcileChildren | orchestrator.py:233-261 | after a reconcile the child ids are exactly the configuration ids |
| Orchestration.NewIds | orchestrator.py:243 | the ids started are exactly those configured without a child |
| Orchestration.ReconcileAsRemoval | orchestrator.py:258-261 | reconciling is starting the new children and then removing those without a configuration |
| Orchestration.SortedDistinct | orchestrator.py:243 | the sorted new ids are pairwise distinct |
| Orchestration.ReconcileMeaning | orchestrator.py:238-261 | children that stay are untouched; the k-th new id in sorted order is started at offset len(children)·10 + 10·k |
| Orchestration.ReconcileKeepsStaying | orchestrator.py:238-261 | children whose configuration remains are untouched by a reconcile |
| Orchestration.ReconcileStartsNew | orchestrator.py:238-256 | every new id is configured, was not running, and is started at offset len(children)·10 + 10·k |
| Orchestration.ReconcileStartsNewAt | orchestrator.py:238-256 | the k-th new id is configured, was not running, and is started at offset len(children)·10 + 10·k |
| Orchestration.NewOffsetsAscendWithIds | orchestrator.py:243-256 | among new children, a smaller id gets a smaller poll offset |
| Orchestration.Pow2 | orchestrator.py:276-277 | a power of two is at least 1 |
| Orchestration.Pow2Monotone | orchestrator.py:276-277 | powers of two grow with the exponent |
| Orchestration.BackoffMeaning | orchestrator.py:276-277 | the restart delay is 10 s after the first crash, doubles per crash and is capped at 300 s from the sixth on; it never decreases |
| Orchestration.CrashStep | orchestrator.py:264-290 | a child that is not running, still running or still in backoff is untouched; otherwise its crash count grows (reset to 1 after a run of over 600 s), its backoff ends at now + delay, and it is restarted now |
| Orchestration.QuickCrashesCount | orchestrator.py:275-287 | k quick crashes in a row raise the count by k and set the backoff from the k-th delay |
| Orchestration.RestartCrashed | orchestrator.py:264-268 | checking crashes keeps the set of children |
| Orchestration.LeastId | orchestrator.py:243 | the search loop finds the least id |
| Orchestration.LeastUnique | orchestrator.py:243 | an id that precedes all others is the least |
| Orchestration.SortedUnfold | orchestrator.py:243 | sorted order is the least id followed by the rest sorted |
| Orchestration.SortedStep | orchestrator.py:243 | moving the least remaining id to the output keeps the sorted whole |
| Orchestration.SortIds | orchestrator.py:243 | the sorting loop yields the sorted ids |
| Orchestration.StartNew | orchestrator.py:242-256 | the start loop adds exactly the specified new children |
| Orchestration.Orchestrator.constructor | orchestrator.py:375 | the orchestrator starts without children |
| Orchestration.Orchestrator.Reconcile | orchestrator.py:233-261 | the children become the reconciled map and the stopped ids are those no longer configured |
| Orchestration.Orchestrator.CheckCrashed | orchestrator.py:264-290 | every child takes one crash step |
| CustomerRemoval.ConfigDirForType | remove_customer.py:58-59 | the buildings directory exactly for type "building"; the profiles directory for every other type |
| CustomerRemoval.EnvPrefixForType | remove_customer.py:62-63 | the BUILDING prefix exactly for type "building"; HOUSE for every other type |
| CustomerRemoval.InfluxTagForType | remove_customer.py:66-67 | the building_id tag exactly for type "building"; house_id for every other type |
| CustomerRemoval.EnvPrefix | remove_customer.py:123 | an entity's credential prefix is never empty and never starts like a comment |
| CustomerRemoval.CredentialFlags | remove_customer.py:125-127 | a line is flagged iff, stripped, it starts with the entity's prefix |
| CustomerRemoval.CommentFlags | remove_customer.py:128 | a line is flagged iff, stripped, it starts with '#' |
| CustomerRemoval.ListedStep | remove_customer.py:148-153 | one more line adds exactly itself when it matches, plus the comment line just before it |
| CustomerRemoval.KeepLinesCount | remove_customer.py:158-161 | the kept lines plus the removed indices account for every line, and every kept line is an unremoved line of the file |
| CustomerRemoval.RemovalMeaning | remove_customer.py:135-163 | no kept line is a credential line of the entity, and kept plus removed equals the file's length |
| CustomerRemoval.RemoveEnvLines | remove_customer.py:135-163 | without a .env nothing happens and 0 is returned; otherwise the file loses exactly the matched lines and their preceding comments, the count is their number, and a file without matches is unchanged |
| CustomerRemoval.MatchedLines | remove_customer.py:147-153 | the index loop collects exactly the removal indices |
| CustomerRemoval.KeepUnmarked | remove_customer.py:159-161 | the write-back loop keeps exactly the lines not marked |
| CustomerRemoval.KeepNothingRemoved | remove_customer.py:155-156 | with nothing to remove the file is kept as it is |
| CustomerRemoval.CommentIsNotCredential | remove_customer.py:127-129 | a comment line is never itself a credential line |
| CustomerRemoval.FoundAtShape | remove_customer.py:125-131 | one line contributes exactly the indices removal marks for it, in increasing order |
| CustomerRemoval.FoundLinesShape | remove_customer.py:124-132 | the listed lines carry exactly the marked indices below n, in increasing order |
| CustomerRemoval.IndicesOfConcat | remove_customer.py:124-132 | the indices of two listings joined are the union of their indices |
| CustomerRemoval.IncreasingCount | remove_customer.py:124-132 | an increasing listing has as many entries as distinct indices |
| CustomerRemoval.FindMatchesRemoval | remove_customer.py:115-163 | listing and removal use the same rule: the listed indices are exactly the removed ones, each once, in file order |
| CustomerRemoval.FindEnvLines | remove_customer.py:115-132 | without a .env nothing is listed; otherwise the loop lists the matching lines with their preceding comments |
| CustomerRemoval.LongerIdsShareThePrefix | remove_customer.py:123-127 | a credential line of an entity whose id extends another's with "_…" also matches the shorter id's prefix |
| CustomerRemoval.AddToOffboarded | remove_customer.py:205-240 | afterwards the id is pending; an id already pending leaves the data unchanged; otherwise one entry is appended with purge time now + grace days and the type's InfluxDB tag; purged entries are untouched |
| CustomerRemoval.OffboardingKeepsPendingDistinct | remove_customer.py:216-220 | offboarding never creates a second pending entry for an id |
| CustomerRemoval.OffboardingIsIdempotent | remove_customer.py:216-220 | offboarding the same entity again, even later, changes nothing |
| SmhiWeather.ClassifyTrend | smhi_weather.py:400-409 | rising iff the change exceeds 1 °C, falling iff it is below −1 °C, stable otherwise |
| SmhiWeather.ClassifyCloud | smhi_weather.py:411-423 | unknown iff there is no cloud cover; clear iff below 2 octas; overcast iff 7 or more |
| SmhiWeather.Temps | smhi_weather.py:392 | one temperature per forecast point, in order |
| SmhiWeather.CloudCovers | smhi_weather.py:393 | exactly the cloud covers the forecast points carry |
| SmhiWeather.GetTempTrend | smhi_weather.py:370-445 | no trend without forecast points; otherwise the current temperature is the first, the change is last minus first, the class follows the change, min ≤ mean ≤ max and min ≤ current ≤ max, and the cloud average is missing iff no point carries a cloud cover |
| SmhiWeather.TempTrendValues | smhi_weather.py:370-445 | the trend's mean is the mean of the forecast temperatures, its min and max are the smallest and largest of them, the hours are the requested horizon, the cloud average is the mean of the reported covers (missing when none), and the cloud condition is its classification |
| SmhiWeather.CloudCoversEmpty | smhi_weather.py:393-412 | the cloud average is missing exactly when no point carries a cloud cover |
| SmhiWeather.SolarInfluence | smhi_weather.py:521-537 | the solar adjustment is never negative and is zero (factor none) at night |
| SmhiWeather.ShouldReduceHeatingAsWritten | smhi_weather.py:483-535 | without a trend: no reduction with confidence 0; the decision raises exactly in daytime when no forecast point carried a cloud cover |
| SmhiWeather.ShouldReduceHeatingAsWrittenRaises | smhi_weather.py:528-529 | a daytime forecast without cloud data makes the decision raise |
| SmhiWeather.ShouldReduceHeating | smhi_weather.py:483-575 | with the missing cloud cover read as 8 octas, agrees with the code wherever the code does not raise |
| SmhiWeather.Decide | smhi_weather.py:539-580 | heating is reduced exactly when the indoor temperature is at least target minus margin and the outdoor trend is rising or the solar-adjusted change exceeds 2 degrees; the confidence is then the adjusted change over 5 capped at 1 for a rising trend and 0.8 otherwise, and 0.5 with no reduction; the solar factor is passed through |
| SmhiWeather.ReduceIffRising | smhi_weather.py:539-575 | for a trend as built, heating is reduced iff indoor is within the margin of the target and the outdoor trend is rising (the warming branch never fires alone); confidence lies in [0, 1] and on the rising branch is min(1, |solar-adjusted change|/5) |
| TemperatureForecaster.ResponseRatesFor | temperature_forecaster.py:94-115 | slow and fast buildings get their tabulated heating and cooling rates, every other response the medium ones; all rates are positive |
| TemperatureForecaster.PhysicsModel | temperature_forecaster.py:307-395 | below the band heating raises the temperature by at least 0.1 without passing the target; just below the target it closes at most half the heating rate, never past the target; within the upper band it holds (drifting at most 0.1 down, never below target − dev/2); above the band it cools, never below the target |
| TemperatureForecaster.EffectiveConfidence | temperature_forecaster.py:239-250 | no weight before 24 samples, half a confidence below 0.5, the full confidence otherwise; never more than the confidence |
| TemperatureForecaster.HourKey | temperature_forecaster.py:227 | an hour of the day is written as two digits |
| TemperatureForecaster.HourKeyParses | temperature_forecaster.py:227 | the key reads back as its hour |
| TemperatureForecaster.HourKeyInjective | temperature_forecaster.py:227 | distinct hours never share a key |
| TemperatureForecaster.BiasAt | temperature_forecaster.py:227-228 | an absent hour key means zero bias |
| TemperatureForecaster.PredictIndoor | temperature_forecaster.py:200-305 | the prediction is `Adjusted` (physics step plus the hour's bias times the effective confidence) when that lies in [target − dev − 1, target + dev + 0.5], the lower bound below it, the upper bound above it; it never leaves the band (the lower bound wins when the band is empty) |
| TemperatureForecaster.PredictWithoutBias | temperature_forecaster.py:200-305 | with no bias for the hour, or no confidence, the prediction is the physics step whenever that lies in the band |
| TemperatureForecaster.HourOf | temperature_forecaster.py:216 | the hour of a timestamp lies in 0..23 |
| TemperatureForecaster.SupplyPoints | temperature_forecaster.py:163-179 | a heat curve adds at most a baseline and a learned supply point, both at the entry's time |
| TemperatureForecaster.Readings | temperature_forecaster.py:142-154 | the usable entries are at most the entries given |
| TemperatureForecaster.IndoorChain | temperature_forecaster.py:181-191 | one chained indoor prediction per usable entry |
| TemperatureForecaster.FilterAppend | temperature_forecaster.py:139-198 | the indoor and outdoor points of joined point lists are those of each part joined |
| TemperatureForecaster.SupplyPointsNeither | temperature_forecaster.py:163-179 | supply points are neither indoor nor outdoor points |
| TemperatureForecaster.EntryPointsFilter | temperature_forecaster.py:156-188 | a usable entry contributes exactly one outdoor point and one indoor point, the prediction from the current indoor value |
| TemperatureForecaster.ForecastChainsIndoor | temperature_forecaster.py:120-198 | entries lacking a time or temperature are skipped; the indoor points are exactly the chain of predictions, each starting from the previous one, and the outdoor points are the usable entries' temperatures |
| TemperatureForecaster.OutdoorRows | temperature_forecaster.py:157-161 | one outdoor point per usable entry, carrying its time and temperature |
| TemperatureForecaster.IndoorChainBounded | temperature_forecaster.py:253-258 | every chained indoor prediction stays within the clamp band |
| TemperatureForecaster.AppendBounded | temperature_forecaster.py:416-429 | the new record is last; below 1000 entries it is simply appended; past 1000 only the newest 500 are kept, so the buffer never exceeds 1000 |
| TemperatureForecaster.HoursOf | temperature_forecaster.py:446-452 | the grouped hours are exactly the hours recorded in the buffer |
| TemperatureForecaster.BiasOverMeaning | temperature_forecaster.py:454-467 | a key is stored for exactly the significant hours among those listed, holding the blend of mean error and old bias |
| TemperatureForecaster.NewHourlyBiasMeaning | temperature_forecaster.py:446-467 | the new biases have a key for exactly the buffer's hours with at least three errors whose 0.8·mean + 0.2·old blend exceeds 0.05 in size, holding that blend, and no other key |
| TemperatureForecaster.FewSamplesNoBias | temperature_forecaster.py:457 | an hour with fewer than three recorded errors never gets a bias |
| TemperatureForecaster.Forecaster.constructor | temperature_forecaster.py:100-118 | a new forecaster takes its response rates from the building's thermal response and starts with an empty accuracy buffer |
| TemperatureForecaster.Forecaster.GenerateForecast | temperature_forecaster.py:120-198 | the forecast loop yields exactly the specified chained forecast |
| TemperatureForecaster.Forecaster.RecordAccuracy | temperature_forecaster.py:397-429 | the error actual − predicted is appended to the bounded buffer |
| TemperatureForecaster.Forecaster.UpdateHourlyBias | temperature_forecaster.py:435-487 | with fewer than ten records nothing changes and nothing is returned; otherwise the new biases are merged into the profile, its update time set, and the buffer cleared |
| TemperatureForecaster.EmitEntry | temperature_forecaster.py:156-188 | the points for one usable entry are outdoor, supply, then indoor |
| TemperatureForecaster.GroupByHour | temperature_forecaster.py:446-452 | the grouping loop gives each recorded hour exactly its errors, in buffer order |
| ThermalAnalysis.AddPoint | thermal_analyzer.py:75-113 | a sample lacking timestamp, room or outdoor temperature leaves the window unchanged; otherwise it is appended last and only the newest 672 samples are kept |
| ThermalAnalysis.IntervalCoefficient | thermal_analyzer.py:169-192 | a pair yields a coefficient only for a gap strictly between 0 and 2 h, no heater on either side and a mean outdoor temperature more than 2 °C from the average indoor one; the coefficient is below 0.5 in size |
| ThermalAnalysis.Coefficients | thermal_analyzer.py:168-192 | no coefficients from fewer than two samples; every coefficient lies in (−0.5, 0.5) |
| ThermalAnalysis.Rooms | thermal_analyzer.py:161 | one indoor temperature per sample |
| ThermalAnalysis.Outdoors | thermal_analyzer.py:162 | one outdoor temperature per sample |
| ThermalAnalysis.SpreadConfidence | thermal_analyzer.py:202-206 | confidence lies in [0, 1]: 1 without spread, 0 at a standard deviation of 0.1 or more |
| ThermalAnalysis.ThermalCoefficient | thermal_analyzer.py:136-226 | a result needs at least min_samples samples; its coefficient lies in [0, 0.5), its confidence in [0, 1], and it rests on at least five valid intervals |
| ThermalAnalysis.ThermalCoefficientAvailable | thermal_analyzer.py:155-196 | a coefficient is available iff there are enough samples and at least five valid intervals, whose count it reports |
| ThermalAnalysis.ThermalCoefficientValues | thermal_analyzer.py:159-211 | a result's coefficient is the absolute value of the mean of the valid interval coefficients, its confidence is `1 − stdev/0.1` kept in [0, 1], its sample count is the number of valid intervals, and it reports the mean indoor and outdoor temperatures and the window size |
| ThermalAnalysis.FewSamplesNoCoefficient | thermal_analyzer.py:169 | there is at most one coefficient per consecutive pair, so fewer than six samples never suffice |
| ThermalAnalysis.DriftTowardOutdoor | thermal_analyzer.py:251-266 | without heating, over a horizon with coefficient × hours ≤ 1, the prediction lies between the indoor and the outdoor temperature |
| ThermalAnalysis.ThermalAnalyzer.constructor | thermal_analyzer.py:33-49 | a new analyzer has an empty window |
| ThermalAnalysis.ThermalAnalyzer.AddDataPoint | thermal_analyzer.py:75-113 | the window becomes the bounded window with the sample added |
| ThermalAnalysis.ThermalAnalyzer.ThermalLag | thermal_analyzer.py:115-134 | no lag below four times min_samples stored samples, otherwise 6 hours |
| ThermalAnalysis.ThermalAnalyzer.CalculateThermalCoefficient | thermal_analyzer.py:136-226 | the analyzer's coefficient is the specified one over its window |
| ThermalAnalysis.ThermalAnalyzer.PredictTemperatureChange | thermal_analyzer.py:228-273 | no prediction iff no coefficient; otherwise indoor + coefficient·(outdoor − indoor)·hours, plus 1.5·hours/6 when heating |
| ThermalAnalysis.CoefficientOf | thermal_analyzer.py:155-226 | the coefficient loop computes exactly the specified result |
| ThermalInertia.LocalHour | thermal_inertia_test.py:126-129 | the local hour lies in 0..23 |
| ThermalInertia.NeedsCalibration | thermal_inertia_test.py:89-109 | a house never measured needs the test; one measured without a recorded time does not; otherwise it does iff the measurement is older than ten 30-day months |
| ThermalInertia.PresentTemps | thermal_inertia_test.py:148-149 | exactly the forecast temperatures that are present |
| ThermalInertia.ForecastSwingMeaning | thermal_inertia_test.py:150-153 | the max-minus-min test rejects exactly the forecasts in which two temperatures differ by more than 2 °C |
| ThermalInertia.CheckConditionsMeaning | thermal_inertia_test.py:111-155 | the test may start iff the local hour is from 23 to before 5, the wind is unknown or at most 3 m/s, the outdoor temperature is known and at least 20 °C below the setpoint, and a given forecast swings at most 2 °C |
| ThermalInertia.CooldownStep | thermal_inertia_test.py:208-222 | cooldown starts with no readings, the start and peak at the current temperature and the drop target one degree below; the rest of the test is kept |
| ThermalInertia.StartTestMeaning | thermal_inertia_test.py:157-206 | a started test records the start time and setpoint and heats, or goes straight to cooldown (target one degree below the current temperature) when the house is already 0.5 °C above the setpoint; either way its fields are consistent |
| ThermalInertia.Outdoors | thermal_inertia_test.py:290-300 | one outdoor temperature per cooldown reading |
| ThermalInertia.Fit | thermal_inertia_test.py:288-305 | the cooling fit spans the first to last reading; its end excess is the last indoor temperature and its start excess the cooldown start, each less the mean outdoor temperature of the readings, so they differ by the measured drop |
| ThermalInertia.FailTest | thermal_inertia_test.py:341-388 | a failure sets phase failed with its reason; a time constant is kept only for a timeout with at least six readings, a drop of at least 0.3 °C and a decaying fit, and is then stored as a partial measurement |
| ThermalInertia.FinishTestMeaning | thermal_inertia_test.py:278-388 | finishing keeps the readings and consistency; a non-success fails with its reason; a success with readings completes with a stored measurement or fails as invalid data; any stored value is the state's result, measured now |
| ThermalInertia.PollKeepsValid | thermal_inertia_test.py:224-276 | every poll keeps the phase fields consistent |
| ThermalInertia.CooldownPollMeaning | thermal_inertia_test.py:262-274 | a cooldown poll within time and window records one reading and asks to restore exactly when the drop target is reached, the test then completing or failing as invalid data; otherwise it continues the cooldown |
| ThermalInertia.HeatingPollMeaning | thermal_inertia_test.py:255-260 | a heating poll asks for heat until the setpoint + 0.5 °C is reached, then starts the cooldown from the current temperature |
| ThermalInertia.TimeoutRestores | thermal_inertia_test.py:245-248 | past eight hours any non-idle test fails with reason timeout and the caller restores |
| ThermalInertia.PollingCompletedTestInDaytimeFailsIt | thermal_inertia_test.py:239-253 | polling a completed test in the daytime ends it again, now failed for a closed window |
| ThermalInertia.AbortStep | thermal_inertia_test.py:410-415 | an active test fails with reason "aborted: …" and nothing else changes; an inactive test is untouched; afterwards no test is active |
| ThermalInertia.SupplyFor | thermal_inertia_test.py:390-404 | a supply is given iff the test is active: 15 °C in cooldown, the setpoint + 10 in heating |
| ThermalInertia.ThermalInertiaTest.constructor | thermal_inertia_test.py:75-87 | a new test object is idle and keeps the profile's time constant |
| ThermalInertia.ThermalInertiaTest.StartTest | thermal_inertia_test.py:157-206 | starting sets the specified start state and returns its action, keeping the fields consistent |
| ThermalInertia.ThermalInertiaTest.EnterCooldown | thermal_inertia_test.py:208-222 | the state takes the cooldown step and the action is to cool down |
| ThermalInertia.ThermalInertiaTest.FinishTest | thermal_inertia_test.py:278-388 | the state takes the finish step, a measured time constant is stored on the profile, and the action is always restore |
| ThermalInertia.ThermalInertiaTest.Poll | thermal_inertia_test.py:224-276 | the state and action are those of the poll step, a measured time constant is stored, and consistency is kept |
| ThermalInertia.ThermalInertiaTest.SupplyForPhase | thermal_inertia_test.py:390-404 | a supply temperature is given iff the test is active |
| ThermalInertia.ThermalInertiaTest.Abort | thermal_inertia_test.py:410-415 | the state takes the abort step and the stored time constant is untouched |
| WeatherEnergy.HeatingDegreeHours | energy_models/weather_energy_model.py:316-336 | nothing at or above the base temperature; below it, the shortfall times the hours |
| WeatherEnergy.HeatingDegreeHoursMeaning | energy_models/weather_energy_model.py:331-336 | degree hours are never negative over a non-negative span, and over a positive span are zero iff the effective temperature has reached the base |
| WeatherEnergy.EstimateHeatingEnergy | energy_models/weather_energy_model.py:339-359 | no energy when the effective temperature is at or above indoors |
| WeatherEnergy.EstimateNonNegative | energy_models/weather_energy_model.py:357-359 | with a non-negative coefficient and span the estimate is never negative |
| WeatherEnergy.EnergyIsCoefficientTimesDegreeHours | energy_models/weather_energy_model.py:316-359 | the estimate is the heat-loss coefficient times the degree hours against the indoor temperature |
| WeatherEnergy.ColderNeedsMoreEnergy | energy_models/weather_energy_model.py:357-359 | a colder effective temperature never needs less energy |
| WeatherEnergy.SimpleWeatherModel.constructor | energy_models/weather_energy_model.py:103-119 | the simple model keeps the three coefficients it is given |
| WeatherEnergy.CalibratedWeatherModel.constructor | energy_models/weather_energy_model.py:226-238 | the calibrated model keeps its building id, coefficients and calibration data |
| WeatherEnergy.ModelFactory.constructor | energy_models/weather_energy_model.py:275 | no default model is cached at first |
| WeatherEnergy.ModelFactory.GetWeatherModel | energy_models/weather_energy_model.py:279-309 | 'simple' without arguments returns the cached model, creating and caching a default one on first use; with arguments it builds a new model from them (defaults for the rest) and leaves the cache alone; 'calibrated' fails exactly without a building id; any other type fails |
| WeatherEnergy.DefaultModelIsShared | energy_models/weather_energy_model.py:295-301 | two argument-less requests for the simple model return the same instance |
| WeatherSensitivity.AppendBounded | weather_sensitivity_learner.py:228-229 | appending to a bounded buffer keeps exactly the newest min(n, length + 1) items, ending with the new one |
| WeatherSensitivity.BaselineStep | weather_sensitivity_learner.py:392-408 | only readings with the sun below 5 degrees join the window of the last eight; from two samples on the baseline becomes their upper median, before that it is left alone |
| WeatherSensitivity.BaselineStepBounded | weather_sensitivity_learner.py:398-408 | the window never grows past eight samples, and a baseline set from it is one of its samples, between their minimum and maximum |
| WeatherSensitivity.SensorExposed | weather_sensitivity_learner.py:410-436 | a reading 4 degrees above the baseline always counts as sun-exposed; with fewer than two buffered readings nothing else does |
| WeatherSensitivity.IsSolarCondition | weather_sensitivity_learner.py:438-475 | an observation is solar iff heating is minimal, indoors is 5 degrees above the baseline (or the reading), the sun is above 10 degrees, and the sky is clear or the sensor sun-exposed |
| WeatherSensitivity.EventFrom | weather_sensitivity_learner.py:477-554 | an event comes only from a started, non-empty run that lasted at least 30 minutes; it spans the run's first to last timestamps, counts its observations, uses the baseline as outdoor temperature when there is one, and its average sun elevation never exceeds the peak |
| WeatherSensitivity.AddObservationStep | weather_sensitivity_learner.py:323-390 | the observation is always buffered and the baseline always updated first |
| WeatherSensitivity.ClassifyStep | weather_sensitivity_learner.py:369-388 | classifying leaves the buffer and the baseline untouched |
| WeatherSensitivity.Recorded | weather_sensitivity_learner.py:384-387 | recording a completed event touches neither the buffer, the baseline nor the event in progress |
| WeatherSensitivity.AddObservationMeaning | weather_sensitivity_learner.py:323-390 | each observation keeps the current event well formed; an event is returned exactly when one is recorded, which appends it and bumps both counters, and it lasted 30 minutes with average delta below 0.5 and average sun above 10 degrees; otherwise the events and counters stay put |
| WeatherSensitivity.ExtendKeepsInvariant | weather_sensitivity_learner.py:372-378 | starting or extending the event with a solar observation keeps it well formed |
| WeatherSensitivity.CompletedEventIsSolar | weather_sensitivity_learner.py:500-554 | an event built from solar observations has solar averages |
| WeatherSensitivity.ShouldUpdateCoefficients | weather_sensitivity_learner.py:629-638 | an update is due iff the events since the last update reach the scheduled count |
| WeatherSensitivity.LastK | weather_sensitivity_learner.py:653 | a negative-index slice takes the last k items, and all of them when k is zero or beyond the length |
| WeatherSensitivity.NewCoefficient | weather_sensitivity_learner.py:659-669 | the upper median of three or more implied coefficients, else their mean; always between their minimum and maximum |
| WeatherSensitivity.NextEventThreshold | weather_sensitivity_learner.py:691-696 | the schedule moves 3 to 6 to 12 and then stays |
| WeatherSensitivity.UpdateCoefficients | weather_sensitivity_learner.py:640-701 | nothing changes without recent events; otherwise the coefficient is 70% new and 30% old, the counter resets, the schedule advances, the time is stamped, and the totals and wind coefficient are kept |
| WeatherSensitivity.UpdateCoefficientsBounds | weather_sensitivity_learner.py:671-681 | the blended coefficient lies between the old one and the extremes of the implied ones, and the confidence lies in [0, 1] |
| WeatherSensitivity.NoEventsNoUpdate | weather_sensitivity_learner.py:649-650 | with no detected events an update changes nothing |
| WeatherSensitivity.EarlyWarningStep | weather_sensitivity_learner.py:740-812 | below 5 degrees of sun the warning clears; without a baseline nothing happens; a warning is reported only when it starts, at the observation's time, with confidence at most 1; a warning is active only if it was or has just been raised |
| WeatherSensitivity.EarlyWarningReportedOnce | weather_sensitivity_learner.py:780-800 | once reported, a warning is not reported again on the next observation |
| WeatherSensitivity.UpdateThermalTiming | weather_sensitivity_learner.py:964-989 | only the lag of the transition's direction moves; the confidence is min(1, transitions / 10) and the time is stamped |
| WeatherSensitivity.TimingLagBetween | weather_sensitivity_learner.py:973-982 | with a confidence in [0, 1] the new lag lies between the old lag and the measurement |
| WeatherSensitivity.WeatherSensitivityLearner.constructor | weather_sensitivity_learner.py:198-229 | four buffer slots per hour, the given coefficients and timing, and an empty detector with no warning |
| WeatherSensitivity.WeatherSensitivityLearner.UpdateOutdoorBaseline | weather_sensitivity_learner.py:392-408 | the baseline window and value move as the baseline step says and nothing else changes |
| WeatherSensitivity.WeatherSensitivityLearner.FinalizeEvent | weather_sensitivity_learner.py:477-554 | returns the event built from the run and always clears the run, changing nothing else |
| WeatherSensitivity.WeatherSensitivityLearner.AddObservation | weather_sensitivity_learner.py:323-390 | the learner's new state and result are those of the observation step, so the event invariant and recording facts carry over |
| WeatherSensitivity.WeatherSensitivityLearner.ClassifyObservation | weather_sensitivity_learner.py:369-388 | the new state and result are those of the classification step |
| WeatherSensitivity.WeatherSensitivityLearner.UpdateCoefficientsNow | weather_sensitivity_learner.py:640-701 | the stored coefficients become the update of the old ones over the detected events, which are kept |
| WeatherSensitivity.WeatherSensitivityLearner.DetectSolarEventEarly | weather_sensitivity_learner.py:740-812 | the warning state and result follow the early-warning step with the learned heat-up lag as lead time; the detector state is unchanged |
| WriteThrottling.AllowStep | write_throttle.py:24-32 | a write is allowed iff the key has no record or the minimum interval has passed since it; an allowed write records now for that key, a refused one records nothing |
| WriteThrottling.FirstWriteAllowed | write_throttle.py:4-6 | the first write of a key after start is always allowed |
| WriteThrottling.OtherKeysUnaffected | write_throttle.py:26-31 | a call for one (measurement, house) key never adds, removes or changes another key's record |
| WriteThrottling.AllowedWriteThrottlesUntilInterval | write_throttle.py:24-32 | after an allowed write at t, the next call for that key is allowed iff it comes at or after t plus the interval |
| WriteThrottling.WriteThrottle.constructor | write_throttle.py:21-22 | a new throttle has no records |
| WriteThrottling.WriteThrottle.Allow | write_throttle.py:24-32 | the answer and new record map are those of the allow step at the given clock reading |
| WriteThrottling.ThrottleRegistry.constructor | write_throttle.py:13 | no instance exists at first |
| WriteThrottling.ThrottleRegistry.Get | write_throttle.py:15-19 | the first call creates an empty throttle and keeps it; every later call returns that same instance |

## Left out

- EnergyImporting.WriteToInflux: the InfluxDB write always succeeds here. In the source a failing write raises out of `write_to_influx`, so the meter's readings are not counted and nothing after it runs.
- EnergyImporting.ProcessFile: a failing InfluxDB write is not modelled. In the source that exception leaves `process_file` (and `run`) at once, so the file is neither counted nor deleted and later files are not processed.
- Common.ParseDecimal: rejects exponents ("1e3"), underscores between digits ("1_000"), surrounding whitespace, "inf" and "nan", all of which Python's `float` accepts.
- Common.ParseInt: rejects underscores between digits and surrounding whitespace, which Python's `int` accepts.
- ArrigoSignals.FetchMap: a signal key present with a JSON null reads as absent. The source would keep a null `signal_id`, `unit`, `category` or `min_value` as None in the entry instead of failing or falling back.
- Network and storage I/O are not modelled. This covers the HomeSide, Arrigo and EBO API clients, InfluxDB queries and writes, the SMHI download, Dropbox, Seq, e-mail and the language-model API. Their answers are parameters, and the points or files a function would hand them are results.
- Clocks are inputs. `datetime.now` and the monotonic clock become `now` parameters.
- Time zones and DST are inputs. Swedish midnight is a caller-supplied function. The thermal inertia test's local hour approximates Central European Time as UTC+1, and `_parse_timestamp` and `strptime` are caller-supplied parsers.
- ThermalInertia.LocalHour: approximates the local hour as UTC+1 and ignores daylight saving time, because `zoneinfo` is outside the model.
- Transcendental arithmetic is out: the effective temperature with wind and solar effects, sun elevation, the implied solar coefficient, `track_thermal_lag` and the logarithm that turns a cooling fit into the time constant τ. The τ result is kept as the fit it would be computed from.
- IEEE-754 hex decoding (`_hex_to_double`, `read_value`) and `statistics.stdev` are out. The standard deviation is a parameter, and only the bounds of the confidences built from it are proved.
- Floating point is out. Reals are exact, so no contract covers overflow, NaN or binary rounding.
- `round(x, n)` is not modelled. Stored values are exact where the source rounds them, except in the gap filler's signal statistics, where `round` is a parameter.
- TemperatureForecaster.PredictIndoor: the prediction, physics base and confidence are exact; the source rounds them to two decimals.
- TemperatureForecaster.Forecaster.UpdateHourlyBias: stores the unrounded blend; the source stores `round(blend, 3)`.
- WeatherSensitivity.UpdateCoefficients: the coefficient and the confidence are unrounded; the source rounds them to 1 and 2 decimals.
- WeatherSensitivity.UpdateThermalTiming: the new lag is unrounded; the source rounds it to one decimal.
- HeatingEnergySeparation.PeriodResult: the energies and the confidence are unrounded; the source rounds them to two decimals.
- EboControl.EboController.WriteAndVerify: does not state the wording of the returned message, and the pause before the read-back is left out.
- Log messages, reason texts, audit message strings and date formatting are not modelled. Only their presence and the data they carry are.
- `bcrypt` hashing is a caller-supplied function. Whitespace stripping and lower-casing cover ASCII only.
- Python dictionary iteration order is kept where it matters, as sequences of pairs. Elsewhere maps are unordered, and sorts with equal keys are stable by construction.
- The JSON files are the state of the objects that load and save them around every operation: profiles, users, conversations, the offboarding list and signal metadata. Parsing and serialising JSON is not modelled.
- CSV decoding of the provider file (quoting, encodings) is out. Rows arrive as lists of cells.
- `fill_gaps_in_range` is not modelled. It only chains the gap search and the range fill, which are modelled.
- The partial writes of `fill_time_range` when InfluxDB fails mid-batch are out. A batch is written whole.
- `copy_thermal_constant` is out because it copies between profile files.
- `load_conversation` is out because it is a plain dictionary lookup.
- Orchestrator process handling is out: subprocess spawning, `stop_child` signals, `scan_configs` directory scanning, the purge schedule and `main`. A start or stop is recorded in the children map.
- The duplicate queries of the importers are parameters. This covers the energy importer's stored readings and the import service's existing timestamps.
- Station caching and station selection in the SMHI client (haversine distance) are out. The decision takes a forecast and a night flag.
- Concurrency is out. The process-wide singletons (write throttle, default weather model) are modelled for one thread.

## Findings

| source | as written | input that shows it | evidently intended | confidence | as-written member | corrected member |
|---|---|---|---|---|---|---|
| smhi_weather.py:523-535 | in daytime the decision compares `trend.get('avg_cloud_cover', 8)` with 2 and 5, but the key is present with value None when no forecast point had a cloud cover, so `None < 2` raises TypeError | a daytime decision over a forecast of 5.0 and 8.0 °C with no cloud data | a missing cloud cover counts as the default 8 octas (overcast, no solar adjustment) | not executed | SmhiWeather.ShouldReduceHeatingAsWritten | SmhiWeather.ShouldReduceHeating |
