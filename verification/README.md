# utraque: a verified model of its state machines and scanners

utraque is a local proxy between coding assistants and several model providers. This
project models, in Dafny, the parts of it that hold state, branch a lot or do arithmetic
that has to come out right, and proves what they promise. `dafny verify dfyconfig.toml`
checks everything.

| part | modules |
|---|---|
| lower-bound token counter and its memo | `TokenRuns`, `TokenPieces`, `TokenCount`, `TokenMemo` |
| server-sent-event codec | `SseFormat`, `SseStandard`, `SseCodec` |
| regular-expression translator, DeepSeek dialect | `PatternLexer`, `PatternLaws`, `PatternMeaning`, `PatternWriter` |
| request coalescing with cooldown | `Cooldown`, `HttpState`, `Coalesce`, `CoalesceAnswers` |
| idle timer and drain check | `IdleTimer`, `IdleDrain` |
| daily usage history and its report | `Ledger`, `UsageHistory`, `UsageRows`, `ProviderReport` |
| mid-conversation tool changes | `ToolSet`, `ToolChanges`, `ToolLaws`, `ToolMeaning` |
| what stored provider reports remember | `ReportMemory`, `ReportLaws` |
| router aliases | `Versions`, `Aliases`, `AliasNames` |

`Wrappers`, `Spaces`, `Decimals`, `Texts` and `Sorting` hold what several of them share.

Code that updates state in place is a class or a method with loops, proved equal to a
function of its inputs or of the old state; the laws are lemmas about those functions. The
two concurrent protocols are state machines whose steps are the sections under a lock, run
in any order.

## How each part is modelled

**Token counter.** A text is a sequence of runes, each with a class, a byte width and an
apostrophe flag; positions are rune indices. The split of the text into pieces is any
tiling by the piece shapes the source describes (a letter piece with its lead rune and its
contraction, digits, a symbol run), and the codec is any function that counts the pieces
of a span between cuts. The result is proved below the token count of every such tiling,
and, span by span, equal to the tokens of what the codec answers for.
Where the codec may be called is explicit: a span it is handed ends after a letter or a
digit, or at the end of the text.

**SSE codec.** `SseFormat` reads a stream byte by byte; it is the reference. The Scanner
of the source, which pulls lines and looks one byte past a CR, is proved to read the same.
`SseStandard` is the reader of section 9.2.6 of the HTML Standard, line by line, with its
own line rule.

**Pattern translator.** A pattern is a sequence of bytes, one `char` below 256 each. All
bytes are modelled. Go's own parser is the predicate `accepts` on the twin. The laws of
`PatternMeaning` speak of code points and of the forms of a token, not of the lexer's own
helpers.

**Coalescing.** A request reads the clock, and only later takes the lock, so every
decision may be made on an old reading. Reading, locking, sending, concluding, waking and
canceling are separate steps. The parser of HTTP dates is a function parameter. A log
notes what happened: who was taken up, what was sent, what each leader received. The laws
about answers, admissions and eviction are read off the log alone.

**Idle timer.** `Held`, `Serving` and `Refusing` are the points between the hold, the
check and the release of a request. Timing laws assume a punctual runtime, stated as
`Punctual`.

**Usage.** Decoded JSON is the input, with a missing field as `None`. The library's date
parser, the largest finite cost and the guess of a leg from a model name are parameters.
Costs are reals. `UsageRows` states what the rows are, and which reports are accepted, on
the raw report by index.

**Tool changes, report memory, aliases.** Decoded values throughout; the lower-casing of
slugs is a parameter. `ToolMeaning` reads a conversation's outcome off its blocks,
`ReportLaws` a stored section off the attempts before it, and `AliasNames` the names of a
catalog off its slugs, letter by letter.

## Where the code and its documentation differ

The model follows the code.

- `internal/tokens/o200k.go:140-143` calls the region around a long run the smallest one
  with cuts at both ends. It is, if and only if no apostrophe that carries marks stands as
  the first cut above the run: such an apostrophe is taken for a contraction
  (`TokenCount.SmallestUnlessMarked`, with `TokenCount.MarkedIsPassed` as an input). The
  bound holds regardless. The walk back from a lone long apostrophe (lines 177-180) could
  pass a cut too, but the count never asks for it (`TokenCount.ApostropheNotAlone`).
- `internal/sse/scanner.go:109-113` keeps the event name of a block that had no data for
  the next block; section 9.2.6 of the HTML Standard clears it. A block still pending at
  the end of the stream is dispatched, deliberately, where the standard discards it. Read to
  the end, a stream has the standard's frames if and only if no frame takes a kept name
  and no data is pending (`SseStandard.AgreesWithStandard`); `SseStandard.KeptName` and
  `SseStandard.PendingIsRead` are inputs.
- `internal/toolschema/pattern.go:342` echoes a byte through `string(c)`, so a byte of
  0x80 or more outside a class comes out as two (`PatternLaws.AccentIsMangled`); and a
  property name that is a bare `^` or starts with `^^` does not come out of a second
  translation as it came out of the first (`PatternLaws.CaretIsRespelled`). Translation is
  idempotent exactly on patterns without these (`PatternLaws.TranslateAgain`).
- `internal/router/registry.go:288-292` calls the text comparison of odd version segments
  good enough. A number too large for an int goes round in a circle with numbers that fit
  if and only if one of its first 18 digits is not a nine (`Versions.CircleIff`, with
  `Versions.TooLargeGoesRound` as an input). The tiers still do not depend on catalog
  order, because the catalog is sorted first (`Aliases.OrderDoesNotMatter`).
- `internal/router/registry.go:101-103` says that the bare alias of a slug without a
  codename already names the exact version. It does for a version with a dot
  (`AliasNames.DottedIsExact`); a bare number is also what a codename may look like, and
  goes to the newer version that carries it (`AliasNames.NumberIsTaken`).
- `internal/providerreport/handler.go:328` makes room in a full cache even when the key is
  already there, so a refresh drops a report if and only if the cache is full and the
  key's own is not the one chosen to go (`ReportMemory.RefreshKeeps`, with
  `ReportMemory.RefreshDrops` as an input).

## Model

| member | source | states |
|---|---|---|
| `TokenRuns.RunEnd` | internal/tokens/o200k.go:244-285 | the forward scan finds the class and the end of the run that the marks, letters and digits from a position on declare |
| `TokenRuns.MarksBefore` | internal/tokens/o200k.go:309-320 | finds the first of the marks that end at a position |
| `TokenRuns.PrevRun` | internal/tokens/o200k.go:328-379 | the backward scan finds the class and the start of the run of the whole text that ends at a run boundary |
| `TokenRuns.Mirror` | internal/tokens/o200k.go:220-379 | at every boundary, the backward scan from the end of the run that starts there comes back to it with the same class |
| `TokenRuns.ScanFromBoundary` | internal/tokens/o200k.go:244-285 | started at a boundary, the forward scan finds the run of the whole text though it knows nothing of what came before |
| `TokenPieces.SafeIsCut` | internal/tokens/o200k.go:140-171 | no piece, with its lead rune or its contraction, straddles a safe position |
| `TokenPieces.CutIffSafe` | internal/tokens/o200k.go:145-154 | on run boundaries safe is exact: where it fails some allowed piece does reach across |
| `TokenPieces.TokensCoverBytes` | internal/tokens/o200k.go:411-424 | between two cuts, whole tokens of at most 128 bytes cover the bytes, in every tiling |
| `TokenCount.FloorTokens` | internal/tokens/o200k.go:419-424 | the least number of 128-byte tokens that can hold n bytes, none for n at most zero |
| `TokenCount.ContractionStart` | internal/tokens/o200k.go:202-219 | the backward walk ends at a cut that is not before a digit, and passes no other cut but an idle apostrophe's |
| `TokenCount.RegionEnd` | internal/tokens/o200k.go:183-194 | the forward walk ends at the first cut that is not a marked apostrophe, and the cuts it passes are exactly the marked apostrophes |
| `TokenCount.Region` | internal/tokens/o200k.go:140-195 | a region starts at the last cut below the run and ends at the first cut above it that is not a marked apostrophe, unless it walks back from a lone apostrophe that contracts nothing |
| `TokenCount.SmallestUnlessMarked` | internal/tokens/o200k.go:140-143 | a region is the smallest range around its run with cuts at both ends if and only if no marked apostrophe lies above the run in it |
| `TokenCount.MarkedIsPassed` | internal/tokens/o200k.go:187-193 | on letter, apostrophe, mark, letter the region of the first letter is the whole text, though the apostrophe is a cut |
| `TokenCount.ApostropheNotAlone` | internal/tokens/o200k.go:119-126 | the count never asks for the walk back from a lone apostrophe: the letters before it would have been long themselves |
| `TokenCount.ClampIsIdle` | internal/tokens/o200k.go:126-136 | the walk never crosses the end of an earlier region, so the clamp never changes anything |
| `TokenCount.SpanIsLower` | internal/tokens/o200k.go:386-395 | a span handed to the codec is charged at most its tokens, errors and negative counts included |
| `TokenCount.ChargeIsLower` | internal/tokens/o200k.go:113-138 | the regions and the spans between them are charged at most their tokens, for any number of regions |
| `TokenCount.WholeIsLower` | internal/tokens/o200k.go:113-138 | regions, spans and the last span together are at most the token count of every tiling |
| `TokenCount.WholeIsExact` | internal/tokens/o200k.go:106-138 | for every tiling the codec counts, the total is, span by span, the exact tokens of each span outside the regions that the codec answers, and the least number of 128-byte tokens for each region and each span it does not |
| `TokenCount.ShortIsOneCall` | internal/tokens/o200k.go:109-112 | a text with no long run has no region and is worth the codec's answer for all of it |
| `TokenCount.Count` | internal/tokens/o200k.go:113-138 | for every text and every limit the count is a lower bound of every tiling and exact in the sense above; every long run of letters or symbols lies in a charged region, every region is that of a long run, and without one the count is one answer of the codec |
| `TokenCount.RuneByRune` | internal/tokens/o200k.go:145-154 | every text has a tiling and a codec that counts it, so the bound is about something |
| `TokenMemo.Memo.Lookup` | internal/tokens/o200k.go:528-539 | a hit returns what is held, and an old hit is copied forward |
| `TokenMemo.Memo.Store` | internal/tokens/o200k.go:541-545 | inserts into the young generation, rotating when it is full |
| `TokenMemo.Memo.Estimate` | internal/tokens/o200k.go:79-89 | returns the uncached count and leaves it in the young generation |
| `TokenMemo.HitsAreExact` | internal/tokens/o200k.go:487-553 | after any run of lookups and stores a hit is the uncached count |
| `TokenMemo.SizeBounded` | internal/tokens/o200k.go:461-468 | after any run at most two generations are held |
| `TokenMemo.Survives` | internal/tokens/o200k.go:481-486 | a key just found or stored survives the next cap insertions, whatever they are |
| `TokenMemo.SurvivalIsTight` | internal/tokens/o200k.go:547-553 | whatever the cap, one insertion more can lose it |
| `SseFormat.SplitField` | internal/sse/scanner.go:192-206 | the line is put together again from its name, a colon, perhaps one space, and its value; the name holds no colon |
| `SseFormat.Truncation` | internal/sse/scanner.go:64-96 | a stream cut anywhere yields frames the whole stream yields, and one more exactly when the block pending at the cut had a data line; broken off by an error, it yields no more |
| `SseFormat.RoundTrip` | internal/sse/writer.go:55-89 | what is written reads back as exactly the same frames if and only if events hold no CR or LF, data holds no CR and every line fits |
| `SseFormat.ReadsClean` | internal/sse/scanner.go:147-151 | no frame read from any stream holds a terminator in its event or a CR in its data |
| `SseFormat.IgnoredLine` | internal/sse/scanner.go:115-137 | a comment, or a line whose field is neither event nor data, fed with its terminator to a reader at the start of a line, gives the reader back |
| `SseFormat.IgnoredIsNothing` | internal/sse/scanner.go:115-137 | such a line can be taken out of a stream without changing what is read |
| `SseStandard.ReadByLines` | internal/sse/scanner.go:71-139 | the byte reader is the reader that cuts off one whole line after another |
| `SseStandard.SideBySide` | internal/sse/scanner.go:71-139 | read line by line beside the reader of section 9.2.6 of the HTML Standard, a stream has as many frames, and one more when it leaves data pending; they are the same if and only if it leaves none and none takes a name kept past a blank line |
| `SseStandard.AgreesWithStandard` | internal/sse/scanner.go:64-139 | read to the end, a stream has the standard's frames if and only if no frame takes a kept name and no data is pending at the end |
| `SseStandard.PendingIsRead` | internal/sse/scanner.go:88-99 | data lines without their blank line are dispatched here and discarded by the standard |
| `SseStandard.KeptName` | internal/sse/scanner.go:105-125 | an event line, a blank line and data: the code keeps the name and the standard does not |
| `SseCodec.CutIsRead` | internal/sse/scanner.go:152-190 | cutting off a line with the look-ahead past a CR and taking it whole is what the byte reader does |
| `SseCodec.DispatchedFirst` | internal/sse/scanner.go:98-106 | a blank line after data dispatches that frame before all that remains |
| `SseCodec.Scanner.ReadLine` | internal/sse/scanner.go:152-190 | returns the next line, or the error, and leaves the rest of the stream |
| `SseCodec.Scanner.Scan` | internal/sse/scanner.go:71-140 | returns the first of the frames that remained, or ends as the stream ends |
| `SseCodec.Scanner.Drain` | internal/sse/scanner.go:71-145 | scanning to the end yields exactly the frames and the ending of the byte reader |
| `SseCodec.AcceptConcat` | internal/sse/writer.go:113-138 | writing in parts or at once leaves the same bytes and the same sticky error |
| `SseCodec.FrameWriter.WriteFrame` | internal/sse/writer.go:60-89 | writes the encoding of the frame, or as much of it as the sink took before failing |
| `SseCodec.WriteThenScan` | internal/sse/scanner.go:147-151 | writing frames and scanning them back gives the same frames and no error exactly when they are clean and fit |
| `PatternWriter.Writer.Token` | internal/toolschema/pattern.go:283-344 | one token advances the lexer and appends its two spellings |
| `PatternWriter.Writer.Run` | internal/toolschema/pattern.go:280-346 | the loop accepts what the lexer accepts and writes its two spellings |
| `PatternWriter.Writer.Quantifier` | internal/toolschema/pattern.go:371-396 | a quantifier and its lazy or possessive suffix |
| `PatternWriter.Writer.Repeat` | internal/toolschema/pattern.go:431-448 | a counted repeat, its counts clamped in the twin |
| `PatternWriter.Translate` | internal/toolschema/pattern.go:248-257 | refuses exactly what the lexer or Go's parser refuses |
| `PatternLaws.NextAgain` | internal/toolschema/deepseek.go:43-146 | the wire form of a token is one token again, spelled as it stands, in the same state |
| `PatternLaws.OctalAgain` | internal/toolschema/deepseek.go:43-146 | a short hexadecimal or octal escape, read again, is an escape and two digits with the same spellings |
| `PatternLaws.RunAgain` | internal/toolschema/pattern.go:280-346 | the wire form of a pattern spells itself, with the same twin, if and only if the pattern holds no trap |
| `PatternLaws.TranslateAgain` | internal/toolschema/pattern.go:245-257 | translation is idempotent exactly on the patterns without a trap |
| `PatternLaws.AccentIsMangled` | internal/toolschema/pattern.go:341-343 | an accented letter outside a class is echoed as four bytes |
| `PatternLaws.CaretIsRespelled` | internal/toolschema/deepseek.go:47-60 | a doubly negated property, such as `\p{^^L}`, loses one negation in each translation |
| `PatternLaws.Unchanged` | internal/toolschema/pattern.go:245-247 | a pattern comes back as it was exactly when no token needed rewriting |
| `PatternLaws.WireIsClean` | internal/toolschema/pattern.go:245-257 | what is sent for a pattern without a trap holds none of the forms that need rewriting |
| `PatternMeaning.TokenWire` | internal/toolschema/deepseek.go:43-146 | every token goes out as it stands, but for an octal escape, `\Z`, a negated property, class syntax, and the echo of a high byte, whose forms are given |
| `PatternMeaning.TokenTwin` | internal/toolschema/pattern.go:283-344 | the twin of a token that opens no group: a literal, an assertion or nothing for what Go lacks, one item in a class, nothing for a possessive plus, and otherwise the wire form |
| `PatternMeaning.OctalIsKept` | internal/toolschema/deepseek.go:121-128 | a NUL escape takes the octal digits that follow, two at most, and becomes two hexadecimal digits of the same value, on the wire and in the twin |
| `PatternMeaning.PointIsKept` | internal/toolschema/deepseek.go:73-90 | a hexadecimal escape goes out as it stands, and its twin names the same code point |
| `PatternMeaning.ControlIsKept` | internal/toolschema/deepseek.go:115-120 | the twin of a control escape names its letter's position in the alphabet |
| `PatternMeaning.EscapeTaken` | internal/toolschema/deepseek.go:43-146 | an escape is accepted exactly when it has one of the forms of the engine |
| `PatternMeaning.GroupTaken` | internal/toolschema/deepseek.go:162-222 | a "(?" construct is accepted exactly when it is a group, a comment, a named backreference, or well-formed flags |
| `PatternMeaning.GroupBalance` | internal/toolschema/deepseek.go:162-222 | the twin opens a parenthesis exactly when the construct does |
| `PatternMeaning.SpelledIsRead` | internal/toolschema/pattern.go:398-429 | whatever starts with a spelled repeat is read as its bounds |
| `PatternMeaning.ReadIsSpelled` | internal/toolschema/pattern.go:398-429 | and what is read as bounds starts with them spelled out |
| `PatternMeaning.RepeatIsClamped` | internal/toolschema/pattern.go:431-448 | the twin of a repeat is a repeat of the same form, each count the smaller of itself and 1000 |
| `PatternMeaning.QuantifierTaken` | internal/toolschema/pattern.go:371-396 | a quantifier is refused only after a possessive one or with its counts inverted, and which are lazy, possessive or literal |
| `PatternMeaning.BracketTaken` | internal/toolschema/pattern.go:283-344 | which bracket opens or closes a class, and how much it takes |
| `PatternLaws.CompareDecimalValue` | internal/toolschema/pattern.go:456-467 | decimal strings of any length and any leading zeros compare as their values |
| `PatternLaws.ClampValue` | internal/toolschema/pattern.go:469-480 | a clamped count is the smaller of the count and 1000 |
| `PatternLaws.RepeatIsOrdered` | internal/toolschema/pattern.go:398-448 | exactly the repeats in order are accepted, and clamping keeps them in order |
| `Cooldown.FallbackBackoff` | internal/providerquota/http.go:259-271 | the loop computes 2^(n-1) minutes, capped at 15 |
| `Cooldown.BackoffGrows` | internal/providerquota/http.go:259-271 | the wait never shrinks from one refusal to the next, and is the cap exactly from the fifth on |
| `Cooldown.LaterIsExact` | internal/providerquota/http.go:280-288 | the 64-bit sums never wrap |
| `Cooldown.SecondsAreExact` | internal/providerquota/http.go:273-288 | a number of seconds is added exactly, or refused once the sum leaves the year 9999 |
| `Cooldown.NeverPast` | internal/providerquota/http.go:275-299 | no header is read as a time already past |
| `HttpState.Shared.MakeRoom` | internal/providerquota/http.go:212-231 | drops one of the least recently touched spare entries of a full table, and says so when there is none |
| `HttpState.Shared.AcquireLocked` | internal/providerquota/http.go:162-203 | the locked section: cooling, following, leading, or full |
| `HttpState.Shared.FinishLocked` | internal/providerquota/http.go:233-257 | the guarded conclusion of a flight, with the cooldown of a refusal |
| `HttpState.Shared.WaiterDoneLocked` | internal/providerquota/http.go:206-210 | one waiter fewer |
| `Coalesce.StepKeeps` | internal/providerquota/http.go:158-257 | every step of every thread keeps the invariant of entries, flights, threads and cooldowns |
| `Coalesce.GuardHolds` | internal/providerquota/http.go:233-237 | the guard in finish always holds for the leader of a flight |
| `Coalesce.OneLeader` | internal/providerquota/http.go:175-203 | no two threads lead one flight, or flights of one scope |
| `Coalesce.Coalesced` | internal/providerquota/http.go:158-257 | in every interleaving: at most 64 entries, one open flight a scope, no waiter stranded, everyone answered by a flight got the same answer, and waiters are counted right |
| `Coalesce.ClosedOnce` | internal/providerquota/http.go:233-257 | a closed flight keeps its result for good |
| `Coalesce.CooldownsHold` | internal/providerquota/http.go:162-174 | no request starts before a recorded cooldown of its scope is over, and nobody is turned away by a cooldown no response asked for |
| `Coalesce.EvictionSpares` | internal/providerquota/http.go:212-231 | making room drops neither a live flight nor a running cooldown |
| `Coalesce.WaitsGrow` | internal/providerquota/http.go:240-249 | with no usable header the n-th refusal in a row waits the n-th backoff |
| `Coalesce.WaitsForDate` | internal/providerquota/http.go:290-298 | a header that is a date not yet past starts a cooldown until exactly that date |
| `Coalesce.WaitsForSeconds` | internal/providerquota/http.go:280-288 | a header that is a number of seconds starts one of exactly that long, within the year 9999 |
| `CoalesceAnswers.AnswersAreReceived` | internal/providerquota/http.go:233-257 | in every interleaving whoever a flight answers, leader or follower, holds what its leader received: after a refusal the rate-limit error with the cooldown on record and the time of that send, otherwise exactly that body and error |
| `CoalesceAnswers.EnterDecides` | internal/providerquota/http.go:158-203 | at every reachable point a request is turned away with the standing refusal's times, follows the flight under way, is crowded out, or leads, by the log and the flights alone |
| `CoalesceAnswers.EvictsOldest` | internal/providerquota/http.go:212-231 | the scope that makes room was, by the log, taken up or refused no later than any other that could |
| `IdleTimer.Timer.constructor` | internal/idle/idle.go:58-71 | a new timer has recorded activity now and nothing else |
| `IdleTimer.Timer.Start` | internal/idle/idle.go:85-97 | arms the timer once, and not when disabled or stopped |
| `IdleTimer.Timer.Touch` | internal/idle/idle.go:104-111 | records activity |
| `IdleTimer.Timer.Hold` | internal/idle/idle.go:115-122 | one more hold, and activity recorded |
| `IdleTimer.Timer.Release` | internal/idle/idle.go:124-134 | one hold fewer, and activity recorded |
| `IdleTimer.Timer.Stop` | internal/idle/idle.go:169-179 | stops for good and disarms |
| `IdleTimer.Timer.Expire` | internal/idle/idle.go:183-209 | fires, or looks again when held or early |
| `IdleDrain.StepKeeps` | internal/idle/idle.go:113-207 | every step keeps the invariant: holds counted, the callback called at most once, nobody served after it |
| `IdleDrain.DrainSafe` | internal/server/middleware.go:160-201 | in every interleaving no request is being served once the timer has fired, and the callback is called at most once |
| `IdleDrain.RefusedOnlyFired` | internal/server/middleware.go:169-201 | in every interleaving a request is refused only once the timer has fired, and only by a server that asks |
| `IdleDrain.FiresOnlyIdle` | internal/idle/idle.go:183-209 | the step that fires finds no hold, a whole timeout since the last activity, and no Stop before |
| `IdleDrain.ActivityDefers` | internal/idle/idle.go:100-135 | after any activity, whatever follows, the step that fires comes a whole timeout later at the earliest |
| `IdleDrain.StopIsFinal` | internal/idle/idle.go:167-179 | nothing fires after a Stop |
| `IdleDrain.StopDisarms` | internal/idle/idle.go:167-179 | a Stop that finds no wakeup due leaves none to come |
| `IdleDrain.SafeIffChecked` | internal/server/middleware.go:169-201 | an enabled timer's server never serves after the timer fired, in all interleavings, if and only if it makes the check after the hold |
| `IdleDrain.StaysPrompt` | internal/idle/idle.go:183-209 | while it waits, a started timer always has a wakeup due or armed within one timeout |
| `IdleDrain.HeldIsPatient` | internal/idle/idle.go:183-209 | a wakeup that finds the timer held is followed by the next a whole timeout later at the earliest, whatever happens in between |
| `IdleDrain.FiresOnTime` | internal/idle/idle.go:19-23 | once the last hold is released and nothing else happens, the callback is called exactly timeout after the release, with at most one early wakeup |
| `Ledger.TallyIs` | internal/usagehistory/collect.go:358-386 | a row holds exactly the sums of its key's entries, and exactly the keys with an entry have one |
| `Ledger.NothingLost` | internal/usagehistory/collect.go:319-346 | the rows of all the keys add up to all the entries |
| `UsageHistory.SumTokens` | internal/usagehistory/collect.go:581-591 | the sum, or nothing when it does not fit 64 bits |
| `UsageHistory.ValidateTotals` | internal/usagehistory/collect.go:395-408 | accepts exactly complete totals with a valid cost whose categories add up |
| `UsageHistory.AddVector` | internal/usagehistory/collect.go:430-441 | adds column by column, or refuses when any column does not fit |
| `UsageHistory.ModelTokenVector` | internal/usagehistory/collect.go:422-428 | the unchecked total never wraps on a breakdown already added |
| `UsageHistory.AddDailyModel` | internal/usagehistory/collect.go:348-393 | adds exactly the well-formed breakdowns whose row still fits |
| `UsageHistory.CollectDaily` | internal/usagehistory/collect.go:254-317 | accepts exactly the reports whose parts add up to their totals in unbounded arithmetic: no overflow check refuses one of them |
| `UsageHistory.ParseDaily` | internal/usagehistory/collect.go:254-346 | the rows, by day, source and model: one a key, holding its exact sums, its leg, and a cost only when every breakdown with tokens has one |
| `UsageHistory.Conserved` | internal/usagehistory/collect.go:254-346 | each of the five columns summed over the rows equals the report's total |
| `UsageHistory.RowsDated` | internal/usagehistory/collect.go:274-281 | no row is outside the days asked for |
| `UsageRows.RowsAreRaw` | internal/usagehistory/collect.go:348-366 | there is a row of a date, source and model if and only if some day of that date has an agent of that label with a breakdown of that name, and never two |
| `UsageRows.RowIsRaw` | internal/usagehistory/collect.go:348-393 | each column of a row is the sum of that field over exactly those breakdowns, its leg is the one its model suggests, and it has their cost if and only if each of them that used tokens has one |
| `UsageRows.AcceptedIff` | internal/usagehistory/collect.go:254-323 | the reports accepted are exactly the complete ones whose agents, days and totals add up in every column, and whose rows have a finite cost |
| `ProviderReport.AggregateModels` | internal/providerreport/report.go:278-321 | the lines, by model and source: one for each source and model of a leg in range, its columns the sums modulo 2^64, its cost and its rate for a token there only when every row has a cost and there are tokens |
| `ProviderReport.LinesAreRows` | internal/providerreport/report.go:278-321 | a source and model have a line if and only if some row of the leg in range has them; it holds the sums of those rows, and their cost when each has one and there are tokens |
| `ProviderReport.NoWrap` | internal/providerreport/report.go:284-295 | when the rows together fit, no line wraps and nothing is lost |
| `ProviderReport.LegsConserve` | internal/providerreport/report.go:75-84 | on every report the parser accepts, the three legs and the unattributed rest add up to the totals, column by column |
| `ProviderReport.LinesAreExact` | internal/providerreport/report.go:278-301 | on such a report no line of any leg wraps, whatever range of days it covers |
| `ToolSet.Tools.constructor` | internal/anthropic/schema/content.go:117-133 | one slot a name, known under its first slot unless nameless |
| `ToolSet.Tools.ApplyBlock` | internal/anthropic/schema/content.go:158-198 | one block checked and applied |
| `ToolSet.Tools.ListRemoved` | internal/anthropic/schema/content.go:200-214 | each removed name once, in slot order |
| `ToolSet.RemovedAre` | internal/anthropic/schema/content.go:200-214 | the list has no duplicates and holds exactly the removed names |
| `ToolSet.HoistedAre` | internal/anthropic/schema/content.go:216-226 | the list has no duplicates and holds exactly the active names whose slot is past the request's |
| `ToolSet.Tools.ListHoisted` | internal/anthropic/schema/content.go:216-226 | the active names past the request's own |
| `ToolSet.ApplySound` | internal/anthropic/schema/content.go:97-115 | a known name keeps its first slot, only known names are removed, and a name defined by a block has one slot |
| `ToolChanges.ResolveToolChanges` | internal/anthropic/schema/content.go:240-286 | the typed driver: the first refused block, or the active tools and the two lists of names |
| `ToolChanges.HoistToolChanges` | internal/deepseek/toolchange.go:48-111 | the rewriting driver: the same over the request, which it rewrites |
| `ToolChanges.HoistFromMessage` | internal/deepseek/toolchange.go:146-211 | one message without its change blocks, the set and the slots kept in step |
| `ToolLaws.DriversAgree` | internal/anthropic/schema/content.go:97-103 | on every conversation the two drivers refuse the same block for the same reason, or advertise the same tools in the same order, up to deferral, and report the same names |
| `ToolLaws.AdvertisedIff` | internal/anthropic/schema/content.go:158-168 | a name is advertised exactly when it is declared and the last block about it is not a removal |
| `ToolLaws.ReportedIff` | internal/anthropic/schema/content.go:228-239 | the names reported removed are those declared and last removed, and the names reported hoisted are the advertised ones the request did not list, once each |
| `ToolLaws.DeferredIff` | internal/deepseek/toolchange.go:27-33 | after the rewrite a slot is deferred if and only if the request deferred it and no block called for its name, by reference or by bringing it back |
| `ToolLaws.SlotsInOrder` | internal/anthropic/schema/content.go:104-109 | the slots are the request's tools, then each name the conversation introduced, in its order |
| `ToolLaws.FirstWins` | internal/anthropic/schema/content.go:165-166 | in either driver, while no block removes an active name, no later definition changes it |
| `ToolLaws.LatestAfterRemoval` | internal/anthropic/schema/content.go:167-168 | a definition after a removal replaces the old one in its old slot and touches no other |
| `ToolLaws.OnlyChangesLeave` | internal/deepseek/toolchange.go:37-43 | the rewritten messages hold no change block and lose nothing else |
| `ToolLaws.HoistAgain` | internal/deepseek/toolchange.go:48-111 | rewriting the rewritten request changes nothing |
| `ToolMeaning.RefusedIff` | internal/anthropic/schema/content.go:61-97 | a conversation is refused at a block, for a reason, if and only if that is what is wrong with the block, in view of the blocks before it, and nothing is wrong with any of those |
| `ToolMeaning.AcceptedIff` | internal/anthropic/schema/content.go:61-97 | it is accepted, by both drivers, exactly when nothing is wrong with any block |
| `ToolMeaning.AdvertisedInOrder` | internal/anthropic/schema/content.go:200-286 | the advertised names are the request's and then the introduced ones, less those gone, in that order; the hoisted and the removed names are in order too |
| `ToolMeaning.DefinitionsRule` | internal/anthropic/schema/content.go:158-198 | each advertised tool carries the request's first definition of its name, or the last one a block brought while the name was undeclared or removed |
| `ToolMeaning.ChoiceIff` | internal/deepseek/toolchange.go:91-111 | the rewritten request loses its tool choice and its tools if and only if every tool it had or was given is gone |
| `ToolMeaning.RequestSays` | internal/deepseek/toolchange.go:67-90 | a rewritten request holds exactly the messages that said more than changes, in order, each without its change blocks and otherwise as it was |
| `ReportMemory.MarkCodexUnavailable` | internal/providerreport/handler.go:215-232 | marks the Codex section alone: its quota dropped, and partial or error by its history |
| `ReportMemory.CollectedIsFresh` | internal/providerreport/report.go:162-176 | a collected report, marked or not, carries nothing forward yet, and what is to be discarded is never ok |
| `ReportMemory.Handler.Cached` | internal/providerreport/handler.go:259-277 | serves an entry exactly while it is young enough, a clock gone back included |
| `ReportMemory.Handler.CarryForward` | internal/providerreport/handler.go:301-327 | the retained snapshot of each section |
| `ReportMemory.Handler.Recall` | internal/providerreport/handler.go:289-300 | the two times of each provider |
| `ReportMemory.Handler.StoreAttempt` | internal/providerreport/handler.go:279-341 | stores the attempt with what it carries forward, dropping an oldest entry of a full cache |
| `ReportMemory.Memories` | internal/providerreport/handler.go:279-341 | over any run of attempts: at most 16 entries, and each section retains the most recent complete measurement since the last discard, the end of its last attempt and that of its last answer |
| `ReportMemory.Survives` | internal/providerreport/handler.go:328-337 | a report outlives as many attempts under other keys as there is room beside it and those not older: 15 when it is the latest |
| `ReportMemory.RefreshKeeps` | internal/providerreport/handler.go:328-337 | a refresh drops no report if and only if the cache is not full or the refreshed key's own is the one chosen to go |
| `ReportMemory.RefreshDrops` | internal/providerreport/handler.go:328-337 | in a full cache, refreshing the second oldest report drops the oldest |
| `ReportLaws.SnapshotIs` | internal/providerreport/handler.go:301-327 | after any run a stored section shows its last attempt, and retains a snapshot if and only if that was not ok but an earlier one was with nothing discarded since; its quota, history and time are those of the last ok attempt |
| `ReportLaws.TimesAre` | internal/providerreport/handler.go:289-300 | its two times are the ends of the last attempt and of the last one that was not an error |
| `ReportLaws.CollectedIsMeasured` | internal/providerreport/report.go:162-176 | a collected section, marked or not, is ok only with both measurements, no error and its time |
| `ReportLaws.SnapshotIsWhole` | internal/providerreport/handler.go:301-327 | so no retained snapshot ever lacks a quota, a history or a time |
| `ReportLaws.RevokedIsForgotten` | internal/providerreport/handler.go:215-232 | stored after the mark, the Codex section shows no quota, its own or retained, whatever it replaces; its history and the other sections are as they would have been |
| `ReportLaws.AgesFromStore` | internal/providerreport/handler.go:259-277 | until it is dropped or replaced a stored report stays as it was, and ages from the time it was stored |
| `Versions.VersionCmp` | internal/router/registry.go:288-322 | the first differing segment decides, numbers by value and anything else as text |
| `Versions.Opposes` | internal/router/registry.go:288-322 | swapping two versions swaps the answer, on all strings |
| `Versions.Moves` | internal/router/registry.go:288-322 | on versions whose segments fit an int the order is a total preorder |
| `Versions.SplitIs` | internal/router/registry.go:288-322 | splitting takes a version apart at its dots and nowhere else |
| `Versions.ComparesNumbers` | internal/router/registry.go:288-322 | versions of numbers that fit an int compare as their lists of numbers do, segment by segment, a version before its continuations |
| `Versions.CircleIff` | internal/router/registry.go:288-322 | a number too large for an int lies on a circle with two that fit if and only if one of its first 18 digits is not a nine |
| `Versions.TooLargeGoesRound` | internal/router/registry.go:288-322 | nine, ten and any twenty-digit number that starts with ten go round in a circle |
| `Aliases.VersionIsRead` | internal/router/registry.go:53-87 | the grammar reads back a slug of a version alone |
| `Aliases.TailIsRead` | internal/router/registry.go:53-87 | and a slug of a version with a codename or a modifier |
| `Aliases.ReadIsNumeric` | internal/router/registry.go:53-87 | what it reads compares as numbers exactly when every segment fits an int |
| `Aliases.OrderDoesNotMatter` | internal/router/registry.go:227-265 | the tiers are the same for every order of the catalog and every way of sorting it by slug |
| `Aliases.WinnerIsElected` | internal/router/registry.go:255-267 | whatever the versions, an entry that beats or ties first with every contender gets the bare name |
| `Aliases.Election` | internal/router/registry.go:255-267 | when the contenders' versions are numeric there is one: the newest version, then the highest priority, then the first slug |
| `Aliases.BareIs` | internal/router/registry.go:258-267 | a bare name is listed exactly when some entry wants it, and goes to one that does |
| `Aliases.PinnedIs` | internal/router/registry.go:254-256 | a pinned name goes to the last slug among the entries that want it, and is listed exactly when one does |
| `Aliases.RawIs` | internal/router/registry.go:242-244 | every slug of the catalog is listed as itself, and nothing else is |
| `Aliases.Resolves` | internal/router/registry.go:324-341 | a slug resolves to itself whatever aliases there are, else a pinned name, else a bare name, and nothing else resolves |
| `Aliases.Registry.LoadCatalog` | internal/router/registry.go:220-271 | rebuilds the three tiers from the catalog and the overrides alone |
| `AliasNames.ReadIsSlug` | internal/router/registry.go:53-87 | nothing is read but slugs of a version and an optional tail |
| `AliasNames.AloneResolves` | internal/router/registry.go:89-109 | alone in a catalog, gpt-v-tail holds the names tail and tail-v, gpt-v-mini the name v-mini, and gpt-v the name v, and no others |
| `AliasNames.OverrideResolves` | internal/router/registry.go:63-71 | an override gives its slug the names it says |
| `AliasNames.RollingNames` | internal/router/registry.go:258-267 | a rolling name is listed if and only if some slug of the catalog spells it, and reaches such a slug |
| `AliasNames.PinnedNames` | internal/router/registry.go:101-109 | the name tail-v is pinned if and only if the catalog has gpt-v-tail, and reaches exactly that |
| `AliasNames.OutranksIs` | internal/router/registry.go:273-286 | a newer version outranks, and between equal ones the higher priority |
| `AliasNames.NewestHolds` | internal/router/registry.go:255-267 | among the slugs with one rolling name it reaches the newest, by the numbers of their versions |
| `AliasNames.DottedIsExact` | internal/router/registry.go:101-103 | a version with a dot is a name for its own slug alone |
| `AliasNames.NumberIsTaken` | internal/router/registry.go:101-103 | a bare number names the newer slug that carries it as a codename |

## Left out

- The tokenizer's vocabulary, its regular-expression engine and the decoding of UTF-8: the tiling, the 128-byte bound and the counting of spans between cuts are hypotheses of the bound, and the model works on decoded runes.
- TokenMemo: keys are taken as injective; hashing is not modelled.
- SseCodec: bytes arrive from a list; a byte-order mark, flushing and buffering are not modelled.
- PatternLexer: Go's parser is a predicate, and the Codex dialect, which is table data, is not modelled, nor is the walk over a schema that finds the patterns.
- HttpState: flights are named by number in a list, so that requests share one flight object is not modelled as aliasing.
- Coalesce: sending, reading and classifying a response are one outcome; nothing is proved about a leader that never concludes.
- Cooldown: trimming and digits are modelled, the dates of a Retry-After header are a parameter; the last clamp of the fallback loop, which is never reached, is left out.
- IdleTimer: the release function and its once are the single leave step of a request; the standalone middleware is not modelled.
- IdleDrain: requests exempt from the activity check take no hold and are not modelled.
- UsageHistory: costs are reals, so rounding is not modelled; refusals carry no text.
- ProviderReport: costs and rates are reals, so rounding is not modelled; the reason given for a missing price is not.
- ToolChanges: JSON decoding is not modelled, so a malformed body is not refused here; a tool's other fields are one body.
- ReportMemory.Handler.Cached: does not model the freshness and ages put on the copy served, because they are clock differences read off one branch.
- ReportMemory.Handler.CarryForward: does not model the freshness and calibration marks of the retained snapshot, for the same reason.
- ReportMemory: the rendering of a report and the coalescing of collections are not modelled; scope keys are plain strings.
- Aliases: lower-casing is a function parameter; picker routes are not modelled.
- Configuration, effort clamping, error mapping, discovery, streaming translation, authentication, logging, files, processes and HTTP plumbing: settled by reading one branch, or input and output.
