# A verified model of the gateway's core algorithms

This project models, in Dafny, the algorithms of an LLM gateway written in Go that carry real
state, and proves what they promise over all inputs, all runs and all reachable states. Where a
promise turned out to hold only under a condition, the condition is stated and proved to be exact,
with a concrete input or run that shows the failure.

| files | component |
|---|---|
| `Playground.dfy`, `LineText.dfy` | the stream adapter that turns an OpenAI event stream, arriving in arbitrary chunks, into AG-UI events |
| `LogSanitizer.dfy`, `LogWalk.dfy`, `LogShape.dfy`, `LogShown.dfy`, `LogMark.dfy`, `LogMasker.dfy`, `LogAssignments.dfy`, `LogCredentials.dfy`, `LogText.dfy`, `Utf8.dfy` | the request-log sanitizer, its assignment masker and its text bounds |
| `MultiKey.dfy`, `KeyStatusPages.dfy`, `KeyText.dfy`, `KeyAppend.dfy`, `KeyChanges.dfy` | channels with many keys: management actions, status pages, stored key strings, appending keys, runs of all of these |
| `Reconcile.dfy`, `ModelNames.dfy`, `Lists.dfy`, `KeysetScan.dfy` | reconciliation of a channel's models with its upstream, and the paginated scan over channels |
| `RateLimiter.dfy` | the in-memory sliding-window rate limiter |
| `Midjourney.dfy`, `Refunds.dfy`, `RefundRuns.dfy` | drawing tasks: polling by several workers, notifications, submission, and refunds over all runs |
| `OggScan.dfy` | the Ogg page scanner for Opus durations |
| `BodyStorage.dfy`, `CacheStats.dfy` | request-body storage and its usage counters |
| `QuotaMath.dfy` | saturating quota conversions |

`Prelude.dfy` holds the types and list facts shared by all of them. `dafny verify dfyconfig.toml`
checks the whole project.

Each component has an imperative part that follows the program (classes and loops) and a
specification it is proved against; the main theorems are about the specification, so they carry
over to the imperative part.

Code and documentation disagree, or a natural promise fails, in these places; the model follows the
code:

- Deleting the auto-disabled keys of a channel all of whose keys are auto-disabled leaves an empty
  key string, which the save does not write while it does write the cleared maps: all keys come
  back enabled (`MultiKey.AllAutoComeBack`).
- A blank line among the stored keys counts as a key; once a deletion leaves it at an end of the
  list it is not read back, and the maps no longer fit the keys (`MultiKey.BlankKeyLost`).
- A deletion turns a JSON array of keys into lines, so a key that runs over several lines is read
  back as several (`MultiKey.LongKeySplit`). These are all the causes (`MultiKey.StepAsMeantIff`).
- An empty JSON array holds no key, but a save counts one (`KeyText.CountedIff`), so its keys can be
  disabled (`MultiKey.InsideKeptIff`) and a key appended later shows up disabled
  (`KeyChanges.AppendedDisabled`).
- An array of keys that does not decode is shown line by line, but an append sees no keys in it and
  replaces it; an append to a channel without keys takes the input as it is, duplicates
  included (`KeyChanges.AppendMeantIff`).
- Content that arrives after the end of a run is still emitted when it comes in the same write, so
  the full event list depends on the chunks (`Playground.OutputDeterminedIff`).
- The rate limiter accepts the first request for a limit of zero, and an expiration more than one
  second below the duration, if idle keys are dropped at all, forgets full windows
  (`RateLimiter.ExactIff`).
- A task can be refunded twice (`RefundRuns.SafeIff` says exactly when): two notifications of a failure
  (`RefundRuns.NotifiedFailure`); a failure verdict without the status FAILURE or the other way
  round (`RefundRuns.PollingSafeIff`); a task that is submitted as failed and yet unfinished,
  as a submission inserts it when the upstream answers that it exists already and has failed
  (`RefundRuns.ExistingFailedTask`); a response that lists a task twice
  (`RefundRuns.RepeatsSafeIff`).
- A model named like a regex rule breaks the fixpoint of reconciliation (`Reconcile.FixpointIff`),
  and an addition in one selection that another removes breaks commutation
  (`Reconcile.ChoicesCommuteIff`).
- A field that already has the name of the omission mark is overwritten by it
  (`LogSanitizer.MarkAddsUpIff`, `LogMark.MarkOverwrites`).
- Cleanup by age counts a file off that its storage counts off again when it closes
  (`CacheStats.ExactIff`).
- The largest 64-bit size limit wraps round when one is added to it, and every body is then stored
  empty (`BodyStorage.AcceptedIff`). The one caller passes a number of whole mebibytes
  (`common/gin.go:68`), so it never meets this limit.
- The strict quota conversions refuse the two ends of the 32-bit range although they are
  representable (`QuotaMath.StrictIff`).

What the program gets from outside is a parameter of the model: JSON decoding and rendering, regular
expressions, digests, the clock, the database rows a query meets, the upstream's answer, the order in
which pollers run, and failures of disk and network.

## Model

| member | source | states |
|---|---|---|
| `Playground.ChunkingIndependence` | controller/playground_copilotkit.go:282-346 | for every byte stream, every cut of it into writes, and flushes and status changes anywhere between them, the events up to and including the terminal one are a function of the bytes and the final status alone |
| `Playground.OutputDeterminedIff` | controller/playground_copilotkit.go:376-417 | the whole event list, past the terminal event too, is determined by the bytes and the status if and only if no content follows the end of the run |
| `Playground.Disagreement` | controller/playground_copilotkit.go:282-292 | when content does follow the end of the run, two concrete ways to send the same bytes give different event lists |
| `Playground.FinishedSummary` | controller/playground_copilotkit.go:384-417 | a finished writer has acted on exactly the tokens of the whole stream, except that it may lack content after the end of the run |
| `Playground.RenderUpToTerminal` | controller/playground_copilotkit.go:419-460 | cutting an event list at its terminal event gives the event list without late content |
| `Playground.RenderRunOrder` | controller/playground_copilotkit.go:348-363 | in every event list the start of the run comes first and once, there is at most one terminal event, and there is one exactly when the run has ended |
| `Playground.RenderMessageOrder` | controller/playground_copilotkit.go:365-382 | in every event list the message starts once and before any content, and a success closes the message right before it ends the run |
| `Playground.EventWriter.BeginRun` | controller/playground_copilotkit.go:348-363 | the start of the run is emitted once, whatever is called how often |
| `Playground.EventWriter.BeginMessage` | controller/playground_copilotkit.go:365-374 | starts the run if needed, then the message once |
| `Playground.EventWriter.WriteContent` | controller/playground_copilotkit.go:376-382 | the events are those of the token list with one more content token, also after the end of the run |
| `Playground.EventWriter.FinishSuccess` | controller/playground_copilotkit.go:419-446 | ends the run once, with the usage noted so far; nothing after the first end |
| `Playground.EventWriter.FinishError` | controller/playground_copilotkit.go:448-460 | ends the run once with an error; an absent code is left out |
| `Playground.EventWriter.ConsumeData` | controller/playground_copilotkit.go:321-346 | acts on exactly the tokens of one payload: done mark, undecodable payload, error, usage and deltas, whose texts `DeltasSaid` and `ExpectedTold` fix |
| `Playground.EventWriter.ConsumeLines` | controller/playground_copilotkit.go:305-319 | takes every complete line off the buffer and leaves the rest; the events are those of the lines' tokens |
| `Playground.EventWriter.Write` | controller/playground_copilotkit.go:282-292 | refines the abstract step: ignored once finished, only buffered while the status is an error |
| `Playground.EventWriter.Flush` | controller/playground_copilotkit.go:298-303 | refines the abstract step: complete lines are read whatever the status |
| `Playground.EventWriter.WriteHeader` | controller/playground_copilotkit.go:276-278 | changes the upstream status and nothing else |
| `Playground.EventWriter.ConsumeTail` | controller/playground_copilotkit.go:390-408 | the bytes after the last newline are one payload line or one whole response |
| `Playground.EventWriter.Finish` | controller/playground_copilotkit.go:384-417 | after it the run has ended, by the stream itself or by the upstream status |
| `Playground.Serve` | controller/playground_copilotkit.go:116-205 | any sequence of calls on a new writer followed by the finish: reference events up to the terminal one, event order, and exactly one terminal event; the texts joined are the deltas of the decoded `data:` payloads before the first end and the messages of a response that stands alone, the last event is the error with its message and code or the success with prompt and completion of the last usage, and every event names its run and message |
| `Playground.ExpectedTold` | controller/playground_copilotkit.go:305-460 | what the client is told of a byte stream and a status, said without tokens: which text, which end, with which error or usage |
| `Playground.DeltasSaid` | controller/playground_copilotkit.go:341-345 | the texts of a chunk, joined, are its deltas, joined, and no empty text is sent |
| `Playground.MessagesSaid` | controller/playground_copilotkit.go:403-405 | the texts of a response that stands alone are its messages, one by one |
| `Playground.DefaultStatus` | controller/playground_copilotkit.go:189-197 | without a header the upstream counts as successful |
| `LineText.LinesRoundTrip` | controller/playground_copilotkit.go:305-319 | a byte string is its complete lines, each with its newline, followed by the rest |
| `LineText.LinesConcat` | controller/playground_copilotkit.go:305-319 | the lines of a concatenation are the lines of the first part and of its rest joined to the second part |
| `LogSanitizer.NonInterference` | common/request_log.go:404-489 | two values that differ only in what is never shown (under keys both sensitive and never fingerprinted, non-strings under sensitive keys, below depth 32, past the item and key limits, in media, oversize, undecodable and private-key strings, in what is scrubbed from ordinary strings, and the same inside embedded JSON) give the same output and leave the same budget |
| `LogSanitizer.SecretReplaced` | common/request_log.go:427-434 | replacing the value of a field with a sensitive, never-fingerprinted key changes neither output nor budget |
| `LogShown.PlainShown` | common/request_log.go:484-489 | an ordinary string is shown scrubbed: as it is when that is one line of at most 4096 bytes, cut with its length when it is longer; a private key leaves its length |
| `LogShown.PlainAlikeIff` | common/request_log.go:484-489 | two ordinary strings whose scrubbed texts fit are shown alike if and only if these are the same |
| `LogShown.OmittedShown` | common/request_log.go:462-482 | media, oversize and undecodable strings leave their kind and length |
| `LogShown.EmbeddedShown` | common/request_log.go:466-481 | a string that holds JSON is shown as the rendering of that value, sanitized one level deeper with the same budget |
| `LogShown.LeavesShown` | common/request_log.go:404-408 | numbers, booleans and null are shown as they are; below depth 32 and without budget only the note |
| `LogShown.FieldShownAs` | common/request_log.go:416-436 | a field is shown under its name, masked under a sensitive key, else sanitized under the path that ends in its name |
| `LogShown.SecretsAlikeIff` | common/request_log.go:427-433 | under an ordinary sensitive key two strings that are not of the basic scheme are logged alike if and only if their digests agree |
| `LogShown.ItemShownAs` | common/request_log.go:438-449 | an item is shown in place, under the path of its array |
| `LogShown.NestedShown` | common/request_log.go:422-436 | a string inside two objects is read under both names joined by a dot |
| `LogSanitizer.Value` | common/request_log.go:404-455 | the mutual recursion ends for every input; the budget never grows, never passes below zero, and goes down at every node within the depth bound |
| `LogSanitizer.FieldText` | common/request_log.go:462-482 | the string half of the recursion: it ends although the string is read again as JSON, and it spends the same budget |
| `LogSanitizer.ArrayAccounted` | common/request_log.go:438-449 | an array keeps its first items in order; a cut array ends in a mark whose number and the items kept add up to the original count, and it is cut only at 256 items or at an empty budget |
| `LogSanitizer.ObjectAccounted` | common/request_log.go:410-437 | an object keeps its first keys in sorted order, each with its sanitized value; a cut object holds a mark with the number of keys missing, and it is cut only at 256 keys or at an empty budget |
| `LogSanitizer.MarkAddsUpIff` | common/request_log.go:417-421 | in every cut object the entries beside the mark and its number add up to the original number of fields if and only if no kept field has the name of the mark |
| `LogMark.MarkReplaces` | common/request_log.go:417-421 | in every object of more than 256 numbers whose first 256 names include the mark's own, one entry is lost from the sum |
| `LogMark.MarkOverwrites` | common/request_log.go:417-421 | a concrete object of 257 fields that becomes 256 entries with a mark that says one is missing |
| `LogShape.OutputTidy` | common/request_log.go:399-482 | every output is at most 33 levels deep, no container holds more than 257 entries, and no string value in it has a line break |
| `LogShape.NamesOneLineIff` | common/request_log.go:416-436 | field names are copied: those of an output object are one line each if and only if the names it keeps are |
| `LogShape.TextIsOneLine` | common/request_log.go:462-489 | every string the sanitizer shows is one line |
| `LogWalk.SanitizeValue` | common/request_log.go:404-455 | the loops over one shared counter compute the recursive specification |
| `LogWalk.SanitizeFields` | common/request_log.go:411-437 | the loop over the sorted keys with its early end computes the specification |
| `LogWalk.SanitizeItems` | common/request_log.go:439-443 | the loop over the items stops at the limit or at an empty budget and computes the specification |
| `LogWalk.SanitizeText` | common/request_log.go:462-482 | media, oversize, undecodable, embedded and plain strings as specified |
| `LogWalk.SanitizeString` | common/request_log.go:484-489 | a private key leaves only its length; other text is scrubbed and bounded |
| `LogWalk.Sanitize` | common/request_log.go:399-402 | for every value: at most 4096 nodes are visited, none at depth 32 or deeper, and the number visited is the budget spent |
| `LogWalk.NodeBudget.Visit` | common/request_log.go:405-408 | one node less, its depth recorded; visits and budget together stay 4096 |
| `LogMasker.Mask` | common/request_log.go:508-563 | for every string and every match list in bounds the loop stays in bounds and writes the input with the value spans of the taken matches replaced |
| `LogMasker.TakenGreedy` | common/request_log.go:516-524 | a match is taken if and only if its key is sensitive and it does not start inside an earlier masked value |
| `LogMasker.EditsDisjoint` | common/request_log.go:516-559 | the spans replaced are in bounds, in order and disjoint |
| `LogMasker.GreedyUnique` | common/request_log.go:516-524 | which matches are masked is determined by string and matches |
| `LogMasker.ByteKept` | common/request_log.go:525-561 | every byte outside the masked spans is in the output, moved only by the masks before it |
| `LogMasker.MaskWritten` | common/request_log.go:549-558 | the mask of each span stands where the span was |
| `LogMasker.SplicedLength` | common/request_log.go:508-563 | the output is longer than the input by the growth of the masks |
| `LogMasker.NothingSensitive` | common/request_log.go:522-524 | without a sensitive key nothing is replaced |
| `LogMasker.ScanQuoted` | common/request_log.go:529-542 | stays in bounds and stops at the first closing quote, that is the first one after an even run of backslashes |
| `LogMasker.ScanBare` | common/request_log.go:543-547 | stays in bounds and stops at the first delimiter |
| `LogMasker.DelimiterIff` | common/request_log.go:565-572 | the characters that end a bare value, and the two quotes |
| `LogMasker.MaskOne` | common/request_log.go:520-559 | one assignment: text before the value, opening quote, mask, closing quote if there is one, and where reading goes on |
| `LogAssignments.QuotedSpan` | common/request_log.go:526-542 | the value in quotes is what stands between them, made of ordinary bytes and escaped ones, whatever follows |
| `LogAssignments.OpenSpan` | common/request_log.go:531-542 | a quoted value without a closing quote runs to the end of the input |
| `LogAssignments.QuotedOrOpen` | common/request_log.go:531-542 | every text after an opening quote is one of these two |
| `LogAssignments.BareSpan` | common/request_log.go:543-547 | a bare value runs up to the first delimiter or the end |
| `LogAssignments.OneMasked` | common/request_log.go:516-562 | of one match under a sensitive key the value gives way to its mask and all else stays; under any other key everything stays |
| `LogAssignments.QuotedMasked` | common/request_log.go:525-562 | a quoted secret is masked between its quotes, which stay, and the rest of the line stays |
| `LogAssignments.OpenMasked` | common/request_log.go:525-562 | of a secret whose quote is never closed nothing is shown |
| `LogAssignments.BareMasked` | common/request_log.go:543-562 | a bare secret is masked up to its delimiter |
| `LogCredentials.MaskedHides` | common/request_log.go:574-602 | values that agree in their number of words, first word and digests have the same mask, and under a never-fingerprinted key all values do |
| `LogCredentials.CredentialIff` | common/request_log.go:574-581 | two credentials have the same mask if and only if both are blank or their digests agree |
| `LogCredentials.MaskedShowsIff` | common/request_log.go:587-602 | under an ordinary key two values that are not of the basic scheme have the same mask if and only if their digests agree |
| `LogCredentials.MaskedIsOneLine` | common/request_log.go:587-602 | a mask has no line break |
| `LogCredentials.CredentialShown` | common/request_log.go:574-581 | a credential shows as the mask with its fingerprint, a blank one as the mask alone |
| `LogCredentials.NothingShown` | common/request_log.go:587-601 | nothing shows under a never-fingerprinted key, of the basic scheme, or of an authorization that is not one bearer credential |
| `LogCredentials.BearerShowsIff` | common/request_log.go:596-600 | a bearer authorization shows its first word, and two with the same first word are masked alike if and only if the digests of their second words agree |
| `LogText.TruncateUtf8` | common/request_log.go:640-651 | the loop computes the cut that the following lemmas describe |
| `LogText.TruncatedLongest` | common/request_log.go:640-651 | a text over the limit is cut to its longest valid UTF-8 prefix within the limit |
| `LogText.TruncatedNearLimit` | common/request_log.go:640-651 | on valid text the cut stays valid and loses at most three bytes of the limit |
| `LogText.ThreeBytesLost` | common/request_log.go:647-650 | the three bytes are reached: a four-byte character cut at three bytes leaves nothing |
| `LogText.SingleLineShape` | common/request_log.go:653-656 | no carriage return or newline is left, the length at most doubles, and the text is unchanged if and only if it was one line |
| `LogText.SingleLineIsEscapeAll` | common/request_log.go:653-656 | the two replacements one after the other escape every byte once, by itself |
| `LogText.SingleLineTwice` | common/request_log.go:653-656 | escaping twice is escaping once |
| `LogText.SingleLineKeepsValid` | common/request_log.go:653-656 | escaping keeps valid UTF-8 valid |
| `LogText.BoundedContent` | common/request_log.go:616-627 | content within the limit is only escaped, longer content is cut, escaped and marked with length and limit |
| `LogText.TruncateString` | common/request_log.go:629-638 | a string within the limit is only escaped, a longer one is cut, escaped and marked with its length |
| `LogText.BoundedShape` | common/request_log.go:612-638 | every bounded field is one line of at most twice the limit plus its mark, starts with the escaped cut, and is valid UTF-8 if the content was |
| `LogText.BoundedTells` | common/request_log.go:612-638 | content within the limit is shown on one line, longer content is cut, with a mark that gives its length and, for content, the limit |
| `LogText.SignedReadBack` | common/request_log.go:616-627 | the limit named in the mark can be read back, sign included |
| `LogText.BreaksEscaped` | common/request_log.go:653-656 | a line break becomes a backslash and a letter, every other byte stays |
| `Prelude.DecimalReadBack` | common/request_log.go:619-637 | the number in a mark can be read back |
| `Utf8.ValidIffEncoded` | common/request_log.go:647-649 | the validity check used for cutting accepts exactly the concatenations of encodings of code points (sections 3 and 4 of RFC 3629) |
| `Utf8.BoundaryNear` | common/request_log.go:647-650 | at or below every position of a valid string, at most three bytes back, a character ends |
| `MultiKey.StepAsMeantIff` | controller/channel.go:1776-2079 | on every stored channel, consistent or not, an action shows what is meant if and only if it fits: the keys it names lie below the recorded size or are already as asked, and a deletion leaves keys that are read back from their string |
| `MultiKey.RunAsMeantIff` | controller/channel.go:1776-2079 | over every run on every stored channel the records shown after each action are the intended ones if and only if each action fits the state it meets |
| `MultiKey.SavedRunIff` | controller/channel.go:1776-2079 | from a saved channel this can be told from the records alone: if and only if no deletion of the run leaves no key, or a list that is not readable |
| `MultiKey.PlainRunIff` | controller/channel.go:2012-2079 | with visible one-line keys that open no array, if and only if no purge meets a list in which every key is auto-disabled |
| `MultiKey.AllAutoComeBack` | model/channel.go:589-636 | purging a channel all of whose keys are auto-disabled brings every key back enabled, although none was meant to stay |
| `MultiKey.WrittenShowsIff` | model/channel.go:589-636 | keys that a channel writes show their records if and only if the list is readable, or is the one list that is not written and was there before |
| `MultiKey.InsideKeptIff` | controller/channel.go:1776-2079 | an action that fits a saved channel keeps the three maps inside the key list if and only if the string is not an empty JSON array or the action disables nothing |
| `MultiKey.EmptyArrayDisabled` | controller/channel.go:1776-1818 | a concrete one: disabling key 0 of an empty array leaves a status without a key |
| `MultiKey.PurgedSurvivors` | controller/channel.go:2012-2061 | deleting auto-disabled keys keeps exactly the other keys, in order, each with its state |
| `MultiKey.EnabledAnew` | controller/channel.go:1819-1860 | enabling a key leaves the record of a key never touched, and undoes disabling it |
| `MultiKey.DisabledByHand` | controller/channel.go:1776-1818 | disabling a key by hand sets status two and nothing else, and a purge does not take the key |
| `MultiKey.PurgeTakes` | controller/channel.go:2012-2050 | a purge takes a key if and only if its status is three |
| `MultiKey.EnableAllIsEach` | controller/channel.go:1861-1884 | enabling all keys is enabling each of them |
| `MultiKey.DisableAllLeaves` | controller/channel.go:1885-1931 | disabling all keys disables the enabled ones by hand, leaves the others, and is the same twice |
| `MultiKey.DeletedPutBack` | controller/channel.go:1932-2011 | a deleted key put back where it was gives the list there was; the last key stays |
| `MultiKey.WithoutKey` | controller/channel.go:1949-1980 | the loop collects the keys at all other positions, in order, and moves their status, time and reason to the new positions |
| `MultiKey.WithoutAutoDisabled` | controller/channel.go:2012-2050 | the loop collects the keys that are not auto-disabled, in order, moves the state of those not enabled, and counts the others |
| `MultiKey.LeftShows` | controller/channel.go:2012-2050 | what the purging loop collects shows exactly the surviving records |
| `MultiKey.ReindexRecords` | controller/channel.go:1949-1980 | keys picked by position with their moved maps show the picked records |
| `MultiKey.Channel.Update` | model/channel.go:589-636 | an empty key string is not written, the size is counted from the stored string, statuses beyond it are dropped, and the records shown are those of the new maps beside the keys read back |
| `MultiKey.SaveTrims` | model/channel.go:589-636 | a save drops exactly the statuses at or beyond the number of keys it counts, and keeps times and reasons |
| `MultiKey.BlankKeyLost` | controller/channel.go:1932-2011 | a concrete channel with a blank line between two keys: deleting the first key shows one key instead of two, and a disabled time is left without a key |
| `MultiKey.LongKeySplit` | controller/channel.go:1932-2011 | a concrete channel with a JSON array whose second key runs over two lines: deleting the first key shows two keys instead of one |
| `MultiKey.Channel.DisableKey` | controller/channel.go:1776-1818 | the step on the stored form, with its error cases |
| `MultiKey.Channel.EnableKey` | controller/channel.go:1819-1860 | the step on the stored form, with its error cases |
| `MultiKey.Channel.EnableAllKeys` | controller/channel.go:1861-1884 | the step on the stored form, and how many statuses it cleared |
| `MultiKey.Channel.DisableAllKeys` | controller/channel.go:1885-1931 | the step on the stored form; nothing to do exactly when no key below the size is enabled |
| `MultiKey.DisableEnabled` | controller/channel.go:1897-1910 | the loop disables exactly the enabled positions below the size |
| `MultiKey.Channel.DeleteKey` | controller/channel.go:1932-2011 | the step on the stored form; the record is gone and all others are as before if and only if the action fits the channel as it was; the last key is never deleted |
| `MultiKey.Channel.DeleteDisabledKeys` | controller/channel.go:2012-2079 | the step on the stored form; exactly the auto-disabled records are gone if and only if the action fits the channel as it was; done exactly when some key is auto-disabled |
| `MultiKey.Manage` | controller/channel.go:1776-2079 | a channel object driven through any run of actions from any stored form ends in the stored form of the run, and shows the intended records when every action fits |
| `KeyStatusPages.GetKeyStatus` | controller/channel.go:1662-1774 | the page shown is the requested page of the filtered list of all keys, with page number and size brought into range, and totals over all keys |
| `KeyStatusPages.ListKeys` | controller/channel.go:1678-1723 | one entry per key, with the state of its record, and the three totals |
| `KeyStatusPages.FilterKeys` | controller/channel.go:1725-1735 | the keys with the wanted status, in order |
| `KeyStatusPages.CutPage` | controller/channel.go:1747-1758 | the slice of one page |
| `KeyStatusPages.PagesPartition` | controller/channel.go:1737-1758 | the pages put together are the list; every page but the last is full and the last is not empty unless the list is |
| `KeyStatusPages.TotalsIff` | controller/channel.go:1691-1699 | the three totals cover all keys if and only if every status is one of the three |
| `KeyStatusPages.FilterCount` | controller/channel.go:1725-1735 | filtering by a status keeps as many keys as its total, all with that status |
| `KeyStatusPages.PreviewIff` | controller/channel.go:1710-1714 | two keys have the same preview if and only if they are the same or both are longer than ten bytes and begin with the same ten |
| `KeyStatusPages.ListedAlikeIff` | controller/channel.go:1678-1721 | two keys at one place are listed alike if and only if status and preview agree and, unless enabled, time and reason |
| `KeyText.StoredKeysIff` | model/channel.go:185-207 | any key list joined into a string is read back if and only if it is readable: its string decodes as an array of just those keys, or is no array and every key is on one line with neither end empty |
| `KeyText.CountedIff` | model/channel.go:600-615 | the number of keys that a save counts is never below the number read, and equals it if and only if the string is not an empty JSON array |
| `KeyText.EmptyArrayCounted` | model/channel.go:600-615 | the empty array holds no key and is counted as one |
| `KeyText.PlainKeysStored` | model/channel.go:185-207 | a list of keys that are not empty, hold no newline and do not look like a JSON array is always read back |
| `KeyText.SplitJoin` | model/channel.go:204-206 | splitting a joined list gives the list |
| `KeyText.JoinSplit` | model/channel.go:204-206 | joining a split string gives the string |
| `KeyText.TrimCuts` | model/channel.go:192-206 | trimming takes exactly what can be cut off at either end |
| `KeyText.Characters` | model/channel.go:192-206 | the white space, the separator and the bracket |
| `KeyAppend.ReadCandidates` | controller/channel.go:1166-1172 | the trimmed lines of the input that are not blank, in order |
| `KeyAppend.CandidatesIff` | controller/channel.go:1166-1172 | a key is among the new ones if and only if it is a line of the input, trimmed and not blank |
| `KeyAppend.CandidatesPrefix` | controller/channel.go:1166-1172 | the new keys keep the order of the input |
| `KeyAppend.Dedupe` | controller/channel.go:1175-1196 | every existing key stays at its index; behind them each new key that is not blank and not there yet, trimmed, once, in order of first occurrence |
| `KeyAppend.AddedAppended` | controller/channel.go:1175-1196 | the function that the loop computes adds exactly these keys |
| `KeyChanges.AppendMeantIff` | controller/channel.go:1128-1198 | on every stored channel an append shows every record as it was and a fresh record for each new key if and only if it fits: what can be told of the keys before, and no status, time or reason left at a position that a new key takes |
| `KeyChanges.KeysFitIff` | controller/channel.go:1128-1198 | the keys read back are the old ones and the new ones if and only if the extended list can be reread or nothing is written; an array that does not decode must stand at the front of the input again; a channel without keys needs an input of clean, distinct lines |
| `KeyChanges.ChangesAsMeantIff` | controller/channel.go:1128-2079 | over every run of appends and management actions on every stored channel the records shown after each change are the intended ones if and only if each change fits the state it meets |
| `KeyChanges.InsideAppend` | controller/channel.go:1128-1198 | on a channel whose maps stay inside its keys only the keys decide, and the maps stay inside |
| `KeyChanges.VisibleAppendFits` | controller/channel.go:1128-1198 | on such a channel every append to visible newline-separated keys fits |
| `KeyChanges.AppendedDisabled` | controller/channel.go:1128-1198 | a concrete run: after the keys of an empty array are disabled, an appended key shows up disabled |
| `KeyChanges.AppendKeys` | controller/channel.go:1128-1202 | the append on a channel object: reading, deduplication and the save, as meant if and only if it fits the channel as it was |
| `KeyChanges.Edit` | controller/channel.go:1128-2079 | channel objects driven through any run of appends and actions from any stored form end in the stored form of the run, and show the intended records when every change fits |
| `KeyChanges.AppendSavedIff` | controller/channel.go:1133-1202 | for every stored channel, array or lines: the extended list is read back after the save if and only if the lines were more than newlines, or the array held one-line keys with no empty end, or the result is an array of just those keys; where the save writes nothing, if and only if the string was no array that fails to decode |
| `KeyChanges.ListedIff` | controller/channel.go:1128-1131 | an input taken as it is is read as its new keys if and only if its lines are clean and distinct |
| `KeyAppend.AppendedUnique` | controller/channel.go:1175-1196 | the extended list is determined by the existing and the new keys |
| `KeyAppend.AppendTwiceIff` | controller/channel.go:1133-1202 | appending the same keys again changes nothing: always if nothing was written; for lines if and only if they are read back; for a result that opens like an array if and only if the elements read of it begin the list and the first keys begin what they are extended to |
| `KeyAppend.AddedMeetIff` | controller/channel.go:1175-1196 | two lists extended by the same keys are the same if and only if each begins with the list the other was extended from |
| `KeyAppend.AppendStored` | controller/channel.go:1142-1197 | for newline-separated visible keys the extended list is read back and is again in that format |
| `KeyAppend.AppendTwice` | controller/channel.go:1175-1197 | in particular for visible newline-separated keys |
| `ModelNames.Normalize` | controller/channel_upstream_update.go:100-105 | trimmed names without blanks or repetition, standing for the same set of names |
| `ModelNames.NormalizePrefix` | controller/channel_upstream_update.go:100-105 | names stay in the order of their first occurrence: a longer list only adds behind |
| `ModelNames.MergeModelNames` | controller/channel_upstream_update.go:107-121 | the loop with its seen-set computes the merge |
| `ModelNames.Merge` | controller/channel_upstream_update.go:107-121 | the union of the names, beginning with the normalized base |
| `ModelNames.Subtract` | controller/channel_upstream_update.go:123-132 | the difference of the names |
| `ModelNames.Intersect` | controller/channel_upstream_update.go:134-143 | the intersection of the names |
| `ModelNames.ApplySelected` | controller/channel_upstream_update.go:145-150 | the names with additions and without removals, where adding wins |
| `Reconcile.DetectSets` | controller/channel_upstream_update.go:179-238 | exactly the upstream names neither local, redirected to nor ignored are pending to add, exactly the local names neither redirected nor upstream are pending to remove, and the two are disjoint |
| `Reconcile.DetectExact` | controller/channel_upstream_update.go:179-238 | written out: pending to add are the upstream names that are neither local, nor the target of a redirect, nor equal to an ignored name or matched by an ignored pattern; pending to remove are the local names that are neither the source of a redirect nor upstream |
| `Reconcile.AliasKept` | controller/channel_upstream_update.go:228-235 | once a name is redirected it is never pending to remove, its target is never pending to add, and taking over everything pending keeps it |
| `Reconcile.FixpointIff` | controller/channel_upstream_update.go:179-238 | detect, apply everything, detect again with the same upstream: nothing is pending if and only if no name is ignored only by rules that were themselves just added |
| `Reconcile.Fixpoint` | controller/channel_upstream_update.go:932-954 | so it is a fixpoint whenever no upstream name looks like a regex rule |
| `Reconcile.RegexNamedModel` | controller/channel_upstream_update.go:217-223 | a concrete upstream list with a model named like a regex rule for which it is not |
| `Reconcile.ApplyIsSetApply` | controller/channel_upstream_update.go:919-967 | applying a selection to the stored lists is the intended operation on sets |
| `Reconcile.ChoicesCommuteIff` | controller/channel_upstream_update.go:932-954 | two selections in either order give what they give together if and only if neither adds a pending name that the other ignores or removes |
| `Reconcile.SelectionsCommuteIff` | controller/channel_upstream_update.go:932-954 | the same, if and only if, for the lists the channel stores |
| `Reconcile.PendingAddsAccounted` | controller/channel_upstream_update.go:932-954 | the names added, ignored and still pending are together the names pending before, and what is pending was neither |
| `Reconcile.PendingRemovesAccounted` | controller/channel_upstream_update.go:932-954 | the names removed and still pending are together the names pending before, and are disjoint |
| `Reconcile.AutoSyncSettles` | controller/channel_upstream_update.go:498-510 | after the automatic sync a second detection finds nothing to add and the same list to remove |
| `Reconcile.AutoSyncList` | controller/channel_upstream_update.go:498-510 | the automatic sync appends exactly the pending additions |
| `Reconcile.Sync` | controller/channel_upstream_update.go:498-510 | what is stored is what a second detection would find; the models change only by the additions |
| `Reconcile.ApplySelection` | controller/channel_upstream_update.go:919-967 | the selection applied, and whether the models changed |
| `Reconcile.ModelSettings.CheckAndPersist` | controller/channel_upstream_update.go:474-521 | skipped within the interval, failed without an answer, otherwise the pending lists are exact for the models stored |
| `Reconcile.ModelSettings.ApplyUpdates` | controller/channel_upstream_update.go:919-967 | the staged lists become those of the applied selection |
| `KeysetScan.Scan` | controller/channel_upstream_update.go:673-761 | with channels inserted, deleted and toggled between batches: the visits are the items of the batches in turn, each with the context alive, so they ascend and none is visited twice; a scan that is not complete has visited all batches before a failed query, or all items before the one at which the context was found cancelled; without these it is complete; and a complete scan has visited every channel that stayed enabled |
| `KeysetScan.EnabledWhenRead` | controller/channel_upstream_update.go:673-761 | visit i was enabled in the query that read it, which is the one numbered i divided by the batch size |
| `KeysetScan.NoneMissed` | controller/channel_upstream_update.go:673-761 | a complete scan has visited every channel that was enabled at each of its queries |
| `KeysetScan.NoneTwice` | controller/channel_upstream_update.go:673-761 | however a scan ends, a later visit has a larger id, so no channel is visited twice |
| `KeysetScan.VisitBatch` | controller/channel_upstream_update.go:698-749 | the items of a batch are visited in order up to the first at which the context is found cancelled |
| `KeysetScan.BatchAbove` | controller/channel_upstream_update.go:973-984 | a batch is in ascending order and beyond the last id |
| `KeysetScan.BatchTakes` | controller/channel_upstream_update.go:973-984 | an enabled id beyond the last one is in the batch unless a full batch ends below it |
| `RateLimiter.Exact` | common/rate-limit.go:28-70 | on every run with a clock that does not go back, with cleanups anywhere, every decision is that of a limiter with the full history |
| `RateLimiter.ExactIff` | common/rate-limit.go:14-70 | exact on all such runs if and only if every limit allows at least one request and, where idle keys are dropped at all, its duration is at most one more than the expiration |
| `RateLimiter.NoOverfullWindow` | common/rate-limit.go:45-70 | no window of the duration ever holds more acceptances than the limit |
| `RateLimiter.AcceptedIff` | common/rate-limit.go:45-70 | after any run a request is accepted if and only if the seconds that end with it hold fewer acceptances than the limit |
| `RateLimiter.SameDecision` | common/rate-limit.go:51-63 | the bounded queue admits a request exactly when the full history does |
| `RateLimiter.TooShortExpiration` | common/rate-limit.go:31-39 | a run on which a too short expiration forgets a full window |
| `RateLimiter.NothingAllowed` | common/rate-limit.go:64-68 | with a limit of zero the first request is still accepted |
| `RateLimiter.InMemoryRateLimiter.ClearExpiredItems` | common/rate-limit.go:28-42 | one pass drops exactly the keys idle for longer than the expiration |
| `RateLimiter.InMemoryRateLimiter.Request` | common/rate-limit.go:45-70 | answer and new queues as specified |
| `RateLimiter.Replay` | common/rate-limit.go:28-70 | a limiter object driven through any run answers as the full-history limiter |
| `Refunds.RefundedAtMostOnce` | controller/midjourney.go:153-219 | any number of pollers and notifications in any interleaving of reading, compare-and-set and refund, with submissions of any rows and bulk failures in between, for all traffic that meets the condition below: no task is refunded twice; with polling alone a refunded one is finished with no quota left, and failed if every rejection says so |
| `Refunds.NothingRefunded` | controller/midjourney.go:153-219 | over all runs in which no response or notification fails a task and every response comes within the hour, no task is ever refunded |
| `RefundRuns.SafeIff` | controller/midjourney.go:153-219 | for every set of polling responses, notifications and submitted rows, and whether or not a response may list a task twice: no run refunds a task twice if and only if no notification for charged tasks reports a failure, no status is both one an unfinished charged task can have and one an ended task can have, and a task listed twice finds only responses that finish it, or only the poller's own timeout verdict |
| `RefundRuns.OverdueRefunded` | controller/midjourney.go:160-219 | a charged task that is unfinished after the hour is refunded on the next response, whatever that says |
| `RefundRuns.PollingSafeIff` | controller/midjourney.go:153-219 | with polling alone and tasks of every other status: if and only if in every response a failure verdict and the status FAILURE come together and, if any can arrive, every charged task submitted as failed is finished |
| `RefundRuns.RepeatsSafeIff` | controller/midjourney.go:153-219 | when a response may list a task twice, with tasks of every other status: if and only if no response can arrive but the poller's own timeout verdict, and then every charged task submitted as failed is finished |
| `RefundRuns.FinishingRepeatsSafe` | controller/midjourney.go:153-219 | polling responses that only finish tasks, listed twice or not, are safe for charged unfinished tasks whose status is neither FAILURE nor one of theirs |
| `RefundRuns.NotifiedFailure` | relay/mjproxy_handler.go:205-252 | a charged task and a notification that reports failure: a run that refunds twice |
| `RefundRuns.SharedStatus` | controller/midjourney.go:153-219 | a status that both an unfinished and an ended task can have: a run that refunds twice |
| `RefundRuns.FailureWithoutStatus` | controller/midjourney.go:204-219 | a failure verdict without the status, for any charged unfinished task of the response's status: a run that refunds twice |
| `RefundRuns.StatusWithoutFailure` | controller/midjourney.go:204-219 | the status without a failure verdict, for any charged unfinished task: a run that refunds twice |
| `RefundRuns.ExistingFailedTask` | relay/mjproxy_handler.go:696-729 | a submission that the upstream answers with an existing failed task, and any response at all: a run that refunds twice |
| `RefundRuns.InsertedSettledIff` | relay/mjproxy_handler.go:657-729 | a charged submission inserts a row that is failed and unfinished if and only if the answer is an existing failed task |
| `RefundRuns.RepeatedResponsePaysTwice` | controller/midjourney.go:153-219 | responses that may list a task twice, for all those that do harm: a run that refunds twice |
| `Refunds.NextKeepsInv` | controller/midjourney.go:153-219 | every step, submissions of any allowed row included, keeps the invariant that ties refunds, open debts, statuses and the workers' copies together |
| `Midjourney.SkippedLosesNothing` | controller/midjourney.go:228-281 | a response the check skips would have changed nothing but properties and buttons |
| `Midjourney.SettledIff` | controller/midjourney.go:228-281 | a response already taken over needs another update if and only if it fails a task that it does not report complete |
| `Midjourney.VerdictIff` | controller/midjourney.go:160-166 | a poller fails a task if and only if the response does or the task is unfinished more than 3600000 milliseconds after its submission, and then it says so |
| `Midjourney.UpdatedReports` | controller/midjourney.go:170-211 | a response taken over can be read off the row column by column; a failed task is complete, absent properties and buttons stay, the bill is untouched |
| `Midjourney.NotifiedReports` | relay/mjproxy_handler.go:225-237 | a notification taken over can be read off the row as it came, but for properties and buttons |
| `Midjourney.RefundDueIff` | controller/midjourney.go:204-211 | a refund is due if and only if the task failed and was charged |
| `Midjourney.PayBackIff` | model/midjourney.go:208-302 | a refund is paid if and only if the row still holds the expected quota, which moves to the refunded amount |
| `Midjourney.BulkFailsOnly` | controller/midjourney.go:61-66 | failing tasks in bulk finishes exactly the rows named, and refunds nothing |
| `Midjourney.InsertedAs` | relay/mjproxy_handler.go:657-729 | when a submission inserts a charged, a complete, or a refused task |
| `Midjourney.TaskCopy.Overwrite` | controller/midjourney.go:169-211 | the copy of the row takes over the response, and a refund is due exactly on a failure with quota |
| `Midjourney.TaskCopy.RefundQuota` | service/midjourney_billing.go:15-70 | a refund is paid only if the row still holds the quota, which it clears |
| `Midjourney.Database.UpdateWithStatus` | model/midjourney.go:197-203 | the row is replaced if and only if it still has the status the poller saw |
| `Midjourney.Handle` | controller/midjourney.go:153-219 | one response item: timeout verdict, update check, overwrite, compare-and-set, refund |
| `Midjourney.HandledIsTwoSteps` | controller/midjourney.go:153-219 | handling an item without interference is a respond step followed by a refund step of the protocol |
| `Midjourney.PollOnce` | controller/midjourney.go:40-220 | a whole pass without interference takes exactly the steps of the protocol |
| `Midjourney.HandleNotice` | relay/mjproxy_handler.go:205-255 | a notification without interference takes exactly the steps of the protocol; one for an unknown task is refused |
| `OggScan.ScanCorrect` | common/audio.go:203-249 | on well-formed pages with any bytes between them that start no capture pattern, the scanner lands exactly on the page starts and finds the largest signed granule position, at least zero |
| `OggScan.PagesOnly` | common/audio.go:203-249 | in particular on every plain concatenation of pages (section 6 of RFC 3533) |
| `OggScan.GetOpusDuration` | common/audio.go:196-254 | ends on every input, returns the largest granule position met, and its duration: 48000 granules to the second (section 4 of RFC 7845) |
| `OggScan.ReadPage` | common/audio.go:208-248 | one turn of the loop: too short, no capture pattern, broken segment table, or a page with its length |
| `OggScan.LookPage` | common/audio.go:219-248 | where a page lies its granule position and its length are read |
| `OggScan.CutPageRead` | common/audio.go:235-241 | a last page whose segment table is cut off still tells its granule position and ends the scan |
| `OggScan.CapturedIs` | common/audio.go:219-226 | a page is where the four letters OggS stand |
| `OggScan.LittleEndianRoundTrip` | common/audio.go:228-229 | decoding an encoded little-endian number gives the number |
| `BodyStorage.ReadOutIsWindow` | common/body_storage.go:47-54 | however a body is cut into reads, they return it from the cursor on without gap or repeat |
| `BodyStorage.HoldersAgreeIff` | common/body_storage.go:169-176 | memory and disk answer a read alike if and only if it is not an empty read at the end of an open body |
| `BodyStorage.SeekLeads` | common/body_storage.go:56-63 | where a seek from the start, the cursor and the end leads, and when it is refused |
| `BodyStorage.LastBytes` | common/body_storage.go:178-185 | after a seek to n before the end, long enough reads return the last n bytes |
| `BodyStorage.ClosedStays` | common/body_storage.go:47-81 | a closed body answers every call with its error and does not move |
| `BodyStorage.MemoryStorage.constructor` | common/body_storage.go:37-45 | cursor at the start, open, counted |
| `BodyStorage.MemoryStorage.Read` | common/body_storage.go:47-54 | refines the read of (content, cursor, closed) |
| `BodyStorage.MemoryStorage.Seek` | common/body_storage.go:56-63 | refines the seek of (content, cursor, closed) |
| `BodyStorage.MemoryStorage.Bytes` | common/body_storage.go:74-81 | refines the whole-body read of (content, cursor, closed) |
| `BodyStorage.BytesAreReads` | common/body_storage.go:74-81 | the whole body is what a seek to the start and long enough reads return |
| `BodyStorage.MemoryStorage.Close` | common/body_storage.go:65-72 | closed; counted off the first time only |
| `BodyStorage.DiskStorage.constructor` | common/body_storage.go:100-130 | cursor at the start, open, counted |
| `BodyStorage.DiskStorage.Read` | common/body_storage.go:169-176 | refines the read of (content, cursor, closed) |
| `BodyStorage.DiskStorage.Seek` | common/body_storage.go:178-185 | refines the seek of (content, cursor, closed) |
| `BodyStorage.DiskStorage.Bytes` | common/body_storage.go:198-230 | refines the same by seeking and reading, and leaves the cursor where it was |
| `BodyStorage.DiskStorage.Close` | common/body_storage.go:187-196 | closed; counted off the first time only |
| `BodyStorage.CreateBodyStorage` | common/body_storage.go:241-259 | on disk exactly when enabled, large enough, within the room left and the disk works; the disk counter stays within its maximum |
| `BodyStorage.CreateFromReader` | common/body_storage.go:262-303 | failed, too large or stored exactly in the stated cases, on disk exactly when announced or found large enough with room and a working disk; what is stored is what was read and is counted once |
| `BodyStorage.AcceptedIff` | common/body_storage.go:284-290 | a body is accepted if and only if its length is within the limit, and stored whole unless the limit is the largest 64-bit integer |
| `BodyStorage.StoredIff` | common/body_storage.go:262-303 | for every limit but the largest an arriving body is stored, whole, if and only if it does not break off, is within the limit and is not to be written to a failing disk as it is read; and where it goes |
| `BodyStorage.RefusedIff` | common/body_storage.go:284-290 | for every limit but the largest: a body over the limit is too large, and one within it fails if and only if it breaks off |
| `BodyStorage.WholeBodies` | common/body_storage.go:262-303 | over any run with a working disk the stored bodies are exactly those that do not break off and are within their limit, in order |
| `BodyStorage.NothingBroken` | common/body_storage.go:284-290 | over any run every stored body is the whole content of a request that did not break off and was within its limit |
| `BodyStorage.NothingOnDisk` | common/body_storage.go:241-259 | without the disk cache no body is on disk |
| `BodyStorage.WithinRoom` | common/body_storage.go:262-280 | over any run in which no request announces less than it sends the disk counter stays within its maximum |
| `BodyStorage.HitsExact` | common/body_storage.go:279-302 | the hits are the numbers of bodies ever placed on disk and in memory |
| `BodyStorage.Replay` | common/body_storage.go:37-303 | storage objects driven through any run of arrivals and closings, repeated ones included, are the storages of the run with the contents that were read, and the counters are the number and total size of those still open |
| `BodyStorage.ServerExact` | common/disk_cache_config.go:108-134 | after any run of requests the counters are exact |
| `BodyStorage.ServerFollows` | common/disk_cache_config.go:108-134 | any run of requests opens and closes storages as the accounting has it |
| `BodyStorage.TakeIn` | common/body_storage.go:262-303 | an arriving body becomes a new storage object, counted, exactly when it can be read and is within the limit |
| `BodyStorage.CloseAt` | common/body_storage.go:187-196 | closing a storage object counts it off the first time only and touches no other |
| `CacheStats.ExactIff` | common/disk_cache_config.go:108-134 | over every sequential run the counters are the number and total size of the open bodies after each step, if and only if no cleanup takes the file of an open body |
| `CacheStats.ExactWithoutCleanup` | common/disk_cache_config.go:108-134 | without cleanup by age the counters are always exact, repeated closing included |
| `CacheStats.DiskNeverNegative` | common/disk_cache_config.go:115-122 | in every run, cleanup included, the disk counters stay at zero or above |
| `CacheStats.CleanupMiscounts` | common/disk_cache.go:129-135 | a run with cleanup after which an open body is not counted |
| `CacheStats.Stats.IncrementDiskFiles` | common/disk_cache_config.go:109-112 | one more file and its size |
| `CacheStats.Stats.DecrementDiskFiles` | common/disk_cache_config.go:115-122 | one file and its size less, held at zero |
| `CacheStats.Stats.IncrementMemoryBuffers` | common/disk_cache_config.go:125-128 | one more buffer and its size |
| `CacheStats.Stats.DecrementMemoryBuffers` | common/disk_cache_config.go:131-134 | one buffer and its size less, not held at zero |
| `QuotaMath.SaturateInRange` | common/quota_math.go:72-86 | every conversion stays within the 32-bit range |
| `QuotaMath.ReportIff` | common/quota_math.go:72-86 | a clamp is reported if and only if the value is no number or reaches an end of the range, with kind, original value, conversion and the value it becomes |
| `QuotaMath.ReportedBy` | common/quota_math.go:88-167 | each conversion reports under its own name, and the strict ones refuse with the report |
| `QuotaMath.QuotaMonotone` | common/quota_math.go:95-148 | truncation, rounding and ceiling are monotone over all floats but not-a-number |
| `QuotaMath.QuotaIsClamped` | common/quota_math.go:72-148 | each conversion of a finite value is its whole number clamped to the range |
| `QuotaMath.StrictIff` | common/quota_math.go:88-153 | exactly which values the strict conversions accept |
| `QuotaMath.StrictCeilLeast` | common/quota_math.go:136-153 | an accepted ceiling is the least whole number that covers the charge |
| `QuotaMath.NonNegativeOrder` | common/quota_math.go:95-148 | for a charge that is not negative: truncation, rounding, ceiling in this order and within one unit |
| `QuotaMath.OrderIff` | common/quota_math.go:95-128 | rounding is at least truncation if and only if the charge is not negative, is below the range, or lies less than half a unit past a whole number |
| `QuotaMath.DecimalExact` | common/quota_math.go:155-167 | for every monotone conversion to floats that is exact up to 2^53 the decimal path is the exact rounding, clamped, and reports a clamp exactly at the ends of the range |

## Left out

- Playground: HTTP headers, the flushing of the underlying connection and the latency field of the final event; the requests before and after the stream; the JSON form of the events.
- Request log: the key classifiers, the regular expressions for credentials and assignments and the host masking are parameters; URL, header, form and multipart rendering are not modelled.
- LogMasker.Mask: takes the pattern matches as given index tuples, so it says nothing about what the pattern matches.
- LogSanitizer.Value: an object is a map and its sorted key order is a parameter that lists every key once; the byte order of the sort is not used.
- MultiKey: actions are atomic steps; the row is loaded before the lock is taken, and interleavings of two requests are not modelled.
- KeyChanges.AppendKeys: the input of Vertex AI channels, JSON keys that are not cut into lines, is not modelled; their deduplication is.
- KeyText: white space is ASCII white space; Unicode spaces are not modelled, nor is a key list already cached on the channel object.
- Reconcile: model lists are sequences of names, so the comma-separated string of a channel is not modelled; names are taken to hold no comma. The parsing of the redirect map, failing database writes and the notifications are left out.
- RateLimiter: a negative limit, on which the program would fail to allocate its queue; the locking, since requests are atomic steps.
- Midjourney: fetching the responses, the grouping of tasks by channel, the audit log; the refund transaction is one atomic step. The unconditional save that corrects a task's quota after a failed settlement (relay/mjproxy_handler.go:746-753) is not a step of the protocol.
- OggScan: reading errors other than the end of the stream; the other audio formats are wrappers over libraries.
- BodyStorage: whence values other than the three standard ones, short reads of a regular file, a failing seek, and removal of the file itself; 64-bit overflow of the counters.
- CacheStats.ExactIff: counts body storages only; the media files that share the disk counters are not modelled, nor are the two resets of the counters.
- QuotaMath: floats are extended reals, since rounding to whole numbers is exact on them; logging of clamps.
- Handlers, authentication, pricing administration, relay adaptors, caching and the frontend: plumbing over libraries and the database.
