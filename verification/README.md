# Verified models of Collectivus

Collectivus records the traffic of language-model clients and OTLP exporters. Its hard logic is a set of small
state machines and text or byte transformations, kept apart from input and output. This project models those in Dafny
and proves what they are for: that attaching to a Codex configuration can be undone and repeated, that streams are
rebuilt whatever their chunking and interleaving, that log requests survive decoding, that replayed conversations are
recorded once, that a buffered writer loses nothing in memory under any failures.

Each core file has a module (or a few). Code that changes state step by step is a class or a method with loops, proved
against a function; the theorems are about that function, over all inputs or all runs. The first module of each row
below holds the model (the first two or three where a file was split by concern), the others the proofs about it. What
the programs read (lines, stream rows, messages, wire bytes, event-stream lines) is stated a second time on its own, as
explicit texts, bytes and objects: `SseGrammar`, `StreamWire`, `OtlpWire`, `MessageFields`, `TomlGrammar`,
`TomlStrings`, `CodexTomlFiles`, `JsonText`.

| module | source |
|---|---|
| `Sse`, `SseGrammar` | `src/sse.js` |
| `StreamReconstruct`, `StreamTheorems`, `StreamWire` | `src/cli/stream-reconstruct.js` |
| `TomlText`, `TomlGrammar`, `TomlStrings`, `CodexToml`, `CodexTomlLines`, `CodexTomlFiles`, `CodexTomlTheorems`, `CodexTomlInputs`, `CodexTomlEffect`, `CodexTomlClean` | `src/codex/toml-config.js` |
| `Protobuf`, `OtlpLogs`, `OtlpWire` | `src/protobuf.js`, `src/otlp/logs.js` |
| `CanonicalJson`, `JsonText`, `CanonicalTheorems`, `CanonicalOrder`, `MessageIds`, `MessagesWalker`, `MessageFields`, `WalkerTheorems`, `WalkerHistory` | `src/cli/messages-parquet.js`, `src/cli/messages-walker.js` |
| `ParquetWriter`, `ParquetTheorems`, `ParquetCursor` | `src/gascity/parquet_writer.js` |
| `TemplateFilter` | `src/gascity/template_filter.js` |
| `Recorder`, `RecorderTheorems`, `RecorderRows` | `src/recorder.js` |
| `Ignore`, `IgnoreTheorems`, `IgnoreRules` | `src/ignore.js` |
| `Plist`, `PlistTheorems` | `src/daemon/macos.js`, `src/cli/common.js` |
| `Version` | `src/update.js` |
| `Text`, `Wrappers` | JavaScript primitives and optional values |

`dafny verify dfyconfig.toml` checks everything.

## Findings

Where a promised property is false of the code, the code was kept and the exact condition proved:

- Attaching twice loses a previous provider whose name holds U+2028 or U+2029 (`AttachIdempotent`, `SeparatorIsLost`).
- Attaching has no effect on a file that leaves a multi-line string open in its root, though the file then counts as
  attached (`AttachTakesEffectIff`, `AttachHasNoEffect`).
- A root provider that opens a multi-line string leaves the rest of the string behind; a later value can then come into
  view as a root value, and attaching twice differs (`AttachIdempotent`, `ValueComesIntoView`, `SecondAttachDiffers`).
- A restored provider is not read back when a multi-line string is left open before it (`ValueReadsBack`,
  `RestoredValueReadsBack`, `RestoredIsUnread`).
- A blank line in an event stream whose line end differs from that of the line before is not seen where it stands:
  ended by CR LF after LF, it lets two events run together (`BlankLineIff`, `MixedBlankLine`).
- `**` in a glob does not match across line terminators (`PatternPreservedIff`, `MeaningPreservedIff`).
- Message ids know no positions, so a conversation that says the same thing twice keeps only the first
  (`NoneLeftOutIff`, `RepeatIsLost`).
- Canonical JSON drops keys named `__proto__` (`CanonicalIff`, `ProtoIsLost`); message ids confuse conversations and
  roles exactly when these hold colons (`ColonIff`, `PreimageIff`, `ColonCollision`).
- The comment on part-file names in src/gascity/paths.js says that their counters come from the cursor. They do not: a
  new process counts from 0 and overwrites the files of the same day (`OverwritesIff`, `RestartOverwrites`).
- The cursor can name a row that is in no file (`CursorRunsAhead`, `CursorNamesFileIff`), a failed flush can make a later
  one overwrite a completed file (`FailureLosesRows`, `OverwritesIff`), and a failed cursor write makes the flushed
  count too large (`AtRest`, `CursorFailureCountsTwice`).
- The marker lookup is documented to give the directory with the marker; an answer from its cache gives the directory
  asked for (`AnswerIs`, `MarkerDirIff`, `SecondAnswerDiffers`).
- The comment on the marker search says that an unreadable directory does not disable the filter. It does: a marker
  above it is not found (`MarkerIff`, `UnreadableHides`).
- Ignoring the root directory ignores nothing below it (`CoversIff`, `RootCoversNothing`).
- A node or binary path equal to the configuration flag hides the configuration path (`ConfigPathIff`,
  `FlagAsNodePath`).
- Deltas of unknown type are documented as ignored; one for a block that was never started makes an empty block
  (`OtherDeltaIff`).

## Model

| member | source | states |
|---|---|---|
| `CodexToml.FormatLinesLoop` | src/codex/toml-config.js:145-152 | The two trimming loops write exactly the lines without leading and trailing blank ones, each ended by LF; nothing for no lines. |
| `CodexToml.FindNextTableIndex` | src/codex/toml-config.js:236-249 | The scan stops at the first table header outside multi-line strings, or at the end. |
| `CodexToml.InsertRootLines` | src/codex/toml-config.js:159-165 | Lines are spliced in before the first table and after trailing blanks of the root, all others kept in order. |
| `CodexToml.RemoveRootModelProvider` | src/codex/toml-config.js:171-201 | Drops every root `model_provider` line outside strings, keeps all other lines in order, returns the first of their values that parses. |
| `CodexToml.ReadRootModelProvider` | src/codex/toml-config.js:207-221 | The first root `model_provider` value that parses, read with string tracking and only up to the first table. |
| `CodexToml.RemoveProviderTable` | src/codex/toml-config.js:255-273 | The loop that jumps from table to table equals a one-pass filter that drops a collectivus section up to the next header outside strings. |
| `CodexToml.RemoveProviderDottedAssignments` | src/codex/toml-config.js:279-315 | Drops exactly the collectivus assignments (dotted, or inside `[model_providers]`) with the lines of a multi-line value they open. |
| `CodexToml.RemoveMarkedBlock` | src/codex/toml-config.js:323-345 | Removes every marked block; an unclosed block is the error. |
| `CodexToml.HasMarkedBlock` | src/codex/toml-config.js:353-364 | Reports a closed block, none, or the error of an unclosed one. |
| `CodexToml.ReadPreviousModelProvider` | src/codex/toml-config.js:370-405 | The previous provider recorded inside the root block. |
| `CodexToml.ReadManagedProviderBaseUrl` | src/codex/toml-config.js:378-380 | The base URL assigned inside the provider block. |
| `CodexToml.PrepareAttach` | src/codex/toml-config.js:35-77 | The whole attach equals the composition of the passes above, with the block texts written out, and refuses what they refuse. |
| `CodexToml.PrepareDetach` | src/codex/toml-config.js:83-117 | The whole detach: removed blocks, the values read from them, and whether the previous provider is put back. |
| `CodexToml.IsManagedAttached` | src/codex/toml-config.js:123-127 | Both marked blocks are present. |
| `CodexToml.SectionFilterJump` | src/codex/toml-config.js:236-273 | What jumping to the next table skips is what the one-pass filter drops. |
| `TomlText.HasClosingMultilineString` | src/codex/toml-config.js:537-554 | Finds an unescaped closing delimiter if and only if there is one. |
| `TomlText.IsEscaped` | src/codex/toml-config.js:550-554 | A place is escaped when an odd run of backslashes ends before it. |
| `TomlText.StringRoundTrip` | src/codex/toml-config.js:460-484 | Parsing a printed string gives it back, for every string. |
| `CodexTomlLines.KeptIsSettled` | src/codex/toml-config.js:171-195 | After the three removal passes no provider table and no provider assignment is left, whatever the file; nor a root value, when none of those removed opened a multi-line string. |
| `CodexTomlTheorems.TomlBlankIsInert` | src/codex/toml-config.js:227-249 | Blank lines are neither headers nor assignments and open no string, for the actual regular expressions. |
| `CodexTomlTheorems.AttachIsManaged` | src/codex/toml-config.js:35-127 | After attaching any file that can be attached, the managed check holds. |
| `CodexTomlTheorems.DetachUndoesAttach` | src/codex/toml-config.js:35-117 | For every file that can be attached: detaching gives the kept lines with the recorded provider put back, unless a root value has come into view in them, which is then left in place with a warning; none does when no root value opened a multi-line string. |
| `CodexTomlTheorems.AttachIdempotent` | src/codex/toml-config.js:35-77 | For every file that can be attached: attaching again with the same clock changes nothing if and only if the value to record holds no U+2028 or U+2029 and no root value comes into view in the kept lines. |
| `CodexTomlTheorems.UntouchedComesBack` | src/codex/toml-config.js:35-117 | For a file with nothing of collectivus and no root provider, detach after attach is exactly the reformatted file. |
| `CodexTomlTheorems.ValueComesBack` | src/codex/toml-config.js:35-117 | With one root provider value, detach after attach keeps every other line in order and restores the assignment; a value with U+2028 or U+2029 is lost instead. |
| `CodexTomlTheorems.RestoredLine` | src/codex/toml-config.js:433-454 | The line written back is a root provider line, opens no string and parses to the value. |
| `CodexTomlTheorems.RestoredValueReadsBack` | src/codex/toml-config.js:95-117 | Where the program puts the value back, the root reads it if and only if no multi-line string is left open before that place. |
| `CodexTomlTheorems.ValueReadsBack` | src/codex/toml-config.js:35-117 | For a file with one root provider: the file that attach and then detach leave reads as that provider if and only if it holds no U+2028 or U+2029 and the root lines before it leave no multi-line string open; otherwise as none. |
| `CodexTomlTheorems.RemoveOneValue` | src/codex/toml-config.js:171-195 | A single root value in any position is removed and returned, all other lines kept. |
| `CodexTomlTheorems.RemoveFirstBlock` | src/codex/toml-config.js:323-364 | A block between two marker-free parts is found and cut out exactly. |
| `CodexTomlTheorems.MatchPrevious` | src/codex/toml-config.js:389-405 | The record of the previous provider is recognised if and only if it holds no line or paragraph separator. |
| `CodexTomlFiles.LinesComeBackIff` | src/codex/toml-config.js:133-139 | A file splits into its lines, each ended by LF, CR LF or a lone CR in any mixture, finished or not, if and only if no lone CR stands before the LF of an empty line. |
| `CodexTomlFiles.LineEndsDoNotMatter` | src/codex/toml-config.js:35-139 | Attach, detach and the managed check answer alike for files of the same lines, whatever ends the lines. |
| `CodexTomlFiles.FormattedText` | src/codex/toml-config.js:145-152 | The written file is the lines between the outer blank ones, each ended by LF. |
| `TomlGrammar.TableHeaderIff` | src/codex/toml-config.js:14-17 | A table header is a key path of bare, basic-quoted or literal-quoted parts in single or double brackets, with white space anywhere between and perhaps a comment. |
| `TomlGrammar.ProviderHeaderIff` | src/codex/toml-config.js:19-24 | The header of the collectivus provider, or of a table inside it, in every quoting, spacing and bracketing. |
| `TomlGrammar.ProvidersHeaderIff` | src/codex/toml-config.js:22 | The header of the table of providers, in single brackets only. |
| `TomlGrammar.RootAssignmentIff` | src/codex/toml-config.js:18-27 | A root provider line sets `model_provider`, bare or in either quotes. |
| `TomlGrammar.DottedAssignmentIff` | src/codex/toml-config.js:21-25 | A dotted assignment sets a key below the collectivus provider. |
| `TomlGrammar.ChildAssignmentIff` | src/codex/toml-config.js:20-26 | A child assignment sets the collectivus key, or one below it. |
| `TomlGrammar.BaseUrlIff` | src/codex/toml-config.js:421 | The assignment of the base URL, anywhere white space may stand. |
| `TomlGrammar.LiteralValue` | src/codex/toml-config.js:460-473 | A value in single quotes is read as it stands, whatever follows it. |
| `TomlGrammar.OtherValue` | src/codex/toml-config.js:460-473 | A value in no quotes is none. |
| `TomlGrammar.AssignedOpens` | src/codex/toml-config.js:498-531 | A value that begins with three quotes opens a multi-line string, unless it is closed on the line. |
| `TomlGrammar.BareOpens` | src/codex/toml-config.js:498-531 | So does a line that sets nothing and begins with them. |
| `TomlGrammar.CommentOpens` | src/codex/toml-config.js:526-530 | A comment opens nothing. |
| `TomlStrings.SpelledValue` | src/codex/toml-config.js:460-473 | A value in double quotes means what its characters mean, however they are spelled (as they are, by letter, by code in either case) and whatever follows. |
| `TomlStrings.SpelledOnly` | src/codex/toml-config.js:460-473 | A control character inside the quotes makes the value none. |
| `TomlStrings.EscapedOnly` | src/codex/toml-config.js:460-473 | So does a backslash before any other letter. |
| `CodexTomlEffect.AttachTakesEffectIff` | src/codex/toml-config.js:35-77 | The root of the attached file reads a value that the user's own lines hold in view; else collectivus, if and only if no multi-line string is open where the assignment was written; else nothing. |
| `CodexTomlEffect.AttachHasNoEffect` | src/codex/toml-config.js:35-77 | A file whose only line opens a string: it is attached, passes the managed check and reads no provider. |
| `CodexTomlClean.NoProviderHeader` | src/codex/toml-config.js:255-273 | In what is kept of any file, no line outside multi-line strings heads the collectivus provider. |
| `CodexTomlClean.NoProviderKey` | src/codex/toml-config.js:279-315 | No such line before the first table sets a key of it. |
| `CodexTomlClean.NoProviderChild` | src/codex/toml-config.js:279-315 | No such line of a `[model_providers]` table sets one. |
| `CodexTomlClean.UnclosedRoot` | src/codex/toml-config.js:323-364 | A file whose root block is never closed is refused by attach, detach and the managed check. |
| `CodexTomlClean.UnclosedProvider` | src/codex/toml-config.js:83-127 | A file whose provider block is never closed is refused by attach and detach; without a root block the managed check just says no. |
| `CodexTomlClean.WrittenBlocks` | src/codex/toml-config.js:46-72 | The attached file, line by line: the user's lines around the root block and the provider block behind them. |
| `CodexTomlTheorems.SeparatorIsLost` | src/codex/toml-config.js:35-77 | A file whose only line sets the provider to U+2028: the second attach differs. |
| `CodexTomlInputs.RestoredIsUnread` | src/codex/toml-config.js:95-117 | A file of a root provider and a line that opens a string: after attach and detach the provider is not read back. |
| `CodexTomlInputs.ValueComesIntoView` | src/codex/toml-config.js:171-201 | A file whose root value opens a string: the passes leave a root value in view. |
| `CodexTomlInputs.SecondAttachDiffers` | src/codex/toml-config.js:35-77 | The same file, attached twice: the second attach differs. |
| `StreamReconstruct.SortedKeys` | src/cli/stream-reconstruct.js:313-322 | Insertion into order yields the ascending enumeration of the indices. |
| `StreamReconstruct.EnumerationUnique` | src/cli/stream-reconstruct.js:313-322 | That enumeration is unique, so the order of the content is determined. |
| `StreamReconstruct.FinalizeAll` | src/cli/stream-reconstruct.js:130-132 | Closing all open blocks, in any order of indices, closes each as if alone. |
| `StreamReconstruct.StartBlock` | src/cli/stream-reconstruct.js:88-97 | A block start replaces only the entries of its index. |
| `StreamReconstruct.DeltaBlock` | src/cli/stream-reconstruct.js:98-105 | A delta changes only the entries of its index, making a block when there is none. |
| `StreamReconstruct.StopBlock` | src/cli/stream-reconstruct.js:106-111 | A stop closes only the block of its index. |
| `StreamReconstruct.BlockEvent` | src/cli/stream-reconstruct.js:88-111 | Any block event leaves all other indices alone. |
| `StreamReconstruct.ReconstructAssistantMessage` | src/cli/stream-reconstruct.js:71-142 | The loop over rows computes the fold of the steps, and the result lists the closed blocks by ascending index. |
| `StreamTheorems.BlockProjection` | src/cli/stream-reconstruct.js:88-111 | The block at an index depends only on the events that name the index, whatever is interleaved. |
| `StreamTheorems.MessageProjection` | src/cli/stream-reconstruct.js:84-87 | The message fields depend only on the message events. |
| `StreamTheorems.RunText` | src/cli/stream-reconstruct.js:246-255 | Text deltas append, however the text was split. |
| `StreamTheorems.RunThinking` | src/cli/stream-reconstruct.js:263-275 | Thinking deltas append; the last signature counts. |
| `StreamTheorems.RunTool` | src/cli/stream-reconstruct.js:256-262 | Input fragments accumulate in order. |
| `StreamTheorems.PiecesRebuild` | src/cli/stream-reconstruct.js:246-304 | Closing a block after its deltas gives the original block: text or thinking opened with any part of it and a provisional signature, tool input, or anything sent whole. |
| `StreamTheorems.StreamedBlock` | src/cli/stream-reconstruct.js:88-111 | Start, deltas and any number of stops (none included) rebuild the block. |
| `StreamTheorems.StreamingInverted` | src/cli/stream-reconstruct.js:71-142 | For every interleaving that keeps each index's own order, with any other rows anywhere, the original message comes back with content in index order. |
| `StreamTheorems.FoldedMessage` | src/cli/stream-reconstruct.js:181-197 | After any deltas the last non-null stop reason and sequence win and the usage is u0 + u1 + .. + un. |
| `StreamTheorems.MergedField` | src/cli/stream-reconstruct.js:193-196 | Under every key the merged usage holds what the last usage with that key says. |
| `StreamTheorems.StreamedMessage` | src/cli/stream-reconstruct.js:71-142 | The whole rebuilt message, field by field, for every interleaving. |
| `StreamTheorems.TruncatedMessage` | src/cli/stream-reconstruct.js:136-139 | Without message_stop the same message, marked as an error exactly when no reason was seen. |
| `StreamTheorems.StrangersIgnored` | src/cli/stream-reconstruct.js:116-118 | Rows of unknown types, or without usable data, change nothing wherever they are inserted. |
| `StreamTheorems.OtherDeltaIff` | src/cli/stream-reconstruct.js:211-232 | A delta of unknown type is ignored if and only if the block at its index was started; otherwise it makes an empty text block. |
| `StreamTheorems.FirstDelta` | src/cli/stream-reconstruct.js:213-231 | A delta without a start acts as on the block its type stands for. |
| `StreamWire.RowRead` | src/cli/stream-reconstruct.js:333-350 | A row is read as the object it carries, whether as JSON text or as a value; any other row changes nothing. |
| `StreamWire.RecordedMessage` | src/cli/stream-reconstruct.js:71-142 | From the sent events alone, as explicit JSON objects with any further fields, as text or as values, in any interleaving and with rows between that say nothing: the message comes back, blocks without a start and unparseable tool input included. |
| `StreamWire.MessageEvent` | src/cli/stream-reconstruct.js:84-115 | In any state: a head replaces what was announced, a closing delta before a head is ignored, a stop is noted. |
| `StreamWire.BlockStarts` | src/cli/stream-reconstruct.js:88-97 | In any state a start replaces the block of its index; only a tool forgets input sent before. |
| `StreamTheorems.MetadataComesBack` | src/cli/stream-reconstruct.js:153-197 | A message announced without its ending and with part of its usage, and closed by one delta, has all its fields again. |
| `Protobuf.DataReader.ReadVarint` | src/protobuf.js:24-38 | The loop that switches from OR to addition at bit 28 returns the base-128 value and leaves the reader just behind it. |
| `Protobuf.DataReader.ReadVarBigInt` | src/protobuf.js:47-56 | The same value and position with OR throughout: the two readers agree. |
| `Protobuf.DataReader.ReadVarInt64` | src/protobuf.js:64-67 | The value read as 64-bit two's complement. |
| `Protobuf.DataReader.ReadFieldTag` | src/protobuf.js:95-98 | Field number and wire type of the tag, reader behind it. |
| `Protobuf.DataReader.ReadFixedWidth` | src/protobuf.js:106-146 | Little-endian value of four or eight bytes, reader behind it. |
| `Protobuf.DataReader.ReadLengthDelimited` | src/protobuf.js:179-187 | The byte string, or the error when it runs past the end. |
| `Protobuf.DataReader.SkipField` | src/protobuf.js:196-212 | Skips exactly one value of the wire type, or fails. |
| `Protobuf.AddGroup` | src/protobuf.js:24-38 | Below bit 28, OR of a shifted group is addition. |
| `Protobuf.AccumulateIsVarint` | src/protobuf.js:24-56 | Accumulating shifted groups is the recursive base-128 value. |
| `Protobuf.VarintRoundTrip` | src/protobuf.js:24-56 | Reading an encoded number gives the number and consumes exactly its bytes. |
| `Protobuf.Int64RoundTrip` | src/protobuf.js:64-67 | Every signed 64-bit value is read back from its encoding. |
| `Protobuf.ZigzagBijection` | src/protobuf.js:75-87 | Zigzag decoding is a bijection between naturals and integers; the 32-bit form agrees with the wide one. |
| `Protobuf.TagRoundTrip` | src/protobuf.js:95-98 | Every field number below 2^29 and wire type survives. |
| `Protobuf.FixedRoundTrip` | src/protobuf.js:106-146 | Every value that fits the width survives. |
| `Protobuf.BytesRoundTrip` | src/protobuf.js:179-187 | Every byte string survives and is consumed exactly. |
| `Protobuf.VarintGroups` | src/protobuf.js:24-57 | A varint is the number its groups write in base 128, least significant first, also when it takes more groups than needed. |
| `Protobuf.LittleEndianIs` | src/protobuf.js:106-134 | A fixed-width value is in base 256, least significant byte first. |
| `OtlpLogs.DecodeLogRecord` | src/otlp/logs.js:27-53 | The loop builds the record that folding the field tree gives. |
| `OtlpLogs.DecodeScopeLogs` | src/otlp/logs.js:59-77 | As above, one level up. |
| `OtlpLogs.DecodeResourceLogs` | src/otlp/logs.js:83-101 | As above, one level up. |
| `OtlpLogs.DecodeExportLogsServiceRequest` | src/otlp/logs.js:109-123 | As above, for the request. |
| `OtlpLogs.DecodeRecordField` | src/otlp/logs.js:36-49 | One turn of the record switch sets the field of the number, or skips a value of the wire type, and leaves the reader behind it. |
| `OtlpLogs.DecodeEncodedNodes` | src/otlp/logs.js:27-123 | Reading the bytes of any well-formed field tree gives its known fields, foreign ones skipped, at every depth. |
| `OtlpLogs.ExportRoundTrip` | src/otlp/logs.js:27-123 | Decoding the encoding of a nested request gives it back. |
| `OtlpLogs.ForeignFieldsHarmless` | src/otlp/logs.js:39-47 | Foreign fields inserted at any boundary and any depth leave the result unchanged. |
| `OtlpLogs.Concatenation` | src/otlp/logs.js:109-123 | Decoding two requests one after the other concatenates their resource logs. |
| `OtlpWire.RecordRead` | src/otlp/logs.js:27-53 | Log records written byte by byte with literal tags: fields in any order, repeated or missing, with well-formed fields of other numbers between, read as they say. |
| `OtlpWire.RequestRead` | src/otlp/logs.js:27-122 | The same for whole requests, at every depth. |
| `Sse.FindSeparator` | src/sse.js:71-79 | Two independent searches find the first blank line of either form. |
| `Sse.ParseBlockLoop` | src/sse.js:93-125 | The field loop computes the event of a block, or none. |
| `Sse.SseParser.Feed` | src/sse.js:31-46 | One feed returns the events of the complete blocks and keeps the tail. |
| `Sse.SeparatorStable` | src/sse.js:71-79 | The first separator of a prefix stays first after any extension. |
| `Sse.CutAppend` | src/sse.js:31-46 | Cutting a + b is cutting a and then its rest with b. |
| `Sse.ChunkIndependence` | src/sse.js:31-46 | Any chunking gives the events and the buffer of one feed of the whole text. |
| `Sse.ParseWritten` | src/sse.js:93-125 | Exactly what comes back of a written event: CRs before line ends and leading empty data lines are gone. |
| `Sse.RoundTripIff` | src/sse.js:93-125 | Writing events and feeding them in any chunks returns the list and an empty buffer if and only if the grammar can carry each: no LF in event or id, no CR before a line end, data not starting with LF (fields as in section 9.2.6 of the WHATWG HTML Standard). |
| `SseGrammar.StreamRead` | src/sse.js:31-46 | Any stream of fields with or without a space or a value, comments and unknown names, with LF or CR LF ends, in any chunks: exactly the described events, and the unfinished rest is kept. |
| `SseGrammar.BlankLineIff` | src/sse.js:71-79 | A blank line is seen where it stands if and only if it ends like the line before it. |
| `SseGrammar.MixedBlankLine` | src/sse.js:71-79 | A blank line ended by CR LF after a line ended by LF: two events become one. |
| `TemplateFilter.GlobToRegex` | src/gascity/template_filter.js:45-71 | The loop writes the regular expression of the pattern. |
| `TemplateFilter.CompilationMeaning` | src/gascity/template_filter.js:45-71 | Read by a regular-expression parser and matcher, the text accepts, on every template, what the glob means with `**` kept within a line. |
| `TemplateFilter.LineMatchesIsGlob` | src/gascity/template_filter.js:45-71 | That is the documented meaning on one-line templates, and on all templates when the pattern holds no `**`. |
| `TemplateFilter.CompilationPreservesMeaning` | src/gascity/template_filter.js:45-71 | Read by a regular-expression parser and matcher, that text accepts what the glob means, on templates without line terminators. |
| `TemplateFilter.MeaningPreservedIff` | src/gascity/template_filter.js:45-71 | Exactly the templates without line terminators are judged rightly by all patterns (the dot does not match those). |
| `TemplateFilter.PatternPreservedIff` | src/gascity/template_filter.js:50-54 | Exactly the patterns without `**` are judged rightly on all templates. |
| `TemplateFilter.ParseCompiled` | src/gascity/template_filter.js:45-71 | The emitted text parses back to the items of the pattern. |
| `TemplateFilter.CompileFilter` | src/gascity/template_filter.js:20-24 | Both lists compiled in order, with the default that captures everything. |
| `TemplateFilter.Matches` | src/gascity/template_filter.js:25-34 | Some include matches and no exclude does. |
| `TemplateFilter.CompileAndMatch` | src/gascity/template_filter.js:20-35 | On every template: some include glob and no exclude glob, with `**` within a line; the documented meaning on one-line templates; without lists exactly those are captured. |
| `CanonicalTheorems.SortKeysMeaning` | src/cli/messages-parquet.js:615-627 | Sorting keys changes neither values nor keys at any depth (`__proto__` aside). |
| `CanonicalTheorems.SameSorted` | src/cli/messages-parquet.js:615-627 | Values equal up to key order are sorted to the same value. |
| `CanonicalTheorems.PrintInjective` | src/cli/messages-parquet.js:607-609 | Printed values, with anything after them, determine the value: the printer is injective. |
| `CanonicalTheorems.CanonicalIff` | src/cli/messages-parquet.js:607-627 | Two values have one canonical text if and only if they are equal up to key order at every depth, `__proto__` keys ignored. |
| `CanonicalTheorems.ProtoIsLost` | src/cli/messages-walker.js:515-527 | A key named `__proto__` is dropped by the assignment, so an object with it and one without share a text. |
| `JsonText.ReadsBack` | src/cli/messages-parquet.js:607-609 | Printed values are JSON text: a reader of its grammar gives the value back and stops right behind it. |
| `CanonicalOrder.CanonicalOrder` | src/cli/messages-parquet.js:615-627 | At every depth canonical JSON lists array indices first, by value, and then the other keys, by UTF-16 code units. |
| `CanonicalOrder.IsIndexIff` | src/cli/messages-parquet.js:619-623 | Array indices are the decimal numbers below 2^32 - 1. |
| `MessageIds.SameIdIff` | src/cli/messages-parquet.js:287-290 | Two contents have the same id under every hash exactly when they differ at most in key order. |
| `MessageIds.PreimageIff` | src/cli/messages-parquet.js:287-290 | For all names and contents: two messages share the hashed text if and only if the contents differ at most in key order and conversation, colon and role read the same. |
| `MessageIds.ColonIff` | src/cli/messages-parquet.js:287-290 | Whatever the content, another conversation and role share the hashed text of a message if and only if its own hold a colon; among non-empty names, if and only if a colon leaves something on both sides. |
| `MessageIds.LastArray` | src/cli/messages-parquet.js:287-290 | Whatever comes before it, the printed array at the end of the hashed text and the place where it begins are determined. |
| `MessageIds.ColonCollision` | src/cli/messages-parquet.js:289 | Two messages with one hashed text, and so one id under every hash. |
| `MessageIds.EmptyApart` | src/cli/messages-parquet.js:287-290 | An empty message never shares the hashed text of one with content. |
| `MessagesWalker.Walker.WalkExchanges` | src/cli/messages-walker.js:48-176 | The generator's maps and rows follow the walk function over all exchanges. |
| `MessagesWalker.Walker.WalkExchange` | src/cli/messages-walker.js:68-175 | One exchange: start time, tool table, history and answer. |
| `MessagesWalker.Walker.Emit` | src/cli/messages-walker.js:109-174 | One message: skipped, seen before, or emitted and remembered with its predecessor. |
| `MessagesWalker.CollectTools` | src/cli/messages-walker.js:150-161 | The tool table after the emitted rows of a message. |
| `MessageFields.SpeaksIff` | src/cli/messages-walker.js:110-114 | A message counts if and only if its role is a string, and not the empty one. |
| `MessageFields.HoldsIff` | src/cli/messages-parquet.js:465-471 | Its content: an array, a text as one block, or nothing. |
| `MessageFields.CountingMessage` | src/cli/messages-walker.js:109-174 | A message that counts becomes the predecessor; the first time its id is met, and only then, it emits one row per block, with every column given. |
| `MessageFields.OtherMessage` | src/cli/messages-walker.js:110-114 | Any other message is passed over. |
| `MessageFields.AnswerComesLast` | src/cli/messages-walker.js:101-107 | The answer of an exchange is visited after its history. |
| `MessageFields.IdIsPrefix` | src/cli/messages-parquet.js:287-290 | An id is the first sixteen characters of the hash of conversation, role and canonical content. |
| `WalkerTheorems.NeverTwice` | src/cli/messages-walker.js:121-130 | No part of a message is emitted twice, and nothing of a message seen before the walk. |
| `WalkerTheorems.Resumable` | src/cli/messages-walker.js:55-61 | Walking A + B emits what walking A and then B with only A's rows known emits, on all columns but start time and looked-up tool name. |
| `WalkerTheorems.ToolNamesResolve` | src/cli/messages-parquet.js:539-550 | In every walk, read off the fields of the blocks: the row of a call carries its own name, the row of a result the name in the last call with its id emitted for the conversation before its message, if there is one, and no other row a name. |
| `WalkerTheorems.StartTimesStand` | src/cli/messages-walker.js:89-93 | In every walk, every row carries the start time of the first exchange of its conversation. |
| `WalkerHistory.SeenWhenReached` | src/cli/messages-walker.js:121-130 | A message is seen exactly when its id occurs in what is known of the conversation or earlier in the exchange. |
| `WalkerHistory.ReplayedOnce` | src/cli/messages-walker.js:68-175 | Of any interleaved conversations whose exchanges replay and extend them, in any content form and key order, the rows are the messages as first seen, in order, with position and predecessor; a message said before is left out. |
| `WalkerHistory.AnswerReplayed` | src/cli/messages-parquet.js:465-471 | For every role: a message with a text block and further fields is the same message as its replay with role and string content. |
| `WalkerHistory.NoneLeftOutIff` | src/cli/messages-walker.js:121-130 | Every message is emitted if and only if none with content has the id of an earlier one of its conversation. |
| `WalkerHistory.RepeatIsLost` | src/cli/messages-walker.js:121-130 | Any message said twice in one exchange: its parts are emitted once. |
| `ParquetWriter.SessionBuffer.EnsureCursorLoaded` | src/gascity/parquet_writer.js:103-119 | The cursor is adopted once, field by field. |
| `ParquetWriter.SessionBuffer.Append` | src/gascity/parquet_writer.js:192-223 | Accepted rows go to the end of the buffer; uuid, count and time follow the last one; a full buffer schedules a flush. |
| `ParquetWriter.SessionBuffer.RetireSession` | src/gascity/parquet_writer.js:238-247 | The retired mark and a scheduled flush. |
| `ParquetWriter.SessionBuffer.ScheduleFlush` | src/gascity/parquet_writer.js:380-388 | One more flush in the queue, nothing else changed. |
| `ParquetWriter.SessionBuffer.ComposeCursor` | src/gascity/parquet_writer.js:446-458 | The cursor is an image of the buffer at that moment. |
| `ParquetWriter.SessionBuffer.RunFlush` | src/gascity/parquet_writer.js:400-409 | A flush takes all pending rows, or writes only a cursor, or does nothing. |
| `ParquetWriter.SessionBuffer.FileRenamed` | src/gascity/parquet_writer.js:421-425 | After the rename: file, counter, flushed count, cursor composed. |
| `ParquetWriter.SessionBuffer.FlushFailed` | src/gascity/parquet_writer.js:430-437 | A failed flush puts its rows back in front and forgets the day's counter. |
| `ParquetWriter.SessionBuffer.CursorWritten` | src/gascity/parquet_writer.js:425-428 | The cursor is on disk and the flush complete. |
| `ParquetWriter.Conservation` | src/gascity/parquet_writer.js:400-439 | Over every run with appends at any await and any failures: rows accepted = completed + under way + pending, in order. |
| `ParquetTheorems.AtRest` | src/gascity/parquet_writer.js:400-466 | Whenever nothing is pending or under way, all rows are flushed, the cursor names and numbers the last one, and its count exceeds the truth by exactly the rows whose cursor write failed. |
| `ParquetTheorems.CursorFailureCountsTwice` | src/gascity/parquet_writer.js:421-437 | From every start: one row, a failed cursor write after its file landed, a flush without failure. The row counts twice. |
| `ParquetTheorems.FlushReaches` | src/gascity/parquet_writer.js:400-428 | A queued flush that succeeds completes all pending rows. |
| `ParquetTheorems.CursorNamesFileIff` | src/gascity/parquet_writer.js:421-425 | The cursor composed with a file names the file's last row if and only if nothing was accepted meanwhile (or with the same uuid). |
| `ParquetTheorems.CursorRunsAhead` | src/gascity/parquet_writer.js:446-458 | From every state with a file being written, accepting a row first makes the cursor name that row, which no file holds yet. |
| `ParquetTheorems.OverwritesIff` | src/gascity/parquet_writer.js:410-412 | Whatever files were there at the start, a flush overwrites one if and only if its number, the streak of landed flushes since the day's last failure, was taken before the start or an earlier streak was longer. |
| `ParquetTheorems.RestartOverwrites` | src/gascity/parquet_writer.js:409-410 | A process started on a day with a first file replaces that file with its own first flush, without any failure. |
| `ParquetTheorems.CleanNumbers` | src/gascity/parquet_writer.js:409-432 | Without failures the current streak is always the longest, so by the above no name is reused. |
| `ParquetTheorems.FailureLosesRows` | src/gascity/parquet_writer.js:432 | From every state at rest with a first file of the day, a failed flush and its retry overwrite that file, though its rows count as completed. |
| `ParquetTheorems.CleanRun` | src/gascity/parquet_writer.js:400-428 | Without failed writes all file names differ, every file keeps its rows, and together they are the completed rows in order. |
| `ParquetCursor.AcceptedSnoc` | src/gascity/parquet_writer.js:200-208 | A row is accepted if and only if it has a uuid, not the empty one, that was not seen before. |
| `ParquetCursor.CursorDates` | src/gascity/parquet_writer.js:197-216 | At rest the cursor dates the last accepted row with a time stamp, and keeps the start time it had, or that of the first append. |
| `ParquetCursor.RetiredCursor` | src/gascity/parquet_writer.js:446-458 | A process that only retires a session writes the cursor it found back, marked. |
| `ParquetCursor.FirstCursor` | src/gascity/parquet_writer.js:446-458 | Without a cursor it writes a new one. |
| `ParquetCursor.StaysRetired` | src/gascity/parquet_writer.js:238-246 | Once a session is retired, every cursor composed says so. |
| `ParquetCursor.CursorVersion` | src/gascity/parquet_writer.js:423-426 | Once a flush is complete, the cursor carries the current schema version. |
| `ParquetCursor.ThresholdQueues` | src/gascity/parquet_writer.js:219-222 | An append queues a flush if and only if enough rows are pending. |
| `ParquetCursor.StopDrains` | src/gascity/parquet_writer.js:288-302 | After a stop nothing is accepted, and the pending rows are flushed. |
| `ParquetCursor.QueueSteps` | src/gascity/parquet_writer.js:380-388 | Every request for a flush queues one, and every flush that starts takes one. |
| `Recorder.Recorder.StartExchange` | src/recorder.js:66-70 | A new exchange is active, in its initial state. |
| `Recorder.Recorder.ForceFinish` | src/recorder.js:93-97 | Forcing the active exchanges to finish leaves none, and logs what finishing each of them logs, in order. |
| `Recorder.Exchange.AppendRequestChunk` | src/recorder.js:182-184 | The chunk is added to the request body. |
| `Recorder.Exchange.SetResponseStart` | src/recorder.js:194-201 | A response without text so far; earlier chunks are forgotten. |
| `Recorder.Exchange.AppendResponseChunk` | src/recorder.js:210-214 | Collected only for a response that has a body. |
| `Recorder.Exchange.MarkAsStreaming` | src/recorder.js:222-226 | The body and its chunks are given up. |
| `Recorder.Exchange.SetErrorMessage` | src/recorder.js:266-274 | The latest error wins. |
| `Recorder.Exchange.ConsumeStreamChunk` | src/recorder.js:236-256 | Events are counted, and written unless dropped. |
| `Recorder.Exchange.Finish` | src/recorder.js:283-323 | Once only: leaves the active set, finalises the body, asks, writes one row unless dropped. |
| `Recorder.Exchange.ShouldDrop` | src/recorder.js:341-362 | The filter is asked only the first time; a failing filter keeps the exchange. |
| `RecorderTheorems.AllOrNothing` | src/recorder.js:236-362 | Over every run: at most one question per exchange; dropped means no row at all; kept means a row for every stream event received and, once finished, exactly one exchange row counting the rows before it; active means unfinished. |
| `RecorderTheorems.DecisionStands` | src/recorder.js:341-362 | Once taken, the decision stands for the rest of the run. |
| `RecorderTheorems.DrainEmpties` | src/recorder.js:82-98 | Forced finishing empties the active set whatever the order. |
| `RecorderTheorems.StreamedGrows` | src/recorder.js:236-256 | A chunk adds exactly the events that the parser completes with it. |
| `RecorderRows.OwnState` | src/recorder.js:66-70 | Exchanges do not touch each other: in every run the state of one is that of its own acts. |
| `RecorderRows.FinishedRow` | src/recorder.js:283-326 | In every run, finishing logs the row unless dropped: the whole request, the response since it last started (no body once it streams), the number of stream events, the last error; and the decision taken. |
| `RecorderRows.StreamedRows` | src/recorder.js:236-258 | In every run, a chunk logs the events it completes unless dropped, behind one question about the whole request the first time. |
| `Ignore.DirnameShrinks` | src/ignore.js:112-124 | Each step of the ancestor walk shortens the path or stays, so the walk ends. |
| `Ignore.FindMarker` | src/ignore.js:107-126 | The ancestor loop finds the first marker of the chain of ancestors. |
| `IgnoreTheorems.FirstMarkerIff` | src/ignore.js:107-126 | A marker is reported if and only if its directory is the nearest with one and everything below could be read. |
| `Ignore.IgnoreFilter.AddSessionId` | src/ignore.js:279-295 | Re-adding moves to the end; overflow drops from the front. |
| `Ignore.IgnoreFilter.RemoveSessionId` | src/ignore.js:301-304 | Removes the session and says whether it was there. |
| `Ignore.IgnoreFilter.AddIgnoredPath` | src/ignore.js:239-246 | Adds the stripped path once. |
| `Ignore.IgnoreFilter.RemoveIgnoredPath` | src/ignore.js:254-260 | Removes the stripped path. |
| `Ignore.IgnoreFilter.InvalidateCtvsignoreCache` | src/ignore.js:374-380 | Forgets one directory or all. |
| `Ignore.IgnoreFilter.IgnoredPathFor` | src/ignore.js:435-443 | The first entry that covers the directory. |
| `Ignore.IgnoreFilter.LookupCtvsIgnoreMarker` | src/ignore.js:464-478 | Cache hit, recomputation and eviction, as one lookup. |
| `Ignore.IgnoreFilter.ShouldDrop` | src/ignore.js:332-340 | Drops exactly when the evaluation does. |
| `Ignore.IgnoreFilter.EvaluateInput` | src/ignore.js:349-365 | The evaluation, with the cache after it. |
| `IgnoreTheorems.CacheInvisible` | src/ignore.js:332-478 | With a fixed file system every run gives the reasons of the uncached rule (session, path, marker), whatever was cached or evicted. |
| `IgnoreTheorems.AnswerIs` | src/ignore.js:332-478 | After every run the whole answer is known: the directory asked for when the answer comes from the cache, else the rule's answer with the directory that holds the marker. |
| `IgnoreTheorems.MarkerDirIff` | src/ignore.js:462-468 | After every run the answer is the rule's, directory included, if and only if it is no hit on a marker, or the marker is in the directory asked for. |
| `IgnoreTheorems.SecondAnswerDiffers` | src/ignore.js:464-478 | One query asked twice, with the marker in the parent directory: the two answers name different directories. |
| `IgnoreTheorems.StaysBounded` | src/ignore.js:279-295 | Cache within a capacity of at least one, session list within its maximum, after every run. |
| `IgnoreTheorems.SessionsAreLatest` | src/ignore.js:279-295 | After any additions the list is the end of the history, each session at its latest place. |
| `IgnoreTheorems.CoversIff` | src/ignore.js:435-443 | On normal paths an entry covers exactly itself and its descendants, except that the root covers only itself. |
| `IgnoreTheorems.RootCoversNothing` | src/ignore.js:435-443 | The root is an ancestor of /a, and does not cover it. |
| `IgnoreRules.MarkerIff` | src/ignore.js:107-126 | The marker that counts is in the deepest directory above that has one, if everything deeper can be read: by names of paths alone. |
| `IgnoreRules.UnreadableHides` | src/ignore.js:107-126 | An unreadable directory hides every marker at or above it. |
| `IgnoreRules.DirnameOf` | src/ignore.js:123 | The parent of any path, with doubled and trailing slashes. |
| `IgnoreRules.PathForIff` | src/ignore.js:435-443 | The first listed path that is the directory or above it by name. |
| `IgnoreRules.PathListedIff` | src/ignore.js:239-262 | After any run a path is listed if and only if the last word about it added it. |
| `IgnoreRules.PathsAreFirsts` | src/ignore.js:239-248 | Paths are listed in the order in which each was added first. |
| `IgnoreRules.SessionListedIff` | src/ignore.js:279-305 | While the list has room, a session is listed if and only if the last word about it added it. |
| `IgnoreRules.DroppedIff` | src/ignore.js:332-366 | In every reached state a request is dropped for its session, else for a path, else for a marker, and kept otherwise. |
| `IgnoreRules.NoHitIsFresh` | src/ignore.js:464-478 | Without an entry for directory and conversation the files are looked at. |
| `IgnoreRules.InvalidatedIsFresh` | src/ignore.js:374-380 | After an invalidation the answer is that of the files as they are now, whatever they were in the run. |
| `IgnoreRules.OldestLeaves` | src/ignore.js:469-476 | A new directory is stored last, and only a full cache loses an entry, the first. |
| `Plist.BuildPlistLines` | src/daemon/macos.js:70-131 | The pushed lines are the document, joined; missing fields are refused. |
| `Plist.EnvironmentLines` | src/daemon/macos.js:103-122 | The loop over the environment pushes a key and a value line per entry. |
| `PlistTheorems.EscapeRoundTrip` | src/daemon/macos.js:137-142 | Three ordered unescape passes undo three ordered escape passes, for every string. |
| `PlistTheorems.EscapedHasNoTag` | src/daemon/macos.js:137-142 | Escaped text never holds a tag character. |
| `PlistTheorems.ReadBack` | src/cli/common.js:213-251 | For all strings: both log paths come back, and the configuration path is the argument after the first flag. |
| `PlistTheorems.ConfigPathIff` | src/cli/common.js:219-221 | The configuration path comes back if and only if no earlier argument is taken for the flag (or what follows it is the same). |
| `PlistTheorems.FlagAsNodePath` | src/cli/common.js:219-221 | A property list whose node path is the flag: the configuration path is not read back. |
| `Version.ComparePrerelease` | src/update.js:211-231 | The loop's sign is the order of section 11.4 of Semantic Versioning 2.0.0, stated by the first difference. |
| `Version.CompareIdentifiers` | src/update.js:219-227 | Numeric below alphanumeric, numbers by value, text by code units. |
| `Version.IsNewerVersion` | src/update.js:50-63 | Newer exactly when both parse and section 11 puts the current one first. |
| `Version.Trichotomy` | src/update.js:50-63 | Two versions are neither newer if and only if their numbers agree and their identifiers compare as equal. |
| `Version.StrictWeakOrder` | src/update.js:50-63 | Irreflexive, asymmetric and transitive on all strings; incomparability transitive on parseable ones. |
| `Version.UnparseableBridges` | src/update.js:53 | Without parseability incomparability is not transitive. |
| `Version.WriteThenParse` | src/update.js:195-204 | Parsing a written version gives it back. |

## Left out

- HTTP servers, child processes, signals, the real file system, configuration and command-line handling: a write or rename is one step that may fail.
- SHA-256, Parquet encoding, dates and random ids are parameters; so is `path.join` in the property list.
- Text is a sequence of Unicode scalar values: lone surrogates do not exist, an escape that names one is not parsed, `?` in a glob takes one character where the program takes one UTF-16 unit, and byte decoding before the event-stream parser is not modelled.
- src/otlp/common.js is not part of this model: text, attributes, values, resources and scopes stay the bytes handed to its decoders. Floating-point readers of src/protobuf.js are left out.
- OtlpLogs.ExportRoundTrip: numbers read by the plain varint reader are required to be below 2^53, where that reader is documented to be exact.
- Protobuf.DataReader.ReadVarint: addition is on mathematical integers, so the loss of precision of doubles above 2^53 is not modelled.
- StreamReconstruct.ReconstructAssistantMessage: JSON numbers are integers and the JSON parser is a parameter; blocks are values, so a block object shared with the row it came from is not modelled.
- CanonicalTheorems.CanonicalIff: a number is the text that JavaScript prints for it, so `-0` and `0` are one number.
- MessagesWalker.Walker.WalkExchange: the conversation id, the answer and all columns that depend only on exchange, message and block are taken as given; the tiered lookups that produce them are branch-heavy but shallow.
- WalkerTheorems.Resumable: the hash must not give an empty message the id of one with content; EmptyApart shows that their hashed texts differ.
- ParquetWriter.Conservation: one session; deduplication is an oracle and reading the cursor is one step. Retiring a session without a buffer only rewrites its cursor and is left out.
- Recorder.Exchange.Finish: the verdict comes with the step, so a filter that changes over time is covered; local context lookup, redaction and times are left out.
- Ignore.IgnoreFilter.EvaluateInput: loading and persisting the path list are left out.
- Plist.BuildPlistLines: type errors of options are left out, as they cannot be written here.
- Version.IsNewerVersion: version numbers are mathematical integers.
- Query, upload, gateway internals, install walkthroughs and status rendering.
