# nanoinit: a verified model

nanoinit starts the applications named in a JSON configuration, restarts them when
they exit, carries their output into rotated log files and obeys START and STOP
requests on a control socket. This project models the parts of it that decide
something, in the form the C code has, and proves what they are for.

1. **Parser** (`JsonLexer`, `JsonMachine`, `JsonParser`; proofs in `JsonTokens`,
   `JsonDocument`, `JsonNumbers`, `JsonGaps`, `JsonValues`, `JsonParsing`, `JsonSoundness`,
   `JsonRefusals`). `JsonMachine.StepAny` is one pass of the main loop of `edJSON_parse`:
   its phases, the stack in the path memory, comments on the same stack, transitions that
   consume nothing. The class `JsonParser.Parser` is the loop as written, over an array of
   slots, proved to take those steps. `JsonDocument` holds documents with their whole layout
   (white space, comments, trailing commas, and what else the parser lets pass) and their
   depth-first leaves. `JsonParsing.ParsePrinted` says what the text of a document yields,
   `JsonSoundness.ParsedExactly` that no other text is read to the end of its root, and
   `JsonRefusals` which byte of a wrong text is reported.
2. **String decoder and path printer** (`Utf8`, `Unescape`, `JsonStrings`, `JsonSpelling`,
   `StringDecoder`, `PathString`, `Decimals`). `Unescape.Decode` is the decoding loop as a
   function; `JsonStrings` reads an escaped text by the standards and says where the loop
   agrees; `JsonSpelling` prints texts from their elements, digits in either case, and says
   what each is decoded to; `StringDecoder` is the loop over memory, where source and
   destination may be the same bytes.
3. **Configuration** (`Config`, `ConfigPaths`, `ConfigReading`, `ConfigLoading`,
   `ConfigEntries`, `ConfigTheorem`, `ConfigLeaves`, `ConfigFallback`). `Config.OnEvent` is
   the parser callback as a function, `Config.Loader` the same over fields; the parser is
   handed the function, since a method is no value. `ConfigReading` reads the declared
   configuration straight off the document tree; `ConfigTheorem.LoadsNested` says that
   loading the printed text gives it, for an object nested under any path.
   `ConfigLeaves.LoadsLeaves` says the same of every document, readable or not, leaf by
   leaf. `ConfigFallback` says of every file content when the defaults are what is left.
4. **Output streams** (`Rotator`, `RotatedFiles`, `Prefixing`, `ReadSplits`,
   `GrowableBuffer`, `AppLogging`). The chunked writing loop with short writes refines a
   rotator that sees one byte at a time; the disk is a map from slots to bytes. A stream
   carries the history of all its reads, so its theorems are about all drains together.
5. **Supervisor** (`Supervision`, `SupervisionRuns`, `SupervisionTiming`, `SupervisionLaws`,
   `SupervisorWorld`, `Supervisor`). `Supervision.Next` is every step of the supervisor, in
   the order of its loops, interleaved with exits, adopted orphans, signals and the clock.
   The class `Supervisor` carries a ghost run of that system through each of its methods,
   up to one whole pass of the main loop and the whole wind-down; what happens around it
   in between is a parameter (`SupervisorWorld.Happening`). `SupervisionLaws` says in plain
   terms what must come next in a run and what each step leaves behind.
6. **Format renderer and control requests** (`LogFormatter`, `ControlRequest`, `ControlLaws`).

Strings are sequences of bytes (characters below 256). A C string is the part of a byte
sequence before its first NUL. Where the C code would read or write outside its objects the
model says so: the outcome is `Undefined`, `Unpredictable`, `Overrun`, the code `UNDEFINED`,
or the flag `outside` of a method. The decoder writes its terminator behind a buffer that a
text fills; `Unescape.DecodeExact`, `PathString.OverrunExact` and `Config.FieldExact` say
exactly when.

Three promises turn out to hold under a condition only, and the condition is proved to be
exact:

- How an output stream is cut into reads matters if and only if some line of the output,
  prefix included, ends at exactly `rotate_size` bytes before the end of the stream. This
  holds for raw buffers (`Rotator.SplitIndependence`, where `Rotator.HitSplits` builds the
  two differing splits) and for reads of any size up to that of the read buffer
  (`ReadSplits.ReadSplitIndependence`).
- The conversion of a code point agrees with RFC 3629 section 3 if and only if the scalar
  value is below 0x80, in [0xC0, 0x400), or at least 0x800 (`Unescape.EncodeExact`). An
  escaped text as a whole decodes to what RFC 8259 section 7 says it means if and only if
  each of its `\u` escapes is a surrogate pair or a single unit below 0x80, in
  [0xC0, 0x400), or in [0x800, 0xD800) (`JsonStrings.SpanExact`). What every escaped text
  decodes to, supported or not, is `JsonStrings.Taken` (`JsonStrings.TextIsTaken`): units
  from 0x4C0 to 0x7FF give the octets of a value 0x400 lower, a high surrogate takes a unit
  from 0xE000 on for its partner and gives the octets of another pair where there is one,
  and all other unsupported units are refused.
- The control server gives an application name back if and only if the name has no line
  end, no leading blank and no trailing blank or carriage return
  (`ControlRequest.RequestRoundTrip`). Of any other name arrives its first line without
  outer blanks (`ControlRequest.PrintedTokens`).

Where the code and its documentation differ the model follows the code. The header of the
parser promises UTF-8 for every `\u` escape (source/edJSON/edJSON.h:123); see the condition
above. The comment at source/config.c:38 counts three levels; a `//` comment inside the
innermost one takes a slot more, and the slot of a non-empty root object stays in use after
its brace. The depth a document needs is `JsonDocument.DocumentSlots`.

## Model

| member | source | states |
|---|---|---|
| JsonParsing.ParsePrinted | source/edJSON/edJSON.c:48-557 | For every document with an object or array at its root, any layout and no NUL, parsing its text yields success and exactly the depth-first list of its leaves with their full paths when the slots it needs fit the path memory, and the no-memory code exactly when they do not |
| JsonSoundness.ParsedExactly | source/edJSON/edJSON.c:48-557 | The language of the parser: for every C string and path memory, the parse reaches the end of the root and of the text exactly when the text prints a document whose slots fit; its brackets then match, and the events are its leaves |
| JsonRefusals.ByteRefused | source/edJSON/edJSON.c:87-374 | In every state between tokens, and whatever is open: a byte that is no white space, no slash and not what may come next is reported at its position, so a closing bracket of the wrong kind is; a slash that opens no comment is reported one byte further; without a free slot a comment or nested bracket gives the no-memory code |
| JsonRefusals.ValueRefused | source/edJSON/edJSON.c:376-528 | A scalar that fails is reported at the first byte with which what was read begins no literal, or, for a number, at the 33rd byte |
| JsonRefusals.NameRefused | source/edJSON/edJSON.c:159-185 | A name that fails is reported at the first byte with which it begins no escaped text |
| JsonRefusals.BehindDocument | source/edJSON/edJSON.c:532-551 | A whole document may be followed by white space and comments only: any other byte is reported at its position, but behind a root that has left no slot a comma or closing bracket reads a slot that is not there |
| JsonRefusals.TextMayEnd | source/edJSON/edJSON.c:62 | A text may end between tokens and in a name; where a token is read past the terminator the outcome is undefined |
| JsonParsing.RootRun | source/edJSON/edJSON.c:87-106 | From the root bracket on: the leaves of the root in order, ending with the root closed, given enough slots |
| JsonParsing.ValueRun | source/edJSON/edJSON.c:213-264 | Any value where one is expected, scalar or container at any depth, emits exactly its leaves under the current path and leaves the stack as it was |
| JsonParsing.MembersRun | source/edJSON/edJSON.c:117-157 | The members of an object, trailing comma included, emit the leaves of each member in order under its own name |
| JsonParsing.ItemsRun | source/edJSON/edJSON.c:314-374 | The items of an array emit the leaves of each item in order under consecutive indices from the current one |
| JsonGaps.CommentRun | source/edJSON/edJSON.c:110-115 | A line comment takes one slot, gives it back and changes only the position; with the path memory full it ends in the no-memory code |
| JsonGaps.GapRun | source/edJSON/edJSON.c:187-207 | Any run of blanks and comments between tokens changes only the position, if a comment slot is free where one is needed |
| JsonMachine.StepAny | source/edJSON/edJSON.c:62-554 | Every pass keeps the stack discipline (slots spell the open brackets, at most one comment on top, never above the path memory) and strictly decreases the pair of remaining input and phase |
| JsonParser.Parse | source/edJSON/edJSON.c:48-557 | The loop over the caller's path memory returns and delivers what a full run of the steps does, cut short with success where the callback stops it; null input and zero depth give their codes |
| JsonParser.Parser.SilentPass | source/edJSON/edJSON.c:62-374 | A pass that calls nothing changes the state, the cursor and the slots as the step says, and keeps the slots in step with the open brackets |
| JsonParser.Parser.ValuePass | source/edJSON/edJSON.c:376-528 | A pass over a scalar hands the callback the path spelled by the slots and the value, or returns the error position |
| JsonParser.Parser.PushSlot | source/edJSON/edJSON.c:237-244 | Taking a slot succeeds exactly when one is free and leaves the slots below as they were |
| JsonParser.Parser.OpenNested | source/edJSON/edJSON.c:235-259 | A nested bracket takes the next slot with a fresh index, or ends for want of memory |
| JsonParser.Parser.ClosePass | source/edJSON/edJSON.c:290-311 | A closing bracket does to the slots what the step says: it pops exactly its own kind of slot, finishes at the root, and is refused elsewhere (`JsonRefusals.ByteRefused`) |
| JsonParser.SlotPathIsPath | source/edJSON/edJSON.c:521-523 | What the callback reads from the first slots is the path of the open brackets |
| JsonParser.DeliverNext | source/edJSON/edJSON.c:521-526 | The callback sees the events in order and none after the one it stops at |
| JsonParser.StringLoop | source/edJSON/edJSON.c:383-406 | The loop over a string value ends where the scan function says, or reports its error position |
| JsonParser.NumberLoop | source/edJSON/edJSON.c:451-510 | The number loop ends where the scan function says with the digits copied to its scratch buffer, or reports an error |
| JsonTokens.ScanAccepts | source/edJSON/edJSON.c:383-406 | The body of every escaped string is scanned to exactly its closing quote |
| JsonTokens.ScanOnlyAccepts | source/edJSON/edJSON.c:383-406 | Every span that is accepted is an escaped string body: it ends on an escape boundary |
| JsonNumbers.ScanNumeral | source/edJSON/edJSON.c:450-510 | Every JSON number shorter than the scratch buffer is scanned to its last byte and told apart as integer or double |
| JsonNumbers.NumberExact | source/edJSON/edJSON.c:450-510 | For any bytes, the number loop ends where the automaton of RFC 8259 numbers (a sign and leading zeros allowed) can go no further, tells integer from double, and reports the byte at which it stops short |
| JsonNumbers.BeginsExact | source/edJSON/edJSON.c:450-510 | That automaton can go on after a text exactly when the text begins a number |
| JsonValues.NumeralToken | source/edJSON/edJSON.c:450-519 | An integer token yields its value converted to int, a double its text |
| JsonValues.NumeralAtoll | source/edJSON/edJSON.c:512-517 | The conversion of a printed integer is the integer |
| Decimals.DigitAppends | source/edJSON/edJSON.c:512-517 | Each digit of a converted number weighs ten times what the next one does |
| Decimals.DecimalReads | source/edJSON/edJSON.c:747 | What the path printer writes for an index has no leading zero and is converted back to the index |
| Decimals.AtollReads | source/edJSON/edJSON.c:512-517 | A printed number is converted back, with its sign if it has one |
| Decimals.IndexReads | source/edJSON/edJSON.c:747 | An index is written between brackets |
| Unescape.InPlaceIsText | source/edJSON/edJSON.c:559-725 | With the limit of an in-place call the decoder gives the pure decoding of the span, never reports lack of room, and writes no more than the span holds |
| Unescape.UnitShrinks | source/edJSON/edJSON.c:604-708 | What a \u escape is decoded to is strictly shorter than the escape, whenever it takes more than one byte |
| Unescape.RoomyIsText | source/edJSON/edJSON.c:570-721 | A destination that the text does not fill receives the text |
| Unescape.DecodeExact | source/edJSON/edJSON.c:570-725 | Decoding succeeds exactly when the text leaves room, or fills the destination with a last unit of one byte; its terminator then goes behind the destination |
| Unescape.DecodeCode | source/edJSON/edJSON.c:570-725 | A decodable text is never called malformed, and a malformed one always where the destination has the room of the span |
| Unescape.EncodeExact | source/edJSON/edJSON.c:671-708 | The conversion agrees with RFC 3629 section 3 exactly on the scalar values below 0x80, in [0xC0, 0x400) and from 0x800 on |
| Unescape.PlainUnitExact | source/edJSON/edJSON.c:604-626 | A single \u unit below the surrogates decodes to its scalar value, and to its octets exactly when that is supported |
| Unescape.PairExact | source/edJSON/edJSON.c:627-669 | Every well-formed surrogate pair decodes to the octets of its scalar value; a low second unit is refused, and every first unit from 0xDC00 on is refused |
| Unescape.LoneUnitRefused | source/edJSON/edJSON.c:631-641 | A unit from 0xD800 on that no second escape follows is refused |
| JsonStrings.SpanExact | source/edJSON/edJSON.c:559-725 | A well-formed escaped text decodes to what the standards say it means exactly when each of its \u escapes is supported; a text with a lone surrogate is refused, unless a high one is followed by a unit from 0xE000 on |
| JsonStrings.TextIsTaken | source/edJSON/edJSON.c:559-725 | Every escaped text decodes to the bytes its elements are taken for, one by one: their meaning, the octets of a value 0x400 lower, the octets of the pair a high surrogate makes with a unit from 0xE000 on, or a refusal of the whole |
| JsonStrings.LoosePair | source/edJSON/edJSON.c:631-669 | A high surrogate followed by a unit from 0xE000 on gives the octets of the pair that carries the excess over, or is refused where there is none |
| JsonSpelling.SpelledDecodes | source/edJSON/edJSON.c:559-725 | Whatever list of elements is spelled, plain bytes, two-byte escapes and \u escapes with each digit in either case, the text decodes to the bytes of the elements: every unit and pair is taken at its value |
| JsonSpelling.EscapedIsSpelled | source/edJSON/edJSON.c:383-406 | The scanners accept the spelled texts and no others |
| JsonSpelling.SpelledIsEscaped | source/edJSON/edJSON.c:383-406 | Every spelled text is accepted, in a value if it holds no raw newline |
| JsonSpelling.DigitExact | source/edJSON/edJSON.c:611-618 | The value of each of the 22 digit characters is its place among the digits of its case |
| JsonSpelling.LetterExact | source/edJSON/edJSON.c:577-602 | Exactly eight letters may follow a backslash, apart from u, and each stands for its own byte |
| JsonSpelling.UnitDecodes | source/edJSON/edJSON.c:604-705 | With its digits in any case, a \u escape of a unit below the surrogates gives the UTF-8 octets of the unit exactly when it is below 0x80, in [0xC0, 0x400), or from 0x800 on |
| JsonSpelling.PairDecodes | source/edJSON/edJSON.c:627-708 | Every scalar value from 0x10000 on, spelled as a surrogate pair with digits in any case, gives its octets |
| Unescape.UnitStaysInside | source/edJSON/edJSON.c:575-719 | Decoding one unit of an escaped text reads nothing behind the span and ends on a unit boundary |
| Unescape.ScannedSpan | source/edJSON/edJSON.c:376-407 | The span of an accepted string value decodes to its text whatever follows it, and in place without lack of room |
| Unescape.EscapeDecodes | source/edJSON/edJSON.c:559-725 | Decoding the JSON-escaped form of any bytes gives the bytes |
| Unescape.EscapeScanUnescape | source/edJSON/edJSON.c:376-407 | Escape, quote, scan, decode is the identity on every byte string, and the scan stops at exactly the closing quote |
| Utf8.OctetsRoundTrip | source/edJSON/edJSON.c:671-705 | The reference encoding is the one a strict UTF-8 reader takes back to the same scalar value |
| StringDecoder.UnescapeInto | source/edJSON/edJSON.c:559-725 | The loop over memory returns the code and writes the bytes of the decoding of the original source, NUL behind them, and touches nothing else, also when source and destination are the same; it says exactly when the NUL goes behind the array |
| StringDecoder.UnescapeInPlace | source/edJSON/edJSON.h:125 | In place: the result is the pure decoding of the original bytes, never longer, and never lack of room |
| StringDecoder.DecodeUnit | source/edJSON/edJSON.c:570-720 | One pass writes one unit, keeps the unread source as it was and never lets writing overtake reading |
| StringDecoder.WriteCode | source/edJSON/edJSON.c:671-708 | The assignments for a code point write exactly its conversion, or fail where it has none |
| PathString.BuildExact | source/edJSON/edJSON.c:727-761 | The bounded path printer succeeds exactly when every name decodes and the whole text fits with its terminator, and then prints all of it |
| PathString.OverrunExact | source/edJSON/edJSON.c:738-751 | The terminator of a name goes behind the buffer exactly when, after the elements before it, the slash and the decoded name fill it with a last unit of one byte |
| PathString.FailureCodes | source/edJSON/edJSON.c:733-757 | An element fails with -1 for want of room, with -2 where the slash takes the last byte, and with -3 for a name that does not decode |
| PathString.BuildPathString | source/edJSON/edJSON.c:727-761 | The loop over the slots writes that text into the buffer, returns the failing code, or puts a terminator behind the array, exactly when the function says so |
| PathString.DecodeSame | source/edJSON/edJSON.c:738 | Decoding a name depends on its span and the quote behind it only |
| PathString.PrintIndex | source/edJSON/edJSON.c:747 | The index in brackets is written when it fits and its full length returned in any case |
| Config.Init | source/config.c:62-195 | Loading returns the configuration of an accepted parse and the default one otherwise, which is spelled out by `ConfigFallback.LoadExact` |
| ConfigFallback.LoadExact | source/config.c:139-192 | For every content and object path: what was declared is kept exactly when the parse succeeded or the callback stopped it, the callback reported code 0 and every application has a path; otherwise the defaults are left, unless the outcome is undefined |
| ConfigFallback.NoFile | source/config.c:77-100 | Without a readable file the defaults are what is left |
| ConfigFallback.RejectedText | source/config.c:139-141 | A text that the parser rejects by itself, with an error or for want of memory, leaves the defaults, whatever it declared before |
| ConfigFallback.TooDeep | source/config.c:139-141 | Every printed document that needs more than 32 slots, and is not stopped before, leaves the defaults |
| ConfigFallback.Trailed | source/config.c:139-141 | A whole configuration followed by any byte that is neither white space nor a slash leaves the defaults |
| Config.FieldExact | source/config.c:262-285 | A name or value fits the buffer of the callback exactly when it decodes to less than 1024 bytes, and overruns it exactly when it decodes to 1024 of which the last unit is one byte |
| Config.Loader.Callback | source/config.c:219-676 | The callback's fields change and its code is returned as the event function says, overrun buffers included |
| Config.Loader.SetProperty | source/config.c:369-657 | One property of the last application is set, added or refused |
| Config.Loader.AddProperty | source/config.c:315-367 | A new name starts a new application with the defaults; then its property is handled |
| Config.Loader.constructor | source/config.c:104-126 | The start state, with the slashes of the object's path counted in eight bits |
| ConfigReading.KeysAreNamed | source/config.c:369-663 | Each property is recognised by its own name and no other |
| ConfigPaths.PrefixIsPath | source/config.c:678-686 | For plain names the string prefix test holds exactly when the path leads component by component through the object and on into a member |
| ConfigPaths.SlashesOfBase | source/config.c:119-126 | Counting slashes counts the components of the object's path |
| ConfigLoading.SettingsRun | source/config.c:349-663 | The leaves of an application's object, in any layout, apply its settings in order and nothing else |
| ConfigLoading.FirstLeaf | source/config.c:315-347 | The first leaf of an application is what enters it |
| ConfigLoading.LastTextWins | source/config.c:369-398 | Of repeated string settings the last one stays |
| ConfigLoading.LastFlagWins | source/config.c:589-605 | Of repeated boolean settings the last one stays |
| ConfigLoading.LastNumberWins | source/config.c:607-657 | Of repeated numeric settings the last one stays |
| ConfigLoading.ArgsAddUp | source/config.c:400-441 | Arguments add up in order |
| ConfigLoading.AppliedIsDeclared | source/config.c:334-347 | An application filled from the defaults has the last value of each key, all arguments, and the documented defaults for the rest |
| ConfigEntries.EntriesRun | source/config.c:242-664 | The leaves of a configuration object add exactly what its entries declare; neighbours of one name are one application, and one without a leaf is not seen |
| ConfigEntries.NamelessRun | source/config.c:315-367 | A first application with the empty name is taken for the one at hand, and its property for one of an application that is not there |
| ConfigTheorem.OutsideRun | source/config.c:234-240 | Leaves outside the object are passed over while searching |
| ConfigTheorem.BehindRun | source/config.c:243-246 | The first leaf behind the object ends the parse with success |
| ConfigTheorem.FinishedStops | source/config.c:243-246 | The callback that leaves the object for good stops the parser with code 0 |
| ConfigTheorem.ComponentsExact | source/config.c:119-126 | The eight-bit component count is exact for every document that fits the path memory |
| ConfigTheorem.LoadsDeclared | source/config.c:62-195 | For any document whose leaves lead to a readable configuration object: loading the printed text gives the declared applications in order, or the default configuration when a visible one lacks a path or nothing is visible where an object is asked for, and is unpredictable when the first visible one has the empty name |
| ConfigTheorem.NestedLeaves | source/config.c:678-686 | An object nested under named members, each the only one of its name, owns a contiguous part of the document's leaves, and all the other leaves lie outside its path |
| ConfigTheorem.LoadsNested | source/config.c:62-195 | End to end: loading the printed text of any document gives what the configuration object nested in it at the given path declares |
| ConfigLeaves.LoadsLeaves | source/config.c:62-195 | End to end for any document, readable or not, wherever and however often the path occurs: the loader takes the first run of leaves within the path; where all declare entries it gives what those declare, otherwise the first that declares nothing gives the default configuration, except where refusing it goes wrong |
| ConfigLeaves.FirstRunReads | source/config.c:232-246 | Every document has such a run and such a reading of it |
| ConfigLeaves.LeafDeclares | source/config.c:242-663 | A leaf that declares an entry adds it to those before, unless its application has no place |
| ConfigLeaves.LeafRefused | source/config.c:242-663 | A leaf of an unknown key, in a wrong place or with a wrong value ends the parse with an error code; whether that is undefined is exactly whether a text overruns its buffer or the application has no place |
| ConfigTheorem.LoadedIsSound | source/config.c:171-192 | Whatever bytes a file holds, a loaded configuration has only applications with a path, names that differ from their neighbours' and no negative sizes or counts |
| Rotator.SplitIndependence | source/supervisor/app_logging.c:231-270 | All ways to cut a stream into reads give the same files exactly when no line ends at the size limit before the end of the stream |
| Rotator.HitSplits | source/supervisor/app_logging.c:259-265 | Where a line does end at the limit, cutting the stream there gives different files |
| Rotator.Conservation | source/supervisor/app_logging.c:231-270 | The rotated files in order followed by the current one hold what they held before followed by the stream |
| Rotator.FilesGrow | source/supervisor/app_logging.c:233-265 | Every rotated file ends with a line end at or past the limit, and a file begun during the run holds no earlier line end past it |
| Rotator.RotatedSize | source/supervisor/app_logging.c:235-252 | So a rotated file has at least the limit and at most the limit plus its last line |
| Rotator.NeverRotated | source/supervisor/app_logging.c:233-265 | Without a positive size limit there is one file, which takes everything |
| RotatedFiles.Rotate | source/supervisor/app_logging.c:187-229 | One rotation is an exact shift of the slots below the count for any starting disk, gaps included; higher slots stay |
| RotatedFiles.ShiftedOnce | source/supervisor/app_logging.c:187-229 | That description leaves only one possible disk |
| RotatedFiles.RotationsKeepNewest | source/supervisor/app_logging.c:187-229 | After any rotations the slots hold the most recent files newest first, then the shifted old ones; with count 0 none is kept |
| Prefixing.PrefixSplit | source/supervisor/app_logging.c:306-341 | Prefixing does not depend on how the stream is cut into reads |
| Prefixing.OnePrefixPerLine | source/supervisor/app_logging.c:311-328 | The lines of the prefixed stream are the lines of the stream, each behind exactly its own prefix |
| Prefixing.StripUndoes | source/supervisor/app_logging.c:306-341 | Stripping the prefixes line by line gives the stream back |
| Prefixing.BegunFilesAreLed | source/supervisor/app_logging.c:272-288 | Every file begun by a rotation that holds anything begins with a whole prefix |
| ReadSplits.ReadSplitIndependence | source/supervisor/app_logging.c:272-288 | For reads of any sizes up to that of the read buffer, prefixed or not: all ways to read a stream give the same files exactly when no line of the output ends at the limit before the end of the stream |
| ReadSplits.ReadsAgree | source/supervisor/app_logging.c:423-448 | Where no line ends at the limit, any reads are written as one buffer would be |
| GrowableBuffer.Growable.Append | source/supervisor/app_logging.c:366-390 | The buffer holds what was appended and a terminator, its capacity is at most its first size or twice the need, and all bytes ever moved stay within the capacity |
| AppLogging.ChunkStep | source/supervisor/app_logging.c:233-266 | One turn of the chunked loop agrees with the byte-at-a-time rotator |
| AppLogging.OutputStream.WriteFile | source/supervisor/app_logging.c:396-421 | Short writes of any sizes append exactly the data, and the byte count follows the file |
| AppLogging.OutputStream.RotateFile | source/supervisor/app_logging.c:187-229 | The current file moves to the history, the disk shifts and the byte count is zero |
| AppLogging.OutputStream.WriteRaw | source/supervisor/app_logging.c:231-270 | A buffer changes the files as the rotator does and reaches the passthrough unchanged |
| AppLogging.OutputStream.PrefixBuffer | source/supervisor/app_logging.c:306-341 | The byte loop over a buffer prefixes it as the function says |
| AppLogging.OutputStream.Drain | source/supervisor/app_logging.c:423-451 | With k the first read that finds the pipe empty, closed or broken: a drain takes exactly the data of the reads before k, in order, behind those of earlier drains, and leaves the pipe open exactly when it was only empty at k; a closed stream stays as it is; the files, the passthrough and the line state stay what all the reads since the opening make of them |
| AppLogging.OutputStream.Pipeline | source/supervisor/app_logging.c:272-304 | Over all the drains since the stream was opened: a passthrough, with a file or without, received the prefixed stream; the files hold what they held and then the same bytes, rotated files end lines past the limit, begun files start with a whole prefix, and the slots hold the newest files first |
| AppLogging.OutputStream.ReadsDoNotMatter | source/supervisor/app_logging.c:423-448 | Unless a line ends at the limit before the end, the files are what one read of the whole stream would have given |
| Supervision.NextKeeps | source/supervisor.c:105-150 | Every step of the supervisor and of the system around it keeps the invariant |
| Supervision.ReapKeeps | source/supervisor/lifecycle.c:304-337 | Reaping any exited process, own or adopted, keeps it |
| Supervision.SpawnKeeps | source/supervisor/lifecycle.c:62-292 | So does every outcome of a spawn, at startup or as a restart |
| Supervision.RequestKeeps | source/supervisor/control_server.c:261-317 | So do START and STOP, whatever the spawn outcome |
| SupervisionRuns.OneToOne | source/supervisor/lifecycle.c:304-337 | In every state of every run the running applications and the own unreaped children correspond one to one through the process id |
| SupervisionRuns.KillsOwnChildren | source/supervisor.c:115-120 | Every signal the supervisor sends goes to an own child that was not reaped |
| SupervisionRuns.ReapChangesOwner | source/supervisor/lifecycle.c:304-337 | Reaping an orphan changes no application; reaping an own child changes exactly its application |
| SupervisionRuns.PendingExact | source/supervisor/lifecycle.c:324-326 | A pending restart is wanted, automatic and down; in the main loop with no stop signal waiting the converse holds as well |
| SupervisionRuns.StatusIsTrue | source/supervisor/control_server.c:365-375 | In every state of every run the status shown is stopped exactly when no own unreaped child is the application's, and nothing shown as stopping is restarted when it is reaped |
| SupervisionRuns.StopStays | source/supervisor/control_server.c:291-317 | After a STOP no run forks the application again until a START of it or a reload |
| SupervisionRuns.WindDownOnlyReaps | source/supervisor.c:128-136 | In the wind-down nothing forks, and the number of running applications drops with each own child reaped and never grows |
| SupervisionRuns.EndsClean | source/supervisor.c:131-155 | The wind-down ends only with no unreaped child and no open stream |
| SupervisionTiming.RespawnIsDelayed | source/supervisor/lifecycle.c:339-363 | The clock reading at every automatic respawn is at least one greater than at the reap or failed spawn that scheduled it; both are whole seconds, so less than a second may have passed |
| SupervisionTiming.ForksAreApart | source/supervisor/lifecycle.c:397-401 | Between two forks of an application lies that delay of the clock readings, unless the second obeys a START or a reload came between |
| SupervisionTiming.PendingHasCause | source/supervisor/lifecycle.c:397-401 | Every pending restart was scheduled by one earlier step and nothing forked the application since |
| SupervisionLaws.DueIsTried | source/supervisor/lifecycle.c:343-354 | In every run, where a restart pass comes to a pending application whose time has come and no stop signal waits, the next step of the supervisor tries to start it |
| SupervisionLaws.OnlyDueIsTried | source/supervisor/lifecycle.c:343-354 | Nothing else is tried in a restart pass: only a pending application whose time has come, that is down, with no stop signal |
| SupervisionLaws.WantedIsTried | source/supervisor.c:84-102 | At startup exactly the applications with autostart are tried |
| SupervisionLaws.RunningIsSignalled | source/supervisor.c:115-120 | While a stop signal is forwarded every running application is signalled at its turn |
| SupervisionLaws.DeadIsReaped | source/supervisor/lifecycle.c:304-310 | Every exited process is waited for before the supervisor goes on |
| SupervisionLaws.SpawnLeaves | source/supervisor/lifecycle.c:339-363 | An attempted application runs with the forked id from then on, or is down and, if it restarts by itself, tried again one clock second later; no other changes |
| SupervisionLaws.StartLeaves | source/supervisor/control_server.c:273-288 | After START of one that was down nothing is pending, it runs exactly when it was forked, and it is wanted exactly when it started |
| SupervisionLaws.StartRunningLeaves | source/supervisor/control_server.c:273-279 | START of one that runs makes it wanted, clears a pending restart and changes nothing else |
| SupervisionLaws.StopLeaves | source/supervisor/control_server.c:303-309 | After STOP it is not wanted and nothing is pending; all else stays |
| SupervisionLaws.ReapLeaves | source/supervisor/lifecycle.c:312-327 | A reaped application is down with its streams closed, and pending for one clock second later exactly when it is wanted, automatic and no stop signal waits |
| SupervisionLaws.ReapedIsGone | source/supervisor/lifecycle.c:304-310 | A process that was waited for, own or adopted, is gone, and no other is |
| SupervisionLaws.BeginsFresh | source/supervisor.c:60-72 | At the start and after a reload every application is down, not pending, and wanted exactly when it has autostart; no child is left |
| SupervisionLaws.InOrder | source/supervisor.c:84-155 | The steps of every run follow the order of startup, passes and wind-down |
| SupervisionLaws.MoveLeaves | source/supervisor.c:105-136 | Going on, and sending a signal, changes no application and no process; a stop signal that was looked at is taken |
| SupervisionLaws.CloseLeaves | source/supervisor/app_logging.c:423-451 | Closing one stream of an application leaves its other stream and all other applications as they were |
| SupervisionLaws.EnvLeaves | source/supervisor.c:167-176 | What happens around the supervisor changes no control block, never turns the clock back and loses no signal |
| SupervisionLaws.ShownAsItIs | source/supervisor/control_server.c:365-375 | In every state of every run an application is shown running when it has an own unreaped child and is wanted, stopping when it has one and is not, and stopped otherwise |
| Supervisor.Supervisor.SpawnAll | source/supervisor.c:84-102 | The startup loop tries exactly the applications with autostart, each once at its own time, with the outcome given unless its process id is in use by then: each then runs as forked, or is down and, if automatic, pending; all this while children exit, signals come and the clock moves; it is a run of the system |
| Supervisor.Supervisor.StartPendingRestarts | source/supervisor/lifecycle.c:339-363 | Without a stop signal, every application pending at its start with a time up to the clock read is tried, runs if the admitted outcome forked, and is pending again otherwise; no other is touched; a signal may keep some from being tried; it is a run of the system |
| Supervisor.Supervisor.ReapChildren | source/supervisor/lifecycle.c:304-337 | Every exited process is waited for, those that exit meanwhile too; exactly the applications that held one of them go down, and are pending for a clock second later when wanted and automatic with no stop signal; it is a run of the system, in the main loop and in the wind-down |
| Supervisor.Supervisor.ForwardStop | source/supervisor.c:109-123 | A stop signal goes to every running application in order, that is to every own unreaped child, and ends the loop; it is a run of the system |
| Supervisor.Supervisor.HandleStart | source/supervisor/control_server.c:261-289 | START changes the first application of the name as stated and no other, with the matching reply |
| Supervisor.Supervisor.HandleStop | source/supervisor/control_server.c:291-317 | STOP changes the first application of the name as stated and no other, and signals it if it runs |
| Supervisor.Supervisor.Pass | source/supervisor.c:105-126 | One pass of the main loop is a run of the system, whatever happens around it; it goes on to the next pass or to the wind-down as a stop signal decides, and in either case has served its request and closed the streams at their end |
| Supervisor.Supervisor.WindDown | source/supervisor.c:128-136 | The wind-down is a run of the system that ends exactly when no application runs and no stream is open, with no own child left |
| Supervisor.Supervisor.Happen | source/supervisor.c:167-176 | Any exits, adopted children, signals and ticks of the clock are one step of the system around the supervisor, and a stop signal stays until it is looked at |
| Supervisor.Supervisor.FindScb | source/supervisor/control_server.c:355-363 | The first application of a name is found, or there is none |
| Supervisor.Supervisor.AnyRunningScb | source/supervisor/lifecycle.c:294-302 | The scan says whether an application runs |
| LogFormatter.SplitCovers | source/log_formatter.c:47-83 | Every format is the concatenation of plain bytes, placeholders and at most one unclosed rest |
| LogFormatter.SplitUnique | source/log_formatter.c:47-83 | A format has no other segments |
| LogFormatter.Render | source/log_formatter.c:38-94 | Rendering gives the values of the segments in one pass, unknown and unclosed ones verbatim, and moves at most twice the output in its buffer |
| LogFormatter.RenderedPlaceholder | source/log_formatter.c:47-81 | A closed placeholder behind plain bytes becomes its value, or stays as it is when it has none, and what follows is rendered by itself |
| LogFormatter.RenderedPlain | source/log_formatter.c:47-66 | Text without placeholders, and an opening brace that is never closed with all behind it, stay as they are |
| LogFormatter.Placeholders | source/log_formatter.c:220-256 | Each of the five names stands for its own value, env: with a name for the environment, empty where that has none, and nothing else stands for anything |
| ControlRequest.PrintedTokens | source/supervisor/control_server.c:175-202 | Tokenising a printed request gives the command and the first line of the name without outer blanks, which is the name exactly when it has no line end and no blanks to lose |
| ControlRequest.CollectedWhole | source/supervisor/control_server.c:146-170 | A printed request is collected whole however it arrives |
| ControlRequest.ArrivedTokens | source/supervisor/control_server.c:146-202 | The tokens of what was collected are those of all that was sent, though the loop stops at a line end: they depend on the first line only |
| ControlRequest.CollectedFirst | source/supervisor/control_server.c:146-170 | Of whatever arrives, in whatever pieces, at most 1023 bytes are collected, with the first line of the first 1023 bytes sent |
| ControlLaws.TokensOf | source/supervisor/control_server.c:175-202 | Whatever blanks stand before the command, between it and the name, and behind the name, and whatever follows the line end, the tokens are the command and the name |
| ControlLaws.TokensCover | source/supervisor/control_server.c:175-202 | Every request consists of such parts around its tokens |
| ControlLaws.DispatchExact | source/supervisor/control_server.c:204-225 | Exactly the words LIST, STATUS, START and STOP, in any case, are commands; LIST with a name, the empty command and every other word are refused, each in its own way |
| ControlLaws.PrintedFits | source/control.c:103-110 | The client sends its whole request exactly when it takes at most 1023 bytes |
| ControlRequest.RequestRoundTrip | source/control.c:103-110 | Print, send in any pieces, collect, tokenise gives command and name back exactly when the name has no line end and no outer blanks to lose |
| ControlRequest.ClientIsUnderstood | source/supervisor/control_server.c:204-225 | What the client asks for is what the server does, LIST without a name included |
| ControlRequest.PrintedCommand | source/control.c:106-110 | A command printed without a name arrives without one |
| ControlRequest.Tokenise | source/supervisor/control_server.c:175-202 | Cutting the request up in place leaves exactly the two tokens at the returned offsets |
| ControlRequest.ReadRequest | source/supervisor/control_server.c:146-171 | The reading loop stores what the collection function says, with its terminator |

## Left out

- The child side of fork (redirection, setsid, execv, error reporting), pipes and descriptor flags: only the outcome of a spawn reaches the control block.
- Sockets, select, accept and their timeouts: a pass may deliver one request, bytes, or nothing.
- Failing allocation and failing file operations; a spawn that fails before or at fork, short writes and broken reads are modelled. A stream whose file could not be opened (the /dev/null fallback) is therefore not modelled, nor a supervisor that fails to open its control socket.
- Wall clock, timestamps, host name and environment: parameters.
- Conversion of doubles: a double is its text. Doubles and integers are those whose text is shorter than the 32-byte scratch buffer.
- Texts that end in the middle of a document are accepted by the code, and by the machine (`JsonRefusals.TextMayEnd`); `JsonDocument` prints complete documents only, and `JsonSoundness.ParsedExactly` speaks of parses that get behind the root.
- Two tests of the parser (source/edJSON/edJSON.c:150 and source/edJSON/edJSON.c:361) are not repeated: the invariant shows that they cannot fail.
- Freeing and copying of strings, log messages, the text of responses, command line, process scan, creation of log directories.
- StringDecoder.UnescapeInto: destinations that overlap the source elsewhere than at its start are not modelled.
- Config.Loader.Callback: takes the decoded path and values from the decoding functions, which say when they would not fit, instead of filling its two local buffers; an event with an empty path, which the parser never produces, prints as the empty path.
- ConfigTheorem.LoadsDeclared: reads objects whose member values the loader has a use for; `ConfigLeaves.LoadsLeaves` covers the others.
- ConfigTheorem.LoadsNested: in each object around the configuration object exactly one member has the name that leads on; `ConfigLeaves.LoadsLeaves` covers names that occur again.
- ConfigLeaves.LoadsLeaves: names of leaves outside the object hold no slash, and all paths print to less than 1024 bytes without a NUL.
- AppLogging.OutputStream.Drain: closing a stream does not reset the other fields of the record, which the code reinitialises.
- Supervisor.Supervisor.Pass: a reload, which ends the process and starts it anew, is a step of the system and no method of the class; which of the streams at their end are closed in a pass is a parameter, as the drains are modelled in `AppLogging`.
