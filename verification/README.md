# MP4-to-MP3 conversion server: verified model of the request logic

This project models the core of the conversion server in Dafny. The server
accepts an uploaded `video/mp4` file and stages it under a timestamped name.
It enforces a global limit of 3 conversions per UTC day, which it keeps in a
persisted counter record `{count, lastResetDate}`. It hands the staged file to
a transcoder, serves the resulting `.mp3` as a download, and deletes both files
later.

Dates are milliseconds since the epoch, and a calendar day is `t / 86400000`.
Directories are sets of file names, and the server is taken to run with its
own directory as the working directory, so that the directory it converts
into and the one it serves downloads from are the same set. The transcoder's outcome, the clock and the
success of each counter write are inputs of a request (`ConvertServer.Env`).

Files and modules:

- `paths.dfy` (`Paths`) models the string operations the server depends on:
  - Node's POSIX `path.extname`;
  - JavaScript's `indexOf`;
  - `String.prototype.replace` with a string pattern (only the first
    occurrence is replaced).
- `decimal.dfy` (`Decimal`) models how a non-negative integer is rendered when
  it is concatenated with a string (`Date.now() + ext`).
- `naming.dfy` (`Naming`) holds the upload filter, the staged name and the
  output name.
- `quota.dfy` (`Quota`) holds the counter record, the day rollover and the
  `CounterFile` class, whose `Read` and `Write` methods are
  `getConversionCount` and `updateConversionCount`.
- `server.dfy` (`ConvertServer`) holds the request model:
  - `Convert`, `Cleanup` and `Download` are pure functions over a `State`;
  - the `Server` class has the counter file, the two directories and the
    armed cleanup timers as fields;
  - each of its handler methods is proved to produce exactly what the
    matching function describes.
- `server_properties.dfy` (`ServerProperties`) holds the lemmas about requests.

Behaviour of the code that the model keeps, including behaviour that is easy
to miss:

- The upload middleware runs before the handler. A file that passes the filter
  is therefore staged even when the handler then answers 403, and that staged
  file is never deleted.
- A MIME rejection is an error passed to the framework's default handler. The
  answer is 500, not a dedicated "unsupported media type" status, and the
  counter is not read at all.
- A request without a file part still reads the counter and writes the
  rollover. Below the limit it then fails with 500 when it reads the missing
  file's path.
- The limit check (line 74) and the increment (line 86) both use the count
  read at line 65. A rollover written at line 70 therefore does not affect the
  current request:
  - if that count is 3 or more, the first request of a new day is refused;
  - otherwise the increment overwrites the reset with the old count plus 1
    (`IncrementOverwritesRollover`, `StaleCountRefusesFirstRequestOfDay`).
- The output name replaces the first occurrence of the extension, so
  `a.mp4.mp4` becomes `a.mp3.mp4` (`OutputNameOfRepeatedExtension`).
- Cleanup deletes the input and then the output inside one `try`. If the input
  is already gone, the output is kept (`CleanupKeepsOutputWhenInputMissing`).
  A missing input is therefore not tolerated: the output stays.
- A download whose name holds a character a header value cannot carry
  (anything but tab, 0x20-0x7E and 0x80-0xFF, such as a control character or
  a CJK letter) throws when the disposition header is set. Nothing catches
  it, so the process exits instead of answering (`HeaderRejected`). The
  cleanup timers it had armed end with it, so their files are never deleted
  (`DownloadLosesCleanupsOnlyOnExit`).
- The headers are set before the file is sent, and the file sender refuses
  dotfiles by default. An output whose name starts with '.' (an upload named
  `.mp4` becomes `.mp3.mp4`) therefore exists but is answered with 404
  (`DotNamedUploadIsNotDownloadable`).
- A NUL in the requested name makes the existence check throw before it
  looks at the disk; the framework catches that and answers 500.

## Model

| member | source | states |
|---|---|---|
| `Paths.ExtName` | server/server.js:79 | the extension is empty, or a '.' followed by characters that are neither '.' nor '/' |
| `Paths.IndexFrom` | server/server.js:79 | the result is -1 or an index where the pattern occurs, and the pattern occurs nowhere earlier (nowhere at all when -1) |
| `Paths.ExtNameOccurs` | server/server.js:79 | the extension always occurs in the original name, so the replacement always matches |
| `Paths.ExtNameOfFileName` | server/server.js:49 | for stem + "." + tail, with a non-empty stem, no '/' anywhere, a tail without '.', and the whole name not `..`, the extension is "." + tail |
| `Paths.ExtNameWithoutDot` | server/server.js:79 | a name without '.' has the empty extension |
| `Paths.ExtNameOfDotName` | server/server.js:79 | a name whose only '.' is its first character has the empty extension |
| `Decimal.DecimalString` | server/server.js:49 | the rendered timestamp is a non-empty string of digits with no leading zero |
| `Decimal.DecimalRoundTrip` | server/server.js:49 | the digits read back as the timestamp |
| `Decimal.DecimalStringInjective` | server/server.js:49 | distinct timestamps render differently |
| `Decimal.LeadingDigitsOfDigitsAndDotted` | server/server.js:49 | digits followed by an extension split back at the first non-digit |
| `Naming.StagedNameInjective` | server/server.js:48-51 | a staged name determines the timestamp and the extension, so uploads staged at distinct milliseconds get distinct names |
| `Naming.StagedNameOfFileName` | server/server.js:49 | for stem + "." + tail, with a non-empty stem, no '/' anywhere, a tail without '.', and the whole name not `..`, the staged name is the decimal timestamp followed by "." + tail |
| `Naming.OutputNameReplacesFirstOccurrence` | server/server.js:79 | the output name is the original with ".mp3" put at the first occurrence of its extension, and that occurrence exists |
| `Naming.FirstOccurrenceAfterDotFreeStem` | server/server.js:79 | a pattern starting with '.' that follows a stem without '.' first occurs right after the stem |
| `Naming.OutputNameOfFileName` | server/server.js:79 | for stem + "." + tail, with no '.' in the stem or the tail, the output name is stem + ".mp3" (e.g. `clip.mp4` becomes `clip.mp3`) |
| `Naming.OutputNameWithoutExtension` | server/server.js:79 | a name without '.' gets ".mp3" prefixed |
| `Naming.OutputNameOfDotName` | server/server.js:79 | a hidden name such as `.mp4` has no extension and gets ".mp3" prefixed |
| `Naming.OutputNameOfRepeatedExtension` | server/server.js:79 | stem + ".x.x" becomes stem + ".mp3.x": the earlier occurrence is replaced |
| `Naming.ExtNameOfDoubledExtension` | server/server.js:49 | the extension of stem + ".x.x" is the last ".x" |
| `Quota.ReadRecord` | server/server.js:26-34 | a saved record reads as itself; anything else reads as count 0 dated now, which never triggers a rollover |
| `Quota.WriteThenRead` | server/server.js:37-43 | a successful write is what the next read returns; a failed write leaves the next read unchanged |
| `Quota.UtcDayWindow` | server/server.js:66-69 | the day number of an instant is the 24-hour UTC window that holds it |
| `Quota.RolloverOnlyOnNewDay` | server/server.js:66-71 | the stored record changes if and only if it was saved on another day and the write succeeds, and then it becomes count 0 dated now |
| `Quota.SameDayNeverResets` | server/server.js:66-71 | a check on the same day as the last reset leaves the record unchanged |
| `Quota.RolloverIdempotent` | server/server.js:66-71 | after a successful rollover, further checks on the same day change nothing |
| `Quota.CounterFile.constructor` | server/server.js:19-23 | a missing counter file is created holding count 0 dated now; an existing one is kept |
| `Quota.CounterFile.Read` | server/server.js:26-34 | reads the record, falling back to count 0 dated now |
| `Quota.CounterFile.Write` | server/server.js:37-43 | a successful write stores the record; a failed one leaves the file as it was, and the caller sees no error |
| `ConvertServer.Download` | server/server.js:119-134 | one case per outcome, each an if-and-only-if: 500 when the name holds a NUL; otherwise 404 when the name is absent; the process exits (`HeaderRejected`) when it is present but not a valid header value; 404 (`HiddenFile`) when it is a valid dotfile name; otherwise an `audio/mp3` attachment whose disposition carries the given name |
| `ConvertServer.ValidHeaderValueConcat` | server/server.js:130 | a concatenation such as `attachment; filename=<name>` is a valid header value if and only if both parts are |
| `ConvertServer.ValidHeaderValue` | server/server.js:130 | no contract (a predicate): the characters a header value may hold, tab, 0x20-0x7E and 0x80-0xFF; used by `Download` and `ValidHeaderValueConcat` |
| `ConvertServer.IsDotFile` | server/server.js:133 | no contract (a predicate): the names the file sender refuses by default; stated by `DotNamedUploadIsNotDownloadable` |
| `ConvertServer.AfterDownload` | server/server.js:123-134 | no contract: the state a download leaves; stated by `DownloadLosesCleanupsOnlyOnExit` |
| `Quota.UtcDay` | server/server.js:66-69 | no contract: the UTC day of an instant, standing for the date prefix of its ISO string; stated by `UtcDayWindow` and used by `RolloverOnlyOnNewDay` |
| `Quota.NeedsRollover` | server/server.js:69 | no contract (a predicate): the record's day differs from today's; used by `ReadRecord`, `RolloverOnlyOnNewDay` and `IncrementOverwritesRollover` |
| `ConvertServer.PassesFilter` | server/server.js:54-61 | no contract (a predicate): a request without a file part, or whose file is `video/mp4`, reaches the handler; used by `QuotaExceededIffStartCountAtLimit` and `QuotaExceededChangesNoCount` |
| `ConvertServer.Status` | server/server.js:74-108 | no contract: 200 on success, 403 over the limit (line 75), 500 for a transcoder failure (line 107) and for the framework's answers to a rejected upload or a missing file part; used by `UploadRejectedIffNotMp4`, `QuotaExceededChangesNoCount`, `SuccessWritesStartCountPlusOne` and `EngineFailureKeepsCount` |
| `ConvertServer.DownloadStatus` | server/server.js:119-134 | no contract: 404 for an absent name (line 125) and for a refused dotfile, 500 for a NUL, 200 for an attachment, and no status when the process exits; used by `DownloadNotFoundIffAbsentOrHidden`, `DownloadFailsIffNul`, `DotNamedUploadIsNotDownloadable` and `DownloadRejectsNameWithUnsupportedCharacter` |
| `ConvertServer.Convert` | server/server.js:45-110 | no contract: the `/convert` request as a function of the state; stated by `UploadRejectedIffNotMp4`, `QuotaExceededIffStartCountAtLimit`, `QuotaExceededChangesNoCount`, `SuccessWritesStartCountPlusOne`, `EngineFailureKeepsCount`, `MissingFileFailsAfterQuotaCheck`, `WriteFailuresInvisible`, `ConvertKeepsWithinLimit` and the lemmas beside them |
| `ConvertServer.Cleanup` | server/server.js:93-99 | no contract: the firing of the oldest cleanup timer; stated by `ConvertedNameExpiresAfterCleanup`, `CleanupKeepsOutputWhenInputMissing` and `CleanupKeepsCounter` |
| `Naming.AcceptsMime` | server/server.js:57-60 | no contract (a predicate): the filter accepts exactly `video/mp4`; stated by `UploadRejectedIffNotMp4` |
| `Naming.StagedName` | server/server.js:48-51 | no contract: the decimal timestamp followed by the original extension; stated by `StagedNameInjective` and `StagedNameOfFileName` |
| `Naming.OutputName` | server/server.js:79 | no contract: the original name with its extension replaced once; stated by `OutputNameReplacesFirstOccurrence` and the `OutputNameOf…` lemmas |
| `Paths.ReplaceFirst` | server/server.js:79 | no contract: replacement of the first occurrence only; stated by `OutputNameReplacesFirstOccurrence` and `FirstOccurrenceAfterDotFreeStem` |
| `Quota.Boot` | server/server.js:19-23 | no contract: a missing counter file is created holding count 0 dated now, anything else is kept; used by the two constructors |
| `Quota.WriteRecord` | server/server.js:37-43 | no contract: a write that stores the record or, failing, leaves the file as it was; stated by `WriteThenRead` |
| `Quota.Rollover` | server/server.js:66-71 | no contract: the lazy day rollover; stated by `RolloverOnlyOnNewDay`, `SameDayNeverResets` and `RolloverIdempotent` |
| `ConvertServer.Server.constructor` | server/server.js:14-23 | start-up creates the missing counter file and keeps the directories' contents, with no cleanup armed and the server running |
| `ConvertServer.Server.HandleConvert` | server/server.js:64-110 | the new state and the answer are exactly those of `Convert` on the old state |
| `ConvertServer.Server.FireCleanup` | server/server.js:93-100 | the new state is exactly `Cleanup` of the old state |
| `ConvertServer.Server.HandleDownload` | server/server.js:119-134 | answers `Download` of the output directory; the state becomes `AfterDownload` of the old one, and the server stops running exactly when the header is rejected |
| `ConvertServer.Server.HandleCountQuery` | server/server.js:113-116 | answers the record as read, without any rollover, and changes nothing |
| `ServerProperties.UploadRejectedIffNotMp4` | server/server.js:57-60 | a file part is rejected if and only if its type is not `video/mp4`; rejection changes nothing and answers 500 |
| `ServerProperties.QuotaExceededIffStartCountAtLimit` | server/server.js:65-76 | 403 if and only if the request passes the filter and the count read at request start is at least 3 |
| `ServerProperties.QuotaExceededChangesNoCount` | server/server.js:64-76 | over the limit: 403, no conversion, no cleanup armed, the counter holds at most the rollover, and the staged upload stays |
| `ServerProperties.SuccessWritesStartCountPlusOne` | server/server.js:84-102 | on success the stored count becomes the start count plus 1, dated when the transcoder finished; the output is added and its cleanup armed; the answer carries the output name |
| `ServerProperties.IncrementOverwritesRollover` | server/server.js:65-87 | a count c saved on an earlier day becomes c + 1 after the first success of the new day, not 1 |
| `ServerProperties.StaleCountRefusesFirstRequestOfDay` | server/server.js:65-76 | a count of 3 saved on an earlier day refuses the first request of the new day while writing the reset; the next request that day succeeds |
| `ServerProperties.ThirdConversionThenRefused` | server/server.js:74-87 | with count 2 today, a success stores 3 and the next same-day request gets 403 |
| `ServerProperties.EngineFailureKeepsCount` | server/server.js:104-107 | on transcoder failure: 500, the staged input is deleted, no output is added and the count is not incremented |
| `ServerProperties.MissingFileFailsAfterQuotaCheck` | server/server.js:65-78 | without a file part the rollover still happens; the answer is 403 at the limit and 500 below it |
| `ServerProperties.WriteFailuresInvisible` | server/server.js:37-43 | the answer, the directories and the armed cleanups do not depend on whether the counter writes succeed |
| `ServerProperties.UnreadableCounterFailsOpen` | server/server.js:26-34 | an unreadable counter lets the request through, and a success stores count 1 |
| `ServerProperties.ConvertKeepsWithinLimit` | server/server.js:74-87 | if the stored count was at most 3, no request stores a count above 3 |
| `ServerProperties.DownloadNotFoundIffAbsentOrHidden` | server/server.js:123-133 | the download answers 404 if and only if the name holds no NUL and is either not in the output directory or a valid dotfile name |
| `ServerProperties.DownloadFailsIffNul` | server/server.js:123 | the download answers 500 if and only if the name holds a NUL |
| `ServerProperties.DownloadLosesCleanupsOnlyOnExit` | server/server.js:119-134 | a download never changes the counter or a directory; it loses every armed cleanup when its header is rejected, and otherwise changes nothing |
| `ServerProperties.ConvertedNameIsDownloadable` | server/server.js:84-134 | the name a success answers with can be downloaded immediately, as an `audio/mp3` attachment, unless it holds a NUL (500), a character a header cannot carry (the process exits) or starts with '.' (404) |
| `ServerProperties.DotNamedUploadIsNotDownloadable` | server/server.js:119-134 | an upload named `.` + tail converts to `.mp3.` + tail, whose download is refused with 404 |
| `ServerProperties.DownloadRejectsNameWithUnsupportedCharacter` | server/server.js:123-130 | an existing output whose name holds no NUL but holds, at any position, a control character other than tab, DEL, or a character above U+00FF makes the download end the process, with no status |
| `ServerProperties.ConvertedNameExpiresAfterCleanup` | server/server.js:93-100 | when no earlier cleanup is pending and this request's cleanup is the next step, the cleanup removes the staged input and the output, so the name can no longer be downloaded (a later request that reuses the staged name and fails first would delete the input and leave the output) |
| `ServerProperties.CleanupKeepsOutputWhenInputMissing` | server/server.js:93-99 | if the input is already gone, the output is kept and only the timer is consumed |
| `ServerProperties.CleanupKeepsCounter` | server/server.js:93-100 | cleanup never touches the counter |

## Left out

- Framework set-up is not modelled: the app, CORS, the listening port and
  `app.listen` (server/server.js:8-11, 138-140).
- Static serving of the output directory (line 12) is not modelled. It is a
  second way to fetch outputs and bypasses the download headers.
- The start-up `writeFileSync` that creates the counter file (lines 21-22)
  runs outside any `try`. A failed write stops start-up; the constructor
  always creates the zero record, so that failure is not modelled.
- Directory creation at start-up (lines 15-17) is not modelled. The two
  directories are sets given to the constructor.
- The transcoder is a black box, represented only by its success or failure
  (`Env.engineSucceeds`).
- A partial output file that the transcoder might leave behind on failure is
  not modelled.
- The retention delay is not modelled: one minute in the code, although its
  comment says five. Cleanup is a later step that fires the oldest armed
  timer.
- Concurrent requests are not modelled. Each request is one atomic step, so
  the race on the shared counter file is not represented.
- JSON encoding, `fs` calls and ISO date strings are not modelled. The counter
  file is the `Stored` datatype and dates are millisecond counts.
- A well-formed record whose count is not a number, or whose date cannot be
  parsed, is not modelled. With such a date, `toISOString` would throw.
- A failed `writeFileSync` is modelled as leaving the previous contents. A
  truncated file is not modelled.
- All clock readings before the transcoder runs are one instant (`Env.now`):
  `Date.now()` at line 49 and `new Date()` at lines 32, 66 and 70. The
  increment's date (line 87) is `Env.finishedAt`.
- Instants before 1970 are not modelled.
- The decimal rendering of timestamps assumes values below 10^21, where
  JavaScript switches to exponent notation.
- `extname` follows the POSIX rules; the Windows rules are not modelled.
- The replacement string of `replace` is taken literally. ".mp3" contains no
  `$` pattern, so this matches the code.
- The download URL in the success answer is not modelled (line 90).
- The file bytes sent by `res.sendFile` are not modelled (line 133).
- The path built by `path.join` (line 121) is not modelled. A requested name
  containing `..` could reach files outside the output directory; the lookup
  here is by name in the output set only.
- Multer errors other than the MIME filter, and the uploaded bytes, are not
  modelled.
- A NUL in an uploaded file's original name is not modelled, and `Convert`
  treats such a name like any other. A NUL inside the extension reaches the
  staging write (line 49), which would fail. A NUL elsewhere leaves the staged
  name clean and reaches only the transcoder's output path (lines 79-80, 109);
  what the transcoder does with it is not modelled.
- Working directory: the model assumes the server runs with its own
  directory as the working directory. The source uses two kinds of path:
  - Relative to the working directory: the directory creation (lines 15-16),
    the staging destination (line 47), the output path (lines 79-80) and the
    cleanup's deletions (lines 95-96).
  - Relative to the script's directory: the counter file (line 20) and the
    download lookup (line 121).

  From any other working directory the outputs land in one directory and
  downloads look in another. Every output would then answer 404, and
  `ServerProperties.ConvertedNameIsDownloadable` would not hold.
- The error logging with `console.error` (lines 31, 41, 98, 105) is not
  modelled.
- `ConvertServer.Download` follows only the file sender's default dotfile
  rule, which looks at the last path segment; other sender errors are not
  modelled.
- The failure path's `unlinkSync` (line 106) runs outside any `try`. In the
  model the input was staged by the same request, so it is always present.
- The browser pages (src/app/hero/page.tsx, src/app/layout.tsx) hold no server
  logic and are not modelled.
