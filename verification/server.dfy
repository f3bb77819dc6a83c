/** The conversion server: the `/convert` request (upload filter, staging,
    quota check, conversion outcome, count update, cleanup scheduling), the
    deferred cleanup, the `/download/:filename` lookup and the
    `/conversionCount` query. Directories are sets of file names; the
    transcoder, the clock and the disk's failures are inputs. */
module ConvertServer {
  import opened Quota
  import opened Naming

  /** The file part of a `/convert` request, if the request carries one. */
  datatype FilePart = NoFile | File(originalName: string, mimeType: string)

  /** What the environment decides during one request: the instant at request
      start, the instant the transcoder finished, whether each counter write
      succeeds, and whether the transcoder succeeds. */
  datatype Env = Env(
    now: nat,
    finishedAt: nat,
    rolloverWriteOk: bool,
    incrementWriteOk: bool,
    engineSucceeds: bool)

  /** An armed cleanup timer: the staged input and the output to delete. */
  datatype CleanupJob = CleanupJob(input: string, output: string)

  /** Everything the server keeps between requests: the counter file, the
      upload directory, the output directory and the armed cleanup timers in
      the order they fire. */
  datatype State = State(
    counter: Stored,
    staged: set<string>,
    converted: set<string>,
    pending: seq<CleanupJob>)

  /** The answers to `/convert`. */
  datatype Response =
    | Converted(fileName: string)  // success, with the output name
    | QuotaExceeded                // the daily limit was reached
    | ConversionFailed             // the transcoder failed
    | UploadRejected               // the filter's error, answered by the framework
    | MissingFile                  // no file part: reading its path throws

  /** The answers to `/download/:filename`. `HeaderRejected` is no answer at
      all: setting a header value with a character HTTP does not allow throws
      inside the existence callback, nothing catches it, and the process exits. */
  datatype DownloadResponse =
    | AccessThrew     // a NUL in the path makes the existence check throw; the framework answers 500
    | NotFound        // no such output: 404
    | HiddenFile      // the file sender refuses a dotfile; the framework answers 404
    | Attachment(contentType: string, disposition: string, fileName: string)
    | HeaderRejected

  datatype Step = Step(state: State, response: Response)

  function Status(r: Response): nat
  {
    match r
    case Converted(_) => 200
    case QuotaExceeded => 403
    case _ => 500
  }

  /** The HTTP status of a download answer; 0 when the process exits instead. */
  function DownloadStatus(r: DownloadResponse): nat
  {
    match r
    case AccessThrew => 500
    case NotFound => 404
    case HiddenFile => 404
    case Attachment(_, _, _) => 200
    case HeaderRejected => 0
  }

  /** The upload middleware lets the request through to the handler. */
  predicate PassesFilter(file: FilePart)
  {
    file.File? ==> AcceptsMime(file.mimeType)
  }

  /** One `/convert` request. The upload middleware runs first (filter, then
      staging); the handler then reads the counter once, writes a rollover
      when the record is from another day, and decides with the count it
      read. On success it writes that count plus one. */
  function Convert(s: State, file: FilePart, env: Env): Step
  {
    if !PassesFilter(file) then Step(s, UploadRejected)
    else
      var input := if file.File? then StagedName(env.now, file.originalName) else "";
      var staged := if file.File? then s.staged + {input} else s.staged;
      var start := ReadRecord(s.counter, env.now);
      var counter := Rollover(s.counter, env.now, env.rolloverWriteOk);
      if start.count >= DAILY_LIMIT then
        Step(s.(counter := counter, staged := staged), QuotaExceeded)
      else if file.NoFile? then
        Step(s.(counter := counter, staged := staged), MissingFile)
      else
        var output := OutputName(file.originalName);
        if env.engineSucceeds then
          Step(State(
                 WriteRecord(counter, QuotaRecord(start.count + 1, env.finishedAt), env.incrementWriteOk),
                 staged,
                 s.converted + {output},
                 s.pending + [CleanupJob(input, output)]),
               Converted(output))
        else
          Step(s.(counter := counter, staged := staged - {input}), ConversionFailed)
  }

  /** The oldest cleanup timer fires: it deletes the input and then the output
      inside one `try`, so an input that is already gone stops it before the
      output is deleted. An output that is already gone is ignored. */
  function Cleanup(s: State): State
    requires s.pending != []
  {
    var job := s.pending[0];
    if job.input in s.staged
    then s.(staged := s.staged - {job.input},
            converted := s.converted - {job.output},
            pending := s.pending[1..])
    else s.(pending := s.pending[1..])
  }

  /** A header value Node accepts: tab, and the characters 0x20-0x7E and 0x80-0xFF. */
  predicate ValidHeaderValue(v: string)
  {
    forall i :: 0 <= i < |v| ==>
      v[i] as int == 0x09 || 0x20 <= v[i] as int <= 0x7E || 0x80 <= v[i] as int <= 0xFF
  }

  /** A concatenation is a valid header value exactly when both parts are. */
  lemma {:induction false} ValidHeaderValueConcat(a: string, b: string)
    ensures ValidHeaderValue(a + b) <==> ValidHeaderValue(a) && ValidHeaderValue(b)
  {
    var v := a + b;
    assert forall i :: 0 <= i < |a| ==> a[i] == v[i];
    assert forall i :: 0 <= i < |b| ==> b[i] == v[|a| + i];
  }

  /** A name the file sender treats as a dotfile, which by default it refuses:
      longer than one character and starting with '.'. */
  predicate IsDotFile(name: string)
  {
    |name| > 1 && name[0] == '.'
  }

  /** `/download/:filename`. A NUL in the name makes the existence check
      throw; otherwise the answer is not found unless the name is in the
      output directory. The headers are set next, which ends the process when
      the name cannot go into a header; then a dotfile is refused, and any
      other file goes out as an `audio/mp3` attachment carrying the requested
      name. */
  function Download(converted: set<string>, name: string): (r: DownloadResponse)
    ensures r.AccessThrew? <==> '\0' in name
    ensures r.NotFound? <==> '\0' !in name && name !in converted
    ensures r.HeaderRejected? <==> '\0' !in name && name in converted && !ValidHeaderValue(name)
    ensures r.HiddenFile? <==> name in converted && ValidHeaderValue(name) && IsDotFile(name)
    ensures r.Attachment? <==> name in converted && ValidHeaderValue(name) && !IsDotFile(name)
    ensures r.Attachment? ==>
              r.contentType == "audio/mp3" &&
              r.disposition == "attachment; filename=" + name &&
              r.fileName == name
  {
    if '\0' in name then AccessThrew
    else if name !in converted then NotFound
    else
      var disposition := "attachment; filename=" + name;
      ValidHeaderValueConcat("attachment; filename=", name);
      if !ValidHeaderValue(disposition) then HeaderRejected
      else if IsDotFile(name) then HiddenFile
      else Attachment("audio/mp3", disposition, name)
  }

  /** What a download leaves behind: nothing changes, except that a rejected
      header ends the process, and the cleanup timers it had armed end with
      it. The files those timers would have deleted stay where they are. */
  function AfterDownload(s: State, r: DownloadResponse): State
  {
    if r.HeaderRejected? then s.(pending := []) else s
  }

  /** The running server. */
  class Server {
    const counter: CounterFile
    var staged: set<string>
    var converted: set<string>
    var pending: seq<CleanupJob>
    /** False once the process has exited. */
    var running: bool

    function Snapshot(): State
      reads this, counter
    {
      State(counter.stored, staged, converted, pending)
    }

    /** Start-up: the counter file is created when missing; the directories
        keep whatever they already hold. */
    constructor (existing: Stored, uploads: set<string>, outputs: set<string>, now: nat)
      ensures fresh(counter)
      ensures Snapshot() == State(Boot(existing, now), uploads, outputs, [])
      ensures running
    {
      counter := new CounterFile(existing, now);
      staged := uploads;
      converted := outputs;
      pending := [];
      running := true;
    }

    /** `POST /convert`. */
    method HandleConvert(file: FilePart, env: Env) returns (response: Response)
      requires running
      modifies this, counter
      ensures running
      ensures Snapshot() == Convert(old(Snapshot()), file, env).state
      ensures response == Convert(old(Snapshot()), file, env).response
    {
      // upload middleware: filter, then stage under a timestamped name
      var input := "";
      if file.File? {
        if !AcceptsMime(file.mimeType) {
          return UploadRejected;
        }
        input := StagedName(env.now, file.originalName);
        staged := staged + {input};
      }

      var start := counter.Read(env.now);
      if NeedsRollover(start, env.now) {
        counter.Write(0, env.now, env.rolloverWriteOk);
      }
      if start.count >= DAILY_LIMIT {
        return QuotaExceeded;
      }
      if file.NoFile? {
        return MissingFile;
      }

      var output := OutputName(file.originalName);
      if env.engineSucceeds {
        converted := converted + {output};
        counter.Write(start.count + 1, env.finishedAt, env.incrementWriteOk);
        pending := pending + [CleanupJob(input, output)];
        response := Converted(output);
      } else {
        staged := staged - {input};
        response := ConversionFailed;
      }
    }

    /** The oldest armed cleanup timer fires. */
    method FireCleanup()
      requires running && pending != []
      modifies this
      ensures running
      ensures Snapshot() == Cleanup(old(Snapshot()))
    {
      var job := pending[0];
      pending := pending[1..];
      if job.input in staged {
        staged := staged - {job.input};
        converted := converted - {job.output};
      }
    }

    /** `GET /download/:filename`; it changes nothing unless the header is
        rejected, which stops the server and its armed timers. */
    method HandleDownload(name: string) returns (r: DownloadResponse)
      requires running
      modifies this
      ensures r == Download(old(converted), name)
      ensures Snapshot() == AfterDownload(old(Snapshot()), r)
      ensures running <==> !r.HeaderRejected?
    {
      if '\0' in name {
        return AccessThrew;
      }
      if name !in converted {
        return NotFound;
      }
      var disposition := "attachment; filename=" + name;
      if !ValidHeaderValue(disposition) {
        running := false;
        pending := [];
        return HeaderRejected;
      }
      if IsDotFile(name) {
        return HiddenFile;
      }
      r := Attachment("audio/mp3", disposition, name);
    }

    /** `GET /conversionCount`: the record as read, without any rollover. */
    method HandleCountQuery(now: nat) returns (r: QuotaRecord)
      requires running
      ensures r == ReadRecord(counter.stored, now)
    {
      r := counter.Read(now);
    }
  }
}
