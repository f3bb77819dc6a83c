/** What the server promises about its requests, stated over the request
    model of `ConvertServer`. */
module ServerProperties {
  import opened Quota
  import opened Naming
  import opened ConvertServer

  /** A file part whose MIME type is not `video/mp4` is refused before the
      handler runs: nothing is staged, the counter is neither read nor
      written, and the framework answers 500. */
  lemma UploadRejectedIffNotMp4(s: State, file: FilePart, env: Env)
    requires file.File?
    ensures Convert(s, file, env).response == UploadRejected <==> file.mimeType != "video/mp4"
    ensures file.mimeType != "video/mp4" ==>
              Convert(s, file, env).state == s && Status(Convert(s, file, env).response) == 500
  {
  }

  /** The limit is decided by the count read at request start: the answer is
      403 exactly when the request passes the filter and that count is at
      least 3, even when the rollover has just reset the stored count. */
  lemma QuotaExceededIffStartCountAtLimit(s: State, file: FilePart, env: Env)
    ensures Convert(s, file, env).response == QuotaExceeded <==>
              PassesFilter(file) && ReadRecord(s.counter, env.now).count >= DAILY_LIMIT
  {
  }

  /** Over the limit: 403, no conversion and no increment. The counter holds
      at most the rollover's zero record; the upload, already staged by the
      middleware, stays in the upload directory. */
  lemma QuotaExceededChangesNoCount(s: State, file: FilePart, env: Env)
    requires PassesFilter(file) && ReadRecord(s.counter, env.now).count >= DAILY_LIMIT
    ensures var step := Convert(s, file, env);
            && Status(step.response) == 403
            && step.state.counter == Rollover(s.counter, env.now, env.rolloverWriteOk)
            && step.state.converted == s.converted
            && step.state.pending == s.pending
            && step.state.staged ==
                 (if file.File? then s.staged + {StagedName(env.now, file.originalName)} else s.staged)
  {
  }

  /** Success: the output name is derived from the original name, the stored
      count becomes the count read at request start plus one, dated when the
      transcoder finished, and a cleanup of the staged input and the output
      is armed. */
  lemma SuccessWritesStartCountPlusOne(s: State, name: string, env: Env)
    requires ReadRecord(s.counter, env.now).count < DAILY_LIMIT
    requires env.engineSucceeds && env.incrementWriteOk
    ensures var step := Convert(s, File(name, VIDEO_MP4), env);
            var input := StagedName(env.now, name);
            && step.response == Converted(OutputName(name))
            && Status(step.response) == 200
            && step.state.counter ==
                 Saved(QuotaRecord(ReadRecord(s.counter, env.now).count + 1, env.finishedAt))
            && step.state.staged == s.staged + {input}
            && step.state.converted == s.converted + {OutputName(name)}
            && step.state.pending == s.pending + [CleanupJob(input, OutputName(name))]
  {
  }

  /** The increment overwrites the rollover: a record left at count `c` on an
      earlier day becomes `c + 1`, not 1, after the first successful
      conversion of the new day. */
  lemma IncrementOverwritesRollover(s: State, c: nat, lastReset: nat, name: string, env: Env)
    requires s.counter == Saved(QuotaRecord(c, lastReset))
    requires c < DAILY_LIMIT && UtcDay(lastReset) != UtcDay(env.now)
    requires env.engineSucceeds && env.incrementWriteOk
    ensures Convert(s, File(name, VIDEO_MP4), env).state.counter ==
              Saved(QuotaRecord(c + 1, env.finishedAt))
  {
  }

  /** A record left at the limit on an earlier day still refuses the first
      request of the new day (the rollover is written but not used); the
      next request that day then gets through. */
  lemma StaleCountRefusesFirstRequestOfDay(
    s: State, lastReset: nat, name1: string, name2: string, env1: Env, env2: Env)
    requires s.counter == Saved(QuotaRecord(DAILY_LIMIT, lastReset))
    requires UtcDay(lastReset) != UtcDay(env1.now) && env1.rolloverWriteOk
    requires UtcDay(env2.now) == UtcDay(env1.now)
    requires env2.engineSucceeds
    ensures var first := Convert(s, File(name1, VIDEO_MP4), env1);
            && first.response == QuotaExceeded
            && first.state.counter == Saved(QuotaRecord(0, env1.now))
            && Convert(first.state, File(name2, VIDEO_MP4), env2).response == Converted(OutputName(name2))
  {
  }

  /** With a count of 2 on the current day, a successful conversion brings it
      to 3, and the next request on the same day is refused. */
  lemma ThirdConversionThenRefused(
    s: State, lastReset: nat, name1: string, name2: string, env1: Env, env2: Env)
    requires s.counter == Saved(QuotaRecord(2, lastReset))
    requires UtcDay(lastReset) == UtcDay(env1.now)
    requires env1.engineSucceeds && env1.incrementWriteOk
    requires UtcDay(env2.now) == UtcDay(env1.finishedAt)
    ensures var first := Convert(s, File(name1, VIDEO_MP4), env1);
            && first.response == Converted(OutputName(name1))
            && first.state.counter == Saved(QuotaRecord(3, env1.finishedAt))
            && Convert(first.state, File(name2, VIDEO_MP4), env2).response == QuotaExceeded
  {
  }

  /** Transcoder failure: 500, the staged input is deleted, nothing is added
      to the output directory and the count is not incremented (only the
      rollover may have been written). */
  lemma EngineFailureKeepsCount(s: State, name: string, env: Env)
    requires ReadRecord(s.counter, env.now).count < DAILY_LIMIT
    requires !env.engineSucceeds
    ensures var step := Convert(s, File(name, VIDEO_MP4), env);
            && step.response == ConversionFailed
            && Status(step.response) == 500
            && step.state.counter == Rollover(s.counter, env.now, env.rolloverWriteOk)
            && step.state.staged == s.staged - {StagedName(env.now, name)}
            && step.state.converted == s.converted
            && step.state.pending == s.pending
  {
  }

  /** A request without a file part still reads the counter and writes the
      rollover; below the limit it then fails with 500 before anything is
      converted. */
  lemma MissingFileFailsAfterQuotaCheck(s: State, env: Env)
    ensures var step := Convert(s, NoFile, env);
            && step.state == s.(counter := Rollover(s.counter, env.now, env.rolloverWriteOk))
            && step.response ==
                 (if ReadRecord(s.counter, env.now).count >= DAILY_LIMIT then QuotaExceeded else MissingFile)
  {
  }

  /** Failed counter writes never reach the caller: the answer does not
      depend on whether either write succeeded, and neither do the
      directories or the armed cleanups. */
  lemma WriteFailuresInvisible(s: State, file: FilePart, env: Env, rolloverOk: bool, incrementOk: bool)
    ensures var other := env.(rolloverWriteOk := rolloverOk, incrementWriteOk := incrementOk);
            && Convert(s, file, other).response == Convert(s, file, env).response
            && Convert(s, file, other).state.(counter := s.counter) ==
                 Convert(s, file, env).state.(counter := s.counter)
  {
  }

  /** An unreadable counter file reads as a zero record dated now: the request
      is let through and its success stores a count of 1. */
  lemma UnreadableCounterFailsOpen(s: State, name: string, env: Env)
    requires !s.counter.Saved?
    requires env.engineSucceeds && env.incrementWriteOk
    ensures Convert(s, File(name, VIDEO_MP4), env).response == Converted(OutputName(name))
    ensures Convert(s, File(name, VIDEO_MP4), env).state.counter == Saved(QuotaRecord(1, env.finishedAt))
  {
  }

  /** A request never stores a count above the limit. */
  lemma ConvertKeepsWithinLimit(s: State, file: FilePart, env: Env)
    requires WithinLimit(s.counter)
    ensures WithinLimit(Convert(s, file, env).state.counter)
  {
  }

  /** The download answers 404 exactly when the name holds no NUL and is
      either not in the output directory or a dotfile the sender refuses. */
  lemma DownloadNotFoundIffAbsentOrHidden(s: State, name: string)
    ensures DownloadStatus(Download(s.converted, name)) == 404 <==>
              '\0' !in name && (name !in s.converted || (ValidHeaderValue(name) && IsDotFile(name)))
  {
  }

  /** The download answers 500 exactly when the name holds a NUL. */
  lemma DownloadFailsIffNul(s: State, name: string)
    ensures DownloadStatus(Download(s.converted, name)) == 500 <==> '\0' in name
  {
  }

  /** A download never changes a file or the counter. It loses the armed
      cleanups exactly when its header is rejected and the process exits;
      otherwise the state is as it was. */
  lemma DownloadLosesCleanupsOnlyOnExit(s: State, name: string)
    ensures var r := Download(s.converted, name);
            var t := AfterDownload(s, r);
            && t.counter == s.counter && t.staged == s.staged && t.converted == s.converted
            && (r.HeaderRejected? ==> t.pending == [])
            && (!r.HeaderRejected? ==> t == s)
  {
  }

  /** The name a successful conversion answers with can be downloaded
      straight away, unless it holds a NUL (500), a character a header cannot
      carry (the process exits) or starts with '.' (404). */
  lemma ConvertedNameIsDownloadable(s: State, file: FilePart, env: Env)
    requires Convert(s, file, env).response.Converted?
    ensures var step := Convert(s, file, env);
            var name := step.response.fileName;
            Download(step.state.converted, name) ==
              if '\0' in name then AccessThrew
              else if !ValidHeaderValue(name) then HeaderRejected
              else if IsDotFile(name) then HiddenFile
              else Attachment("audio/mp3", "attachment; filename=" + name, name)
  {
  }

  /** An upload named like ".mp4" converts to ".mp3.mp4", a dotfile, whose
      download is refused with 404. */
  lemma DotNamedUploadIsNotDownloadable(s: State, rest: string, env: Env)
    requires '.' !in rest && '/' !in rest && ValidHeaderValue(rest)
    requires Convert(s, File("." + rest, VIDEO_MP4), env).response.Converted?
    ensures var step := Convert(s, File("." + rest, VIDEO_MP4), env);
            && step.response == Converted(".mp3." + rest)
            && Download(step.state.converted, ".mp3." + rest) == HiddenFile
            && DownloadStatus(Download(step.state.converted, ".mp3." + rest)) == 404
  {
    var name := ".mp3." + rest;
    OutputNameOfDotName(rest);
    ConvertedNameIsDownloadable(s, File("." + rest, VIDEO_MP4), env);
    ValidHeaderValueConcat(".mp3.", rest);
    assert '\0' !in name by {
      assert forall i :: 0 <= i < |name| ==> name[i] in ".mp3." || name[i] in rest;
    }
    assert IsDotFile(name);
  }

  /** An existing name with a character, at any position, outside tab,
      0x20-0x7E and 0x80-0xFF (a control character such as a newline, DEL,
      or a letter above U+00FF) makes the download throw when it sets the
      disposition header. */
  lemma DownloadRejectsNameWithUnsupportedCharacter(converted: set<string>, name: string, i: nat)
    requires '\0' !in name && name in converted && i < |name|
    requires (name[i] as int < 0x20 && name[i] != '\t') || name[i] as int == 0x7F || name[i] as int > 0xFF
    ensures Download(converted, name) == HeaderRejected
    ensures DownloadStatus(Download(converted, name)) == 0
  {
  }

  /** With no earlier cleanup pending, the cleanup a successful conversion
      arms deletes its staged input and its output: the name can no longer be
      downloaded (404, or 500 for a name holding a NUL). */
  lemma ConvertedNameExpiresAfterCleanup(s: State, name: string, env: Env)
    requires s.pending == []
    requires Convert(s, File(name, VIDEO_MP4), env).response.Converted?
    ensures var after := Cleanup(Convert(s, File(name, VIDEO_MP4), env).state);
            && OutputName(name) !in after.converted
            && Download(after.converted, OutputName(name)) ==
                 (if '\0' in OutputName(name) then AccessThrew else NotFound)
            && StagedName(env.now, name) !in after.staged
            && after.pending == []
  {
  }

  /** When the staged input of the firing cleanup is already gone, its output
      is kept. */
  lemma CleanupKeepsOutputWhenInputMissing(s: State)
    requires s.pending != [] && s.pending[0].input !in s.staged
    ensures Cleanup(s).converted == s.converted
    ensures Cleanup(s).staged == s.staged
    ensures Cleanup(s).pending == s.pending[1..]
  {
  }

  /** Cleanup never touches the counter. */
  lemma CleanupKeepsCounter(s: State)
    requires s.pending != []
    ensures Cleanup(s).counter == s.counter
  {
  }
}
