/** `processBuffer`, `rotate_logs` and `setup_output` on the program's own variables: an entry is
    parsed, filtered, formatted, written and counted, and the files rotate when the count says so. */
module LogOutput {
  import opened FileNames
  import opened Options
  import opened Rotation
  import Filters
  import Formatter
  import Wire

  /** The line `processBuffer` writes for a payload, if the filters pass it. */
  function LineOf(filters: Filters.FilterSet, format: Formatter.Format, header: string, payload: string): Option<string>
    requires Wire.WellFormed(payload)
  {
    var r := Wire.Parse(payload);
    if r.priority >= Filters.Lookup(filters, r.tag)
    then Some(Formatter.Formatted(format, header, r.tag, r.message[..r.messageLen]))
    else None
  }

  /** The globals of the output. `toFile` is false when g_output_filename is NULL; then text goes
      to `stdout`. `state` is the value the functions of Rotation work on. */
  class LogOutput {
    const cfg: Config
    const toFile: bool
    var files: Files
    var stdout: string
    var byteCount: nat
    ghost var state: Output

    ghost predicate Valid()
      reads this
    {
      toFile ==> cfg.base in files && state.files == files && state.count == byteCount
    }

    /** `setup_output`. */
    constructor (cfg: Config, toFile: bool, files: Files)
      ensures Valid() && this.cfg == cfg && this.toFile == toFile && stdout == "" && state == Setup(cfg, files)
      ensures this.files == if toFile then OpenAppend(files, cfg.base) else files
    {
      this.cfg, this.toFile, stdout, byteCount, this.files := cfg, toFile, "", 0, files;
      state := Setup(cfg, files);
      new;
      if toFile {
        this.files := OpenAppend(files, cfg.base);
        byteCount := |this.files[cfg.base]|;
      }
    }

    /** write(2) on g_outfd; `result` is what the system call returns. */
    method WriteOut(text: string, result: int) returns (ret: int)
      requires Valid()
      modifies `files, `stdout, `state
      ensures ret == if result < 0 then result else |Taken(text, result)|
      ensures toFile ==> cfg.base in files && stdout == old(stdout)
      ensures toFile ==> files == old(files)[cfg.base := old(files)[cfg.base] + Taken(text, result)]
      ensures !toFile ==> files == old(files) && stdout == old(stdout) + Taken(text, result)
      ensures state == if toFile then Append(old(state), cfg, Taken(text, result)) else old(state)
    {
      var bytes := Taken(text, result);
      if toFile {
        files := files[cfg.base := files[cfg.base] + bytes];
        state := Append(state, cfg, bytes);
      } else {
        stdout := stdout + bytes;
      }
      ret := if result < 0 then result else |bytes|;
    }

    /** A banner, as `maybePrintStart` writes it. */
    method WriteBanner(text: string, result: int)
      requires Valid() && result >= 0
      modifies `files, `stdout, `state
      ensures Valid() && byteCount == old(byteCount)
      ensures toFile ==> state == Handle(cfg, old(state), BannerText(text, result)) && stdout == old(stdout)
      ensures !toFile ==> files == old(files) && stdout == old(stdout) + Taken(text, result)
    {
      var n := WriteOut(text, result);
      if toFile {
        state := state.(bannerBytes := state.bannerBytes + n);
      }
    }

    /** The cascade, from the oldest number down. */
    method RotateLogs(fails: set<nat>)
      requires Valid()
      modifies `files, `byteCount, `state
      ensures Valid()
      ensures if toFile
              then byteCount == 0 && files == Rotated(old(files), cfg.base, cfg.max, fails)
                   && state == RotateNow(cfg, old(state), fails) && stdout == old(stdout)
              else files == old(files) && byteCount == old(byteCount) && state == old(state)
    {
      if !toFile {
        return;
      }
      var i := cfg.max;
      while i > 0
        invariant state == old(state)
        invariant RenameDown(files, cfg.base, i, fails) == RenameDown(old(files), cfg.base, cfg.max, fails)
      {
        var file1 := FileName(cfg.base, i);
        var file0 := FileName(cfg.base, i - 1);
        if i !in fails {
          files := Rename(files, file0, file1);
        }
        i := i - 1;
      }
      files := OpenAppend(files, cfg.base);
      byteCount := 0;
      state := RotateNow(cfg, old(state), fails);
    }

    /** `log_print_log_line`: a failed write counts as 0 bytes. */
    method PrintLogLine(format: Formatter.Format, header: string, entry: Wire.Record, result: int) returns (ret: nat)
      requires Valid() && Formatter.NulFree(header) && Formatter.NulFree(entry.tag)
      requires entry.messageLen < |entry.message| && entry.message[entry.messageLen] == Formatter.NUL
      requires Formatter.NulFreeUpTo(entry.message, entry.messageLen)
      modifies `files, `stdout, `state
      ensures Valid() && byteCount == old(byteCount)
      ensures var bytes := Taken(Formatter.Formatted(format, header, entry.tag, entry.message[..entry.messageLen]), result);
              && ret == |bytes|
              && state == (if toFile then Append(old(state), cfg, bytes) else old(state))
              && stdout == (if toFile then old(stdout) else old(stdout) + bytes)
              && (!toFile ==> files == old(files))
    {
      var defaultBuffer := new char[512];
      var outBuffer, totalLen, _, _ :=
        Formatter.FormatLogLine(format, header, entry.tag, entry.message, entry.messageLen, defaultBuffer);
      var n := WriteOut(outBuffer[..totalLen], result);
      ret := if n < 0 then 0 else n;
    }

    /** The end of `processBuffer`: counts the bytes written and rotates when the count says so. */
    method CountAndRotate(bytesWritten: nat, fails: set<nat>)
      requires toFile ==> cfg.base in files && state.files == files && state.count == byteCount
      modifies `files, `byteCount, `state
      ensures Valid()
      ensures if toFile
              then state == RotateIfDue(cfg, old(state).(count := old(state).count + bytesWritten), fails)
              else files == old(files) && byteCount == old(byteCount) + bytesWritten
    {
      byteCount := byteCount + bytesWritten;
      state := state.(count := byteCount);
      if cfg.kbytes > 0 && byteCount / 1024 >= cfg.kbytes {
        RotateLogs(fails);
      }
    }

    /** `processBuffer`. */
    method ProcessBuffer(logFormat: Filters.LogFormat, format: Formatter.Format, header: string, payload: string,
                         result: int, fails: set<nat>)
      requires Valid() && Wire.WellFormed(payload) && Formatter.NulFree(header)
      modifies `files, `stdout, `byteCount, `state
      ensures Valid()
      ensures var line := LineOf(logFormat.Abs(), format, header, payload);
              if toFile
              then state == Handle(cfg, old(state), LineText(line, result, fails)) && stdout == old(stdout)
              else stdout == old(stdout) + LineBytes(line, result) && files == old(files)
                   && byteCount == old(byteCount) + |LineBytes(line, result)|
    {
      var entry := Wire.ProcessLogBuffer(payload);
      Wire.TagIsNulFree(payload);
      var bytesWritten := 0;
      var shown := logFormat.ShouldPrintLine(entry.tag, entry.priority);
      if shown {
        bytesWritten := PrintLogLine(format, header, entry, result);
      } else if toFile {
        AppendNothing(state, cfg);
      }
      CountAndRotate(bytesWritten, fails);
    }
  }
}
