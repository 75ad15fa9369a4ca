/** The writer (`logs`): formatting a message, reserving room for it and appending it (`output`). */
module Logger {
  import opened GoInt
  import opened Wrappers
  import opened Format
  import opened Rotation

  /** One append to an OS file: the handle written to and the bytes written. */
  datatype Append = Append(handle: Handle, line: string)

  /** Size `output` accounts for a line: `uint32(len(logFormat(types, str)))`. */
  function LineSize(ts: string, types: string, str: string): (n: uint32)
    ensures |LogFormat(ts, types, str)| < U32_MODULUS ==> n == |ts| + |types| + |str| + 2
  {
    TruncTo32(|LogFormat(ts, types, str)|)
  }

  /**
   * What a call to `output` does to the file and to the OS files: the reservation's
   * outcome, and the line appended to the active handle only when it succeeded.
   */
  function OutputEffect(f: FileValue, types: string, str: string, measuredAt: string, writtenAt: string,
                        create: Creation): (r: (FileValue, seq<Append>))
    ensures |r.1| <= 1
    ensures r.1 != [] ==> r.1[0].handle == r.0.handle && |r.1[0].line| > 0 && r.1[0].line[|r.1[0].line| - 1] == '\n'
    ensures r.1 == [] ==> r.0.handle == Nil
  {
    var (g, ok) := Reserve(f, LineSize(measuredAt, types, str), create);
    (g, if ok then [Append(g.handle, LogFormat(writtenAt, types, str))] else [])
  }

  /**
   * `output` appends only after a successful reservation, and then exactly one line, ended by
   * a newline, to the handle the reservation left active; a failed rotation appends nothing.
   */
  lemma OutputAppendsOnlyOnSuccess(f: FileValue, types: string, str: string, measuredAt: string,
                                   writtenAt: string, create: Creation)
    ensures var (g, written) := OutputEffect(f, types, str, measuredAt, writtenAt, create);
      && |written| <= 1
      && (written != [] <==> Reserve(f, LineSize(measuredAt, types, str), create).1)
      && (written != [] ==> written[0].handle == g.handle
                            && written[0].line[|written[0].line| - 1] == '\n'
                            && written[0].line == LogFormat(writtenAt, types, str))
      && (MustRotate(f, LineSize(measuredAt, types, str)) && create.Failed? ==> written == [])
  {
  }

  /**
   * When both clock readings have the same width and the line is shorter than 4 GiB, the size
   * added to the accounting is the number of bytes appended, and the line reads back as given.
   */
  lemma OutputAccountsWrittenBytes(f: FileValue, l: Level, str: string, measuredAt: string,
                                   writtenAt: string, create: Creation)
    requires |measuredAt| == |writtenAt|
    requires |writtenAt| + |str| + 10 < U32_MODULUS
    requires f.size + |writtenAt| + |str| + 10 <= f.config.maxSize
    ensures var (g, written) := OutputEffect(f, Tag(l), str, measuredAt, writtenAt, create);
      && written == [Append(f.handle, LogFormat(writtenAt, Tag(l), str))]
      && g.size == f.size + |written[0].line|
      && ParseLine(written[0].line, |writtenAt|) == Some(Line(writtenAt, l, str))
  {
    var n := LineSize(measuredAt, Tag(l), str);
    ReserveAccumulates(f, n, create);
    ParseFormat(writtenAt, l, str);
  }

  /**
   * A failed rotation leaves the nil handle active; a following line small enough to fit
   * passes the size check and is handed to that nil handle, so it reaches no file.
   */
  lemma FailedRotationLeavesNilTarget(f: FileValue, n: uint32, types: string, str: string,
                                      measuredAt: string, writtenAt: string, create: Creation)
    requires MustRotate(f, n)
    requires f.size + LineSize(measuredAt, types, str) <= f.config.maxSize
    ensures var g := Reserve(f, n, Failed).0;
      OutputEffect(g, types, str, measuredAt, writtenAt, create).1
        == [Append(Nil, LogFormat(writtenAt, types, str))]
  {
  }

  /** The writer: its directory, the diagnostic file, and the rotating file. */
  class Logs {
    var logPath: string
    var osFile: Handle
    var file: File
    /** Every append made to an OS file through this writer, oldest first. */
    var appended: seq<Append>

    constructor (logPath: string, osFile: Handle, file: File)
      ensures this.logPath == logPath && this.osFile == osFile && this.file == file && appended == []
    {
      this.logPath := logPath;
      this.osFile := osFile;
      this.file := file;
      appended := [];
    }

    /**
     * `(*logs).output(types, str)`: measures the formatted line (clock reading `measuredAt`),
     * reserves room for it, appends it (clock reading `writtenAt`) only when the reservation
     * succeeded, and always returns an error carrying `str`.
     */
    method Output(types: string, str: string, measuredAt: string, writtenAt: string, create: Creation)
      returns (err: Option<string>)
      modifies this, file, file.config
      ensures file == old(file) && file.config == old(file.config)
      ensures logPath == old(logPath) && osFile == old(osFile)
      ensures var (g, written) := OutputEffect(old(file.Value()), types, str, measuredAt, writtenAt, create);
        file.Value() == g && appended == old(appended) + written
      ensures err == Some(str)
    {
      var size := TruncTo32(|LogFormat(measuredAt, types, str)|);
      var ok := file.CheckFileSize(size, create);
      if ok {
        appended := appended + [Append(file.osFile, LogFormat(writtenAt, types, str))];
      }
      return Some(str);
    }
  }
}
