/** Level tags and the layout of one log line (`logFormat`). */
module Format {
  import opened Wrappers

  /** The levels whose tags the package declares. */
  datatype Level = Logs | Debug | Info | Warn | Error | Panic

  /** Width of a timestamp laid out as "2006-01-02 15:04:05.000000". */
  const TimestampWidth: nat := 26

  /** The tag written after the timestamp: a space and a bracketed name padded to eight bytes. */
  function Tag(l: Level): (t: string)
    ensures |t| == 8
    ensures t[0] == ' ' && t[1] == '['
    ensures t[7] == ']' || t[7] == ' '
  {
    match l
    case Logs => " [logs] "
    case Debug => " [debug]"
    case Info => " [info] "
    case Warn => " [warn] "
    case Error => " [error]"
    case Panic => " [panic]"
  }

  /** The level a tag stands for, if any. */
  function LevelOf(t: string): (l: Option<Level>)
  {
    if t == Tag(Logs) then Some(Logs)
    else if t == Tag(Debug) then Some(Debug)
    else if t == Tag(Info) then Some(Info)
    else if t == Tag(Warn) then Some(Warn)
    else if t == Tag(Error) then Some(Error)
    else if t == Tag(Panic) then Some(Panic)
    else None
  }

  /** Every tag is read back as its own level, so no two levels share a tag. */
  lemma LevelOfTag(l: Level)
    ensures LevelOf(Tag(l)) == Some(l)
  {
  }

  /** `logFormat(lType, str)` with the clock reading `ts` passed in. */
  function LogFormat(ts: string, lType: string, str: string): (msg: string)
    ensures |msg| == |ts| + |lType| + |str| + 2
    ensures msg[|msg| - 1] == '\n'
    ensures msg[..|ts|] == ts
  {
    ts + lType + " " + str + "\n"
  }

  /** A parsed line: timestamp, level and message. */
  datatype Line = Line(ts: string, level: Level, message: string)

  /** Splits a line produced with a `tsWidth`-byte timestamp and a level tag back into its parts. */
  function ParseLine(msg: string, tsWidth: nat): Option<Line>
  {
    if |msg| < tsWidth + 10 || msg[|msg| - 1] != '\n' || msg[tsWidth + 8] != ' ' then None
    else match LevelOf(msg[tsWidth..tsWidth + 8])
      case None => None
      case Some(l) => Some(Line(msg[..tsWidth], l, msg[tsWidth + 9..|msg| - 1]))
  }

  /** Formatting then parsing returns the timestamp, level and message that went in. */
  lemma ParseFormat(ts: string, l: Level, str: string)
    ensures ParseLine(LogFormat(ts, Tag(l), str), |ts|) == Some(Line(ts, l, str))
  {
    var msg := LogFormat(ts, Tag(l), str);
    assert msg[|ts|..|ts| + 8] == Tag(l);
    assert msg[|ts| + 9..|msg| - 1] == str;
    LevelOfTag(l);
  }

  /** A line with a standard timestamp and a level tag is 36 bytes longer than its message. */
  lemma LineLength(ts: string, l: Level, str: string)
    requires |ts| == TimestampWidth
    ensures |LogFormat(ts, Tag(l), str)| == |str| + 36
  {
  }

  /** The line's length depends on the timestamp only through its width. */
  lemma LengthIgnoresClock(ts1: string, ts2: string, lType: string, str: string)
    requires |ts1| == |ts2|
    ensures |LogFormat(ts1, lType, str)| == |LogFormat(ts2, lType, str)|
  {
  }
}
