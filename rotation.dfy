/** The rotating file (`file`): size accounting and rotation on every write (`checkFileSize`). */
module Rotation {
  import opened GoInt
  import opened Decimal
  import opened Strings
  import opened LogConfig

  /** An OS file handle: `Nil` is Go's nil `*os.File`, `Open` a file opened at `path`. */
  datatype Handle = Nil | Open(id: nat, path: string)

  /** What `os.Create` or `os.OpenFile` answered: a fresh handle id, or an error. */
  datatype Creation = Created(id: nat) | Failed

  /** `dir + "/" + prefix + strconv.Itoa(serial)`: a log file's path before its ".log" suffix. */
  function FileStem(dir: string, prefix: string, serial: uint8): (stem: string)
    ensures |stem| == |dir| + 1 + |prefix| + |Itoa(serial)|
    ensures stem[..|dir| + 1] == dir + "/"
    ensures stem[|dir| + 1..|dir| + 1 + |prefix|] == prefix
    ensures AllDigits(stem[|dir| + 1 + |prefix|..])
    ensures Atoi(stem[|dir| + 1 + |prefix|..]) == serial
  {
    var stem := dir + "/" + prefix + Itoa(serial);
    assert stem[|dir| + 1 + |prefix|..] == Itoa(serial);
    AtoiItoa(serial);
    stem
  }

  /** The path `createFile` and `newFile` open: the stem followed by ".log". */
  function LogFilePath(dir: string, prefix: string, serial: uint8): (p: string)
    ensures |p| == |dir| + |prefix| + |Itoa(serial)| + 5
    ensures p[..|dir| + 1] == dir + "/"
    ensures p[|dir| + 1..|dir| + 1 + |prefix|] == prefix
    ensures AllDigits(p[|dir| + 1 + |prefix|..|p| - 4])
    ensures Atoi(p[|dir| + 1 + |prefix|..|p| - 4]) == serial
    ensures p[|p| - 4..] == ".log"
  {
    var stem := FileStem(dir, prefix, serial);
    var p := stem + ".log";
    assert p[|dir| + 1 + |prefix|..|p| - 4] == stem[|dir| + 1 + |prefix|..];
    assert p[|dir| + 1..|dir| + 1 + |prefix|] == stem[|dir| + 1..|dir| + 1 + |prefix|];
    p
  }

  /** Within one directory and prefix, each serial has its own file. */
  lemma LogFilePathInjective(dir: string, prefix: string, a: uint8, b: uint8)
    requires LogFilePath(dir, prefix, a) == LogFilePath(dir, prefix, b)
    ensures a == b
  {
    var pa, pb := LogFilePath(dir, prefix, a), LogFilePath(dir, prefix, b);
    var k := |dir| + 1 + |prefix|;
    assert |Itoa(a)| == |Itoa(b)|;
    assert pa[k..|pa| - 4] == Itoa(a);
    assert pb[k..|pb| - 4] == Itoa(b);
    ItoaInjective(a, b);
  }

  /** The value of a `file`: accumulated size, its configuration and the active handle. */
  datatype FileValue = FileValue(size: uint32, config: Settings, handle: Handle)

  /** True when `checkFileSize(n)` must rotate: the uint32 sum passes the maximum. */
  predicate MustRotate(f: FileValue, n: uint32)
    ensures MustRotate(f, n) ==> f.size + n > f.config.maxSize
    ensures f.size + n < U32_MODULUS ==> (MustRotate(f, n) <==> f.size + n > f.config.maxSize)
  {
    Add32(f.size, n) > f.config.maxSize
  }

  /**
   * `checkFileSize(n)`: the new file value and the answer, where `create` is what
   * creating the next serial's file answered (consulted only when rotating).
   */
  function Reserve(f: FileValue, n: uint32, create: Creation): (r: (FileValue, bool))
    ensures r.0.config.(serialNumber := f.config.serialNumber) == f.config
    ensures !r.1 <==> MustRotate(f, n) && create.Failed?
    ensures !r.1 ==> r.0 == f.(handle := Nil)
    ensures r.1 && MustRotate(f, n) ==> r.0.size == n && r.0.handle.Open?
    ensures !MustRotate(f, n) ==> r.0.handle == f.handle && r.0.config == f.config
  {
    if MustRotate(f, n) then
      var next := Inc8(f.config.serialNumber);
      match create
      case Failed => (f.(handle := Nil), false)
      case Created(id) =>
        (FileValue(n, f.config.(serialNumber := next),
                   Open(id, LogFilePath(f.config.logsPath, f.config.fileName, next))), true)
    else
      (f.(size := Add32(f.size, n)), true)
  }

  /** A message that fits is added to the size; serial and handle stay. */
  lemma ReserveAccumulates(f: FileValue, n: uint32, create: Creation)
    requires f.size + n <= f.config.maxSize
    ensures Reserve(f, n, create) == (f.(size := f.size + n), true)
  {
  }

  /**
   * A message that does not fit (its uint32 sum, wrapped or not, passes the maximum) moves to
   * the next serial's new file, which it starts; below 255 the serial rises by exactly one.
   */
  lemma ReserveRotates(f: FileValue, n: uint32, id: nat)
    requires MustRotate(f, n)
    ensures var next := Inc8(f.config.serialNumber);
      Reserve(f, n, Created(id))
        == (FileValue(n, f.config.(serialNumber := next),
                      Open(id, LogFilePath(f.config.logsPath, f.config.fileName, next))), true)
    ensures f.config.serialNumber < 255 ==>
      Reserve(f, n, Created(id)).0.config.serialNumber == f.config.serialNumber + 1
  {
  }

  /** A failed rotation keeps serial, size and configuration, drops the handle and answers false. */
  lemma ReserveRotationFails(f: FileValue, n: uint32)
    requires MustRotate(f, n)
    ensures Reserve(f, n, Failed) == (f.(handle := Nil), false)
  {
  }

  /**
   * After a true answer the size is within the maximum, except when the message alone
   * exceeds it: then it is the whole content of the fresh file.
   */
  lemma ReserveBound(f: FileValue, n: uint32, create: Creation)
    ensures var (g, ok) := Reserve(f, n, create);
      ok ==> g.size <= f.config.maxSize || (g.size == n && n > f.config.maxSize && g.handle.Open?)
  {
  }

  /** Only the serial can change in the configuration, and only by one step of a successful rotation. */
  lemma ReserveSerialStep(f: FileValue, n: uint32, create: Creation)
    ensures var (g, ok) := Reserve(f, n, create);
      && g.config.(serialNumber := f.config.serialNumber) == f.config
      && (g.config.serialNumber != f.config.serialNumber ==> g.config.serialNumber == Inc8(f.config.serialNumber))
      && (g.config.serialNumber == Inc8(f.config.serialNumber) <==> (MustRotate(f, n) && create.Created?))
  {
  }

  /**
   * After a failed rotation, the next rotation that succeeds opens the file the failed one
   * aimed at: the serial number is reused, not skipped.
   */
  lemma RetryReusesSerial(f: FileValue, n: uint32, m: uint32, id: nat)
    requires MustRotate(f, n)
    requires MustRotate(Reserve(f, n, Failed).0, m)
    ensures Reserve(Reserve(f, n, Failed).0, m, Created(id)).0.handle
         == Open(id, LogFilePath(f.config.logsPath, f.config.fileName, Inc8(f.config.serialNumber)))
  {
  }

  /**
   * When the uint32 sum overflows and the wrapped value is within the maximum,
   * no rotation happens and the accounted size drops below its old value.
   */
  lemma ReserveWrapsAround(f: FileValue, n: uint32, create: Creation)
    requires f.size + n >= U32_MODULUS
    requires f.size + n - U32_MODULUS <= f.config.maxSize
    ensures Reserve(f, n, create) == (f.(size := f.size + n - U32_MODULUS), true)
    ensures Reserve(f, n, create).0.size < f.size
  {
  }

  /**
   * Past serial 255 the serial wraps: the second successful rotation after 255 creates the
   * serial-1 file again, and `os.Create` empties what this writer put there before.
   */
  lemma RotationPastWrapReopensSerialOne(f: FileValue, n: uint32, m: uint32, id1: nat, id2: nat)
    requires f.config.serialNumber == 255
    requires MustRotate(f, n)
    requires MustRotate(Reserve(f, n, Created(id1)).0, m)
    ensures var g := Reserve(f, n, Created(id1)).0;
      && g.config.serialNumber == 0
      && Reserve(g, m, Created(id2)).0.handle
         == Open(id2, LogFilePath(f.config.logsPath, f.config.fileName, 1))
  {
    var g := Reserve(f, n, Created(id1)).0;
    ReserveRotates(f, n, id1);
    ReserveRotates(g, m, id2);
  }

  /** The file value after a run of `checkFileSize` calls with the given creation answers. */
  function ReserveAll(f: FileValue, ns: seq<uint32>, creates: seq<Creation>): FileValue
    requires |creates| == |ns|
    decreases |ns|
  {
    if ns == [] then f else ReserveAll(Reserve(f, ns[0], creates[0]).0, ns[1..], creates[1..])
  }

  function Sum(ns: seq<uint32>): nat {
    if ns == [] then 0 else ns[0] + Sum(ns[1..])
  }

  /**
   * Messages whose total stays within the maximum all land in the active file:
   * the serial, configuration and handle stay, and the size grows by their total.
   */
  lemma {:induction false} FitsInOneFile(f: FileValue, ns: seq<uint32>, creates: seq<Creation>)
    requires |creates| == |ns|
    requires f.size + Sum(ns) <= f.config.maxSize
    ensures ReserveAll(f, ns, creates) == f.(size := f.size + Sum(ns))
    decreases |ns|
  {
    if ns != [] {
      var g := Reserve(f, ns[0], creates[0]).0;
      ReserveAccumulates(f, ns[0], creates[0]);
      FitsInOneFile(g, ns[1..], creates[1..]);
    }
  }

  /** With a 100-byte maximum, two 40-byte messages share serial 1 and a third opens serial 2. */
  lemma ThreeMessagesExample(dir: string, h: Handle, id: nat)
    ensures var f0 := FileValue(0, Settings(1, 100, 0, "storage", dir), h);
      var f2 := ReserveAll(f0, [40, 40], [Failed, Failed]);
      var (f3, ok) := Reserve(f2, 40, Created(id));
      && f2 == f0.(size := 80)
      && ok && f3.size == 40 && f3.config.serialNumber == 2
      && f3.handle == Open(id, dir + "/storage2.log")
  {
  }

  /** The `file` object: its size and handle, and the shared `Config` it points to. */
  class File {
    var size: uint32
    var config: Config
    var osFile: Handle

    function Value(): FileValue
      reads this, config
    {
      FileValue(size, config.Value(), osFile)
    }

    constructor (size: uint32, config: Config, osFile: Handle)
      ensures this.size == size && this.config == config && this.osFile == osFile
    {
      this.size := size;
      this.config := config;
      this.osFile := osFile;
    }

    /**
     * `checkFileSize(n)`: grows the size, or bumps the serial and creates its file,
     * rolling the serial back when creation fails.
     */
    method CheckFileSize(n: uint32, create: Creation) returns (ok: bool)
      modifies this, config
      ensures config == old(config)
      ensures (Value(), ok) == Reserve(old(Value()), n, create)
    {
      if Add32(size, n) > config.maxSize {
        config.serialNumber := Inc8(config.serialNumber);
        var fileName := FileStem(config.logsPath, config.fileName, config.serialNumber);
        osFile := match create
          case Created(id) => Open(id, fileName + ".log")
          case Failed => Nil;
        if create.Failed? {
          DecUndoesInc(old(config.serialNumber));
          config.serialNumber := Dec8(config.serialNumber);
          return false;
        }
        size := n;
        return true;
      }
      size := Add32(size, n);
      return true;
    }
  }

  /**
   * `newFile(size, c)`: opens the configured serial's file for appending, or creates it
   * when opening fails; `open` and `create` are what the OS answered.
   */
  method NewFile(size: uint32, c: Config, open: Creation, create: Creation) returns (f: File?)
    ensures var path := LogFilePath(c.logsPath, c.fileName, c.serialNumber);
      match (open, create)
      case (Created(id), _) =>
        f != null && fresh(f) && f.config == c && f.Value() == FileValue(size, c.Value(), Open(id, path))
      case (Failed, Created(id)) =>
        f != null && fresh(f) && f.config == c && f.Value() == FileValue(size, c.Value(), Open(id, path))
      case (Failed, Failed) => f == null
  {
    var fileName := FileStem(c.logsPath, c.fileName, c.serialNumber);
    var handle: Handle;
    match open {
      case Created(id) =>
        handle := Open(id, fileName + ".log");
      case Failed =>
        match create {
          case Failed =>
            return null;
          case Created(id) =>
            handle := Open(id, fileName + ".log");
        }
    }
    f := new File(size, c, handle);
  }
}
