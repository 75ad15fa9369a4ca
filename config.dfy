/** The writer's configuration record and its defaulting (`Config.verify`). */
module LogConfig {
  import opened GoInt

  /** The package-level defaults: `SerialNumber`, `MaxSize` (100 MiB) and `FileName`. */
  const DefaultSerialNumber: uint8 := 1
  const DefaultMaxSize: uint32 := 100 * 0x10_0000
  const DefaultFileName: string := "storage"

  /** The value of a `Config`: its five fields at one moment. */
  datatype Settings = Settings(
    serialNumber: uint8,
    maxSize: uint32,
    size: uint32,
    fileName: string,
    logsPath: string)

  /** What `verify` leaves in a configuration: every zero or empty default-able field filled in. */
  function WithDefaults(c: Settings): (r: Settings)
    ensures r.serialNumber != 0 && r.maxSize != 0 && r.fileName != ""
    ensures c.serialNumber != 0 ==> r.serialNumber == c.serialNumber
    ensures c.maxSize != 0 ==> r.maxSize == c.maxSize
    ensures c.fileName != "" ==> r.fileName == c.fileName
    ensures r.size == c.size && r.logsPath == c.logsPath
  {
    Settings(
      if c.serialNumber == 0 then DefaultSerialNumber else c.serialNumber,
      if c.maxSize == 0 then DefaultMaxSize else c.maxSize,
      c.size,
      if c.fileName == "" then DefaultFileName else c.fileName,
      c.logsPath)
  }

  /** A field that was zero or empty receives exactly the package default. */
  lemma WithDefaultsUsesPackageDefaults(c: Settings)
    ensures c.serialNumber == 0 ==> WithDefaults(c).serialNumber == DefaultSerialNumber
    ensures c.maxSize == 0 ==> WithDefaults(c).maxSize == 100 * 1024 * 1024
    ensures c.fileName == "" ==> WithDefaults(c).fileName == "storage"
  {
  }

  /** Defaulting twice is the same as defaulting once. */
  lemma WithDefaultsIdempotent(c: Settings)
    ensures WithDefaults(WithDefaults(c)) == WithDefaults(c)
  {
  }

  /** A configuration that already has every field set is left as it is. */
  lemma WithDefaultsFixesComplete(c: Settings)
    requires c.serialNumber != 0 && c.maxSize != 0 && c.fileName != ""
    ensures WithDefaults(c) == c
  {
  }

  /** `Config`: shared by reference between the writer and its file, so a class whose fields are updated in place. */
  class Config {
    var serialNumber: uint8
    var maxSize: uint32
    var size: uint32
    var fileName: string
    var logsPath: string

    function Value(): Settings
      reads this
    {
      Settings(serialNumber, maxSize, size, fileName, logsPath)
    }

    constructor (c: Settings)
      ensures Value() == c
    {
      serialNumber := c.serialNumber;
      maxSize := c.maxSize;
      size := c.size;
      fileName := c.fileName;
      logsPath := c.logsPath;
    }

    /** `(*Config).verify`: fills in each zero or empty field from the package defaults. */
    method Verify()
      modifies this
      ensures Value() == WithDefaults(old(Value()))
    {
      if serialNumber == 0 {
        serialNumber := DefaultSerialNumber;
      }
      if maxSize == 0 {
        maxSize := DefaultMaxSize;
      }
      if fileName == "" {
        fileName := DefaultFileName;
      }
    }
  }
}
