# Rolling log writer: rotation and size accounting

A Dafny model of the core of `golang-logs`, a small Go package. The package appends levelled
text lines to `<dir>/<prefix><serial>.log` and moves to the next serial once the active file
would pass a maximum size. The model covers:

- the per-write rotation decision `checkFileSize`, over the file's `size`, the shared
  `Config.SerialNumber` and the active `osFile`;
- the directory scan `checkDirectory` that rebuilds `(serial, size)` on start-up;
- `newFile`, the file-name composition `dir + "/" + prefix + strconv.Itoa(serial) + ".log"`,
  and `strconv.Itoa` for the serial;
- `logFormat` and the six level tags;
- the bookkeeping of `(*logs).output`;
- `(*Config).verify`, which fills in defaults in place.

Go's `uint8` and `uint32` are subset types of `int`. Their wrap-around is written out in
module `GoInt`: `Add32` for `f.size+n`, `Inc8`/`Dec8` for `SerialNumber++`/`--`, and
`TruncTo32` for `uint32(len(...))`. The operating system is an oracle:

- `Creation` is what `os.Create`/`os.OpenFile` answered: a fresh handle id, or an error.
- `Listing` is what `os.ReadDir` answered: an error, or the entries sorted by name, each with
  its `os.Stat` size in bytes. The scan cuts that size to uint32 itself, as
  `uint32(f.Size())` does.
- Clock readings are string parameters.
- `Logs.appended` records every append to a rotated log file, in order. Appends to the
  diagnostic file `logs.log` are not recorded.

Go strings are byte strings. Here they are `string`, with one `char` per byte.

Modules and files:

- `go_int.dfy` (`GoInt`): Go integer widths and wrap-around.
- `decimal.dfy` (`Decimal`): `strconv.Itoa` and the reading that inverts it.
- `strings.dfy` (`Strings`): `strings.Contains`.
- `wrappers.dfy` (`Wrappers`): `Option`.
- `format.dfy` (`Format`): the level tags and `logFormat`.
- `config.dfy` (`LogConfig`): `Config` and `verify`.
- `rotation.dfy` (`Rotation`): the `file` struct, `checkFileSize` and `newFile`.
- `directory.dfy` (`Directory`): `checkDirectory`.
- `logger.dfy` (`Logger`): the `logs` struct and `output`.

Imperative code stays imperative:

- `verify`, `checkFileSize` and `output` are class methods that update fields in place.
  Each is proved equal to a specification function of the old state: `WithDefaults`,
  `Reserve` and `OutputEffect`.
- `checkDirectory` is a loop, proved against the closed form `Scan`.
- The lemmas state the properties of those functions.

Where the code's behaviour is surprising, the model follows the code:

- `checkDirectory` takes the size of the last directory entry, whether or not its name
  contains the prefix. When that file is full, it still returns the file's size, not 0
  (`ScanKeepsFullFileSize`, `FullFileExample`). A directory holding only the diagnostic file
  `logs.log` therefore yields serial 0 (`DiagnosticFileOnlyGivesSerialZero`). Entries are
  ordered by name, so `storage10.log` sorts before `storage9.log`.
- The scan counts names containing the package's `FileName`, not the prefix configured in
  `Config`. A writer configured with another prefix, such as "app", writes `app1.log`, and
  the scan does not count it (`CustomPrefixFileNotCounted`).
- A rotation can land on a file name that already exists, and `os.Create` then empties that
  file. This happens in two ways. First, the serial is a `uint8`: after serial 255 the writer
  opens `<prefix>0.log` and then re-creates `<prefix>1.log` (`RotationPastWrapReopensSerialOne`).
  Second, under a custom prefix the scan finds no matching names: a restart over `app1.log`,
  `app2.log` and a small `logs.log` gives serial 0, so the next rotations re-create `app1.log`
  and `app2.log` (`CustomPrefixRestartGivesSerialZero`).
- A failed rotation is not free of side effects. `osFile` is overwritten with the nil handle
  that the failed `os.Create` returned. A later line that fits then passes the size check
  and is written to the nil handle, so it reaches no file (`FailedRotationLeavesNilTarget`).
- The sum `f.size+n` is a `uint32`. If it overflows and the wrapped value is within the
  maximum, no rotation happens and the accounted size falls (`ReserveWrapsAround`). When the
  wrapped value still passes the maximum, the code rotates as usual (`ReserveRotates`,
  `ReserveRotationFails`).
- `output` reads the clock twice: once to measure the line and once to write it. The bytes
  accounted equal the bytes written only when both readings have the same width
  (`OutputAccountsWrittenBytes`).
- `output` returns `errors.New(str)` on every path, including success (`Logs.Output`).

## Model

| member | source | states |
|---|---|---|
| GoInt.Add32 | logs/logs.go:152 | the uint32 sum equals the true sum below 2^32 and wraps by exactly 2^32 above it |
| GoInt.Inc8 | logs/logs.go:153 | `SerialNumber++` adds one below 255 and wraps 255 to 0 |
| GoInt.Dec8 | logs/logs.go:157 | `SerialNumber--` subtracts one above 0 and wraps 0 to 255 |
| GoInt.TruncTo32 | logs/logs.go:107 | `uint32(len)` keeps lengths below 2^32 and never grows a length |
| GoInt.DecUndoesInc | logs/logs.go:153-157 | the rollback after a failed create restores the serial exactly, 255 included |
| Decimal.Itoa | logs/logs.go:154 | the serial prints as at least one decimal digit, with no zero padding, in one digit exactly below 10 |
| Decimal.AtoiItoa | logs/logs.go:154 | reading the printed serial back gives the serial |
| Decimal.ItoaInjective | logs/logs.go:154 | two serials that print alike are equal |
| Decimal.ItoaOfByte | logs/logs.go:127 | a uint8 serial prints in one to three digits |
| Strings.Contains | logs/logs.go:187 | a name contains a prefix only when it is at least as long; every name contains the empty string |
| Strings.ContainsIffOccurs | logs/logs.go:187 | `strings.Contains` holds exactly when the prefix occurs at some index of the name |
| Strings.ContainsOwnPrefix | logs/logs.go:187 | a name that starts with the prefix contains it |
| Format.Tag | logs/logs.go:14-19 | each level tag is 8 bytes: a space, `[`, and a closing `]` or pad space |
| Format.LevelOfTag | logs/logs.go:14-19 | every tag reads back as its own level, so tags are pairwise distinct |
| Format.LogFormat | logs/logs.go:240-244 | the line starts with the timestamp, ends with a newline and is two bytes longer than timestamp, tag and message together |
| Format.ParseFormat | logs/logs.go:240-244 | parsing a formatted line returns the timestamp, level and message it was built from |
| Format.LineLength | logs/logs.go:241-242 | with a 26-byte timestamp and a level tag, a line is 36 bytes longer than its message |
| Format.LengthIgnoresClock | logs/logs.go:107-118 | two clock readings of equal width give lines of equal length |
| LogConfig.WithDefaults | logs/config.go:11-21 | after defaulting, serial, maximum and file name are set; fields already set are kept; `Size` and `LogsPath` never change |
| LogConfig.WithDefaultsUsesPackageDefaults | logs/config.go:12-20 | a zero or empty field receives 1, 100·2^20 or "storage" |
| LogConfig.WithDefaultsIdempotent | logs/config.go:11-21 | defaulting twice equals defaulting once |
| LogConfig.WithDefaultsFixesComplete | logs/config.go:11-21 | a configuration with every defaultable field set is unchanged |
| LogConfig.Config.constructor | logs/config.go:3-9 | the record holds exactly the five given field values |
| LogConfig.Config.Verify | logs/config.go:11-21 | updates the record in place to exactly the defaulted value of its old contents |
| Rotation.FileStem | logs/logs.go:154 | the stem is `dir/`, then the prefix, then digits that read back as the serial, with the length of its parts |
| Rotation.LogFilePath | logs/logs.go:233 | the path is `dir/`, then the prefix, then digits that read back as the serial, then `.log`, with the length of its parts |
| Rotation.LogFilePathInjective | logs/logs.go:154 | in one directory and prefix, distinct serials name distinct files |
| Rotation.MustRotate | logs/logs.go:152 | rotating implies the true sum passes the maximum; below 2^32 it holds exactly when the sum passes it |
| Rotation.Reserve | logs/logs.go:149-167 | only the serial can change in the configuration; the answer is false exactly when a needed create fails, and then only the handle changes, to nil; a successful rotation leaves the message as the whole size under an open handle; without rotation, handle and configuration stay |
| Rotation.ReserveAccumulates | logs/logs.go:165-166 | a message that fits adds its length to the size, keeps serial and handle, and answers true |
| Rotation.ReserveRotates | logs/logs.go:152-162 | a message whose uint32 sum, wrapped or not, passes the maximum, with a successful create, advances the serial one uint8 step (exactly one below 255), opens `dir/<prefix><next serial>.log`, makes the message the whole size and answers true |
| Rotation.ReserveRotationFails | logs/logs.go:152-159 | whenever rotation is needed, a failed create keeps serial, size and configuration, sets the handle to nil and answers false |
| Rotation.ReserveBound | logs/logs.go:152-166 | after a true answer the size is within the maximum, or it is one oversized message alone in a new file |
| Rotation.ReserveSerialStep | logs/logs.go:152-162 | only the serial changes in the configuration, by one uint8 step, and exactly when a needed rotation succeeds |
| Rotation.RetryReusesSerial | logs/logs.go:153-157 | after a failed rotation, the next successful one opens the file the failed one aimed at |
| Rotation.ReserveWrapsAround | logs/logs.go:152 | an overflowing uint32 sum within the maximum skips rotation: the size becomes size + n − 2^32, below the old size, handle and configuration stay, and the answer is true |
| Rotation.RotationPastWrapReopensSerialOne | logs/logs.go:152-162 | from serial 255, one rotation gives serial 0 and the next re-creates `dir/<prefix>1.log` |
| Rotation.FitsInOneFile | logs/logs.go:149-167 | messages whose total stays within the maximum all go to the active file, whose size grows by their total |
| Rotation.ThreeMessagesExample | logs/logs.go:149-167 | with maximum 100, two 40-byte messages reach size 80 in serial 1 and a third opens `storage2.log` at size 40 |
| Rotation.File.constructor | logs/logs.go:136-141 | the `file` holds the given size, configuration and handle |
| Rotation.File.CheckFileSize | logs/logs.go:149-167 | updates size, serial and handle in place to exactly the outcome of `Reserve`, rolling back the serial on a failed create |
| Rotation.NewFile | logs/logs.go:125-142 | opens the configured serial's `.log` file, creating it when opening fails, in a new `file` that shares the caller's `Config` object; gives nil when both fail |
| Directory.Matches | logs/logs.go:185-189 | the count of matching names is at most the number of entries |
| Directory.MatchesAllOrNone | logs/logs.go:185-189 | when every name contains the prefix every entry is counted; when none does, none is |
| Directory.Scan | logs/logs.go:174-199 | an unreadable or empty listing gives (1, 0); otherwise the size is the last entry's size cut to uint32, and the serial is the match count, plus one when that size reaches the maximum, in uint8 |
| Directory.CheckDirectory | logs/logs.go:173-200 | the loop returns exactly the closed-form scan over the package's `FileName` and `MaxSize` |
| Directory.ScanFresh | logs/logs.go:174-184 | an unreadable or empty directory gives serial 1 and size 0 |
| Directory.ScanResumesLastFile | logs/logs.go:185-198 | a partly filled last file of the writer is resumed: the serial is the number of matching names, the size is its size cut to uint32 |
| Directory.ScanKeepsFullFileSize | logs/logs.go:191-196 | a full last file moves the serial one past the match count but keeps that file's size |
| Directory.ScanOfPrefixedFilesOnly | logs/logs.go:185-198 | in a directory of prefixed files only, the serial is the number of files, plus one when the last is full |
| Directory.ScanCountsWriterFile | logs/logs.go:187 | a file named with the package's `FileName` and a serial adds one to the scan's count |
| Directory.CustomPrefixFileNotCounted | logs/logs.go:187 | a file `app1.log` written under another prefix is not counted |
| Directory.CustomPrefixRestartGivesSerialZero | logs/logs.go:185-198 | a directory of `app1.log`, `app2.log` and a small `logs.log` scans to serial 0 and that last file's size |
| Directory.FullFileExample | logs/logs.go:185-198 | a lone full `storage1.log` at maximum 100 gives serial 2 and size 100 |
| Directory.DiagnosticFileOnlyGivesSerialZero | logs/logs.go:185-198 | a directory holding only a small `logs.log` gives serial 0 |
| Logger.LineSize | logs/logs.go:107 | the accounted size is timestamp, tag and message lengths plus two, for lines below 4 GiB |
| Logger.OutputEffect | logs/logs.go:106-114 | at most one newline-terminated line is appended, to the handle left active; when nothing is appended, that handle is nil |
| Logger.OutputAppendsOnlyOnSuccess | logs/logs.go:106-114 | `output` appends one newline-terminated line to the active handle exactly when the reservation succeeds, and nothing after a failed rotation |
| Logger.OutputAccountsWrittenBytes | logs/logs.go:107-118 | with clock readings of one width and a fitting line, the size grows by exactly the bytes appended, and the line parses back to its level and message |
| Logger.FailedRotationLeavesNilTarget | logs/logs.go:152-166 | after any failed rotation, the uint32 sum wrapped or not, the next fitting line is handed to the nil handle |
| Logger.Logs.constructor | logs/logs.go:67-71 | the writer holds the given path, diagnostic handle and file, with nothing appended yet |
| Logger.Logs.Output | logs/logs.go:106-114 | updates file state and appends as `OutputEffect` says, and always returns an error carrying the message |

## Left out

- Locking: `sync.Mutex` in `output` serialises callers. The model is one sequential call.
- Diagnostics: every write to the package's `logs.log` is left out, including `createFile`'s
  "create … success" line and the error reports. These writes are best effort and change no
  rotation state.
- Formatting: `fmt.Fprintf` treats the line as a format string, so a `%` in a message changes
  the bytes written. The model records the line verbatim. A failed write, and a write to a
  nil handle (which writes nothing), are recorded as the attempted append.
- `NewLogs`: this wiring is not modelled. It runs `verify` and then overwrites `SerialNumber`
  with the scan result, so a scan result of 0 survives defaulting.
- The `Debug`/`Info`/`Warn`/`Error` wrappers: they only pass the level tag through to `output`.
- `createDir`: not modelled. It only chooses between `os.Mkdir` and `os.MkdirAll`, and its
  result affects nothing but a diagnostic.
- `os.Stat` failing inside `checkDirectory` dereferences a nil result in Go. Here each listed
  entry comes with its size.
- `time.Now().Format`: the timestamp is a parameter.
- Package variables: `FileName`, `MaxSize`, `SerialNumber` and the level tags `LOGS`, `DEBUG`,
  `INFO`, `WARN`, `ERROR` and `PANIC` are exported and mutable in Go. Here they are constants
  at their initial values (`Format.Tag` fixes the tags).
- File contents: the model does not track what each file holds. `os.Create`
  (logs/logs.go:233) empties a file that already exists, so reusing a serial's name discards
  that file's earlier lines. Setting the size to the message alone after a rotation is right
  only because of that truncation.
- Handle lifetime: superseded handles are never closed in the source. The model does not
  track open or closed handles.
