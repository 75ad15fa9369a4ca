/** Reconstructing the rotation state from an existing log directory (`checkDirectory`). */
module Directory {
  import opened GoInt
  import opened Strings
  import opened Decimal
  import opened LogConfig

  /** One directory entry: its name and the size in bytes `os.Stat` reports. */
  datatype Entry = Entry(name: string, size: nat)

  /** What `os.ReadDir` answered: an error, or the entries sorted by name. */
  datatype Listing = Unreadable | Listed(entries: seq<Entry>)

  /** How many entries have a name containing `fileName`. */
  function Matches(entries: seq<Entry>, fileName: string): (k: nat)
    ensures k <= |entries|
  {
    if entries == [] then 0
    else Matches(entries[..|entries| - 1], fileName)
         + (if Contains(entries[|entries| - 1].name, fileName) then 1 else 0)
  }

  /** When every name contains `fileName` all entries are counted; when none does, none is. */
  lemma {:induction false} MatchesAllOrNone(entries: seq<Entry>, fileName: string)
    ensures (forall i :: 0 <= i < |entries| ==> Contains(entries[i].name, fileName)) ==> Matches(entries, fileName) == |entries|
    ensures (forall i :: 0 <= i < |entries| ==> !Contains(entries[i].name, fileName)) ==> Matches(entries, fileName) == 0
    decreases |entries|
  {
    if entries != [] {
      var init := entries[..|entries| - 1];
      assert forall i :: 0 <= i < |init| ==> init[i] == entries[i];
      MatchesAllOrNone(init, fileName);
    }
  }

  /**
   * The `(serial, size)` a scan yields: 1 plus the number of matching names, less one when
   * the LAST entry (matching or not) is below `maxSize`, all in uint8; and the last entry's size,
   * cut to uint32 as `uint32(f.Size())` does.
   */
  function Scan(listing: Listing, fileName: string, maxSize: uint32): (r: (uint8, uint32))
    ensures listing.Unreadable? || listing.entries == [] ==> r == (1, 0)
    ensures listing.Listed? && listing.entries != [] ==>
      r.1 == TruncTo32(listing.entries[|listing.entries| - 1].size)
      && (r.1 >= maxSize ==> r.0 == (Matches(listing.entries, fileName) + 1) % U8_MODULUS)
      && (r.1 < maxSize ==> r.0 == Matches(listing.entries, fileName) % U8_MODULUS)
  {
    match listing
    case Unreadable => (1, 0)
    case Listed(es) =>
      if es == [] then (1, 0)
      else
        var size := TruncTo32(es[|es| - 1].size);
        ((1 + Matches(es, fileName) - (if size < maxSize then 1 else 0)) % U8_MODULUS, size)
  }

  /** `checkDirectory(dir)`: reads the package globals `FileName` and `MaxSize`, not a `Config`. */
  method CheckDirectory(listing: Listing) returns (serialNumber: uint8, size: uint32)
    ensures (serialNumber, size) == Scan(listing, DefaultFileName, DefaultMaxSize)
  {
    serialNumber := 1;
    size := 0;
    if listing.Unreadable? {
      return;
    }
    var fileList := listing.entries;
    for k := 0 to |fileList|
      invariant k < |fileList| ==>
        serialNumber == (1 + Matches(fileList[..k], DefaultFileName)) % U8_MODULUS && size == 0
      invariant k == |fileList| ==>
        (serialNumber, size) == Scan(Listed(fileList[..k]), DefaultFileName, DefaultMaxSize)
    {
      assert fileList[..k + 1][..k] == fileList[..k];
      if Contains(fileList[k].name, DefaultFileName) {
        IncOfMod(1 + Matches(fileList[..k], DefaultFileName));
        serialNumber := Inc8(serialNumber);
      }
      if k == |fileList| - 1 {
        size := TruncTo32(fileList[k].size);
        if size < DefaultMaxSize {
          DecOfMod(Matches(fileList[..k + 1], DefaultFileName));
          serialNumber := Dec8(serialNumber);
        }
      }
    }
    assert fileList[..|fileList|] == fileList;
  }

  /** A directory that cannot be read, or holds nothing, starts afresh at serial 1 and size 0. */
  lemma ScanFresh(listing: Listing, fileName: string, maxSize: uint32)
    requires listing.Unreadable? || listing.entries == []
    ensures Scan(listing, fileName, maxSize) == (1, 0)
  {
  }

  /**
   * When the last entry is a partly filled file of this writer and fewer than 256 entries match,
   * the scan resumes it: the serial is the number of matching names, the size its size.
   */
  lemma ScanResumesLastFile(es: seq<Entry>, fileName: string, maxSize: uint32)
    requires es != [] && Contains(es[|es| - 1].name, fileName)
    requires TruncTo32(es[|es| - 1].size) < maxSize
    requires Matches(es, fileName) < 256
    ensures Scan(Listed(es), fileName, maxSize) == (Matches(es, fileName), TruncTo32(es[|es| - 1].size))
    ensures Matches(es, fileName) >= 1
  {
  }

  /**
   * When the last entry is full, the scan moves past it but still reports that file's size
   * (not 0), so the first write after a restart rotates again.
   */
  lemma ScanKeepsFullFileSize(es: seq<Entry>, fileName: string, maxSize: uint32)
    requires es != [] && TruncTo32(es[|es| - 1].size) >= maxSize
    requires Matches(es, fileName) < 255
    ensures Scan(Listed(es), fileName, maxSize) == (Matches(es, fileName) + 1, TruncTo32(es[|es| - 1].size))
  {
  }

  /**
   * In a directory holding only files whose names contain the prefix, the serial is the number
   * of files, plus one when the last is full.
   */
  lemma ScanOfPrefixedFilesOnly(es: seq<Entry>, fileName: string, maxSize: uint32)
    requires es != []
    requires forall i :: 0 <= i < |es| ==> Contains(es[i].name, fileName)
    ensures Scan(Listed(es), fileName, maxSize).0
         == (|es| + (if TruncTo32(es[|es| - 1].size) >= maxSize then 1 else 0)) % U8_MODULUS
  {
    MatchesAllOrNone(es, fileName);
  }

  /**
   * A file the writer names with the package's `FileName` is counted by the scan: appending
   * it to a listing raises the match count by one.
   */
  lemma ScanCountsWriterFile(es: seq<Entry>, serial: uint8, size: nat)
    ensures Matches(es + [Entry(DefaultFileName + Itoa(serial) + ".log", size)], DefaultFileName)
         == Matches(es, DefaultFileName) + 1
  {
    var name := DefaultFileName + Itoa(serial) + ".log";
    assert name == DefaultFileName + (Itoa(serial) + ".log");
    ContainsOwnPrefix(DefaultFileName, Itoa(serial) + ".log");
    assert (es + [Entry(name, size)])[..|es|] == es;
  }

  /**
   * The scan looks for the package's `FileName`, not the writer's configured prefix:
   * a file `app1.log` written under the prefix "app" is not counted.
   */
  lemma CustomPrefixFileNotCounted(size: nat)
    ensures Matches([Entry("app1.log", size)], DefaultFileName) == 0
  {
    var name := "app1.log";
    assert name[..7][0] == 'a' && name[1..][..7][0] == 'p';
    assert !Contains(name[1..][1..], DefaultFileName);
    assert !Contains(name, DefaultFileName);
  }

  /**
   * A previous run under the prefix "app" left `app1.log`, `app2.log` and the diagnostic
   * `logs.log`: the scan counts none of the app files and gives serial 0, so the next
   * rotation re-creates `app1.log`.
   */
  lemma CustomPrefixRestartGivesSerialZero()
    ensures Scan(Listed([Entry("app1.log", 50), Entry("app2.log", 50), Entry("logs.log", 10)]),
                 DefaultFileName, DefaultMaxSize) == (0, 10)
  {
    var es := [Entry("app1.log", 50), Entry("app2.log", 50), Entry("logs.log", 10)];
    var a1, a2, lg := "app1.log", "app2.log", "logs.log";
    assert a1[..7][0] == 'a' && a1[1..][..7][0] == 'p' && !Contains(a1[1..][1..], DefaultFileName);
    assert a2[..7][0] == 'a' && a2[1..][..7][0] == 'p' && !Contains(a2[1..][1..], DefaultFileName);
    assert lg[..7][0] == 'l' && lg[1..][..7][0] == 'o' && !Contains(lg[1..][1..], DefaultFileName);
    assert !Contains(a1, DefaultFileName) && !Contains(a2, DefaultFileName) && !Contains(lg, DefaultFileName);
    assert forall i :: 0 <= i < |es| ==> !Contains(es[i].name, DefaultFileName);
    MatchesAllOrNone(es, DefaultFileName);
  }

  /** A directory holding only a full `storage1.log` gives serial 2 and size 100 when the maximum is 100. */
  lemma FullFileExample()
    ensures Scan(Listed([Entry("storage1.log", 100)]), "storage", 100) == (2, 100)
  {
  }

  /**
   * The last entry's size counts even when its name does not match: a directory holding only
   * the diagnostic file `logs.log` gives serial 0.
   */
  lemma DiagnosticFileOnlyGivesSerialZero(d: uint32)
    requires d < DefaultMaxSize
    ensures Scan(Listed([Entry("logs.log", d)]), DefaultFileName, DefaultMaxSize) == (0, d)
  {
    var es := [Entry("logs.log", d)];
    assert es[..0] == [];
    var name := "logs.log";
    assert name[..7][0] == 'l' && name[1..][..7][0] == 'o';
    assert !Contains(name[1..][1..], DefaultFileName);
    assert !Contains(name, DefaultFileName);
  }
}
