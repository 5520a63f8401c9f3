/**
 * Looking a command name up on the search path. The environment variable and
 * the filesystem are values: `PATH` is an optional string and the filesystem
 * says, for each directory, what iterating `read_dir` over it yields.
 */
module SearchPath {
  import opened Wrappers
  import opened Text

  /** One item of a `read_dir` iteration: an entry's file name, or an I/O error. */
  datatype DirEntry = Named(name: string) | Broken

  /** A directory's entries in enumeration order, or a `read_dir` that fails. */
  datatype Listing = Entries(entries: seq<DirEntry>) | Unreadable

  /** The directories the shell can list, and the literal paths that exist. */
  datatype FileSystem = FileSystem(listings: map<string, Listing>, existing: set<string>)

  /** The I/O failures that abort a scan, and with it the shell. */
  datatype IoError = ReadDirFailed(dir: string) | EntryFailed(dir: string)

  /** The outcome of scanning one directory. */
  datatype DirScan = DirHit | DirMiss | DirFailed(err: IoError)

  /** The outcome of scanning the whole search path: the first directory holding the name. */
  datatype Lookup = Hit(dir: string) | Miss | Failed(err: IoError)

  const PATH_SEPARATOR: char := ':'

  /** `fs::read_dir(dir)`; a directory the filesystem does not list cannot be read. */
  function ReadDir(fs: FileSystem, dir: string): Listing
  {
    if dir in fs.listings then fs.listings[dir] else Unreadable
  }

  /** An entry the scan steps over: readable, and named otherwise than `cmd`. */
  predicate Passes(e: DirEntry, cmd: string)
  {
    e.Named? && e.name != cmd
  }

  /** The entries of one directory in order, stopping at the first error or the first match. */
  function ScanEntries(dir: string, es: seq<DirEntry>, cmd: string): DirScan
  {
    if es == [] then DirMiss
    else
      match es[0]
      case Broken => DirFailed(EntryFailed(dir))
      case Named(name) => if name == cmd then DirHit else ScanEntries(dir, es[1..], cmd)
  }

  function ScanDir(fs: FileSystem, dir: string, cmd: string): DirScan
  {
    match ReadDir(fs, dir)
    case Unreadable => DirFailed(ReadDirFailed(dir))
    case Entries(es) => ScanEntries(dir, es, cmd)
  }

  /** The directories in order, stopping at the first that fails or holds `cmd`. */
  function FirstMatch(fs: FileSystem, dirs: seq<string>, cmd: string): Lookup
  {
    if dirs == [] then Miss
    else
      match ScanDir(fs, dirs[0], cmd)
      case DirHit => Hit(dirs[0])
      case DirFailed(e) => Failed(e)
      case DirMiss => FirstMatch(fs, dirs[1..], cmd)
  }

  /** The lookup as the shell does it: no `PATH` finds nothing, otherwise scan its pieces. */
  function Locate(fs: FileSystem, pathVar: Option<string>, cmd: string): Lookup
  {
    match pathVar
    case None => Miss
    case Some(p) => FirstMatch(fs, Split(p, PATH_SEPARATOR), cmd)
  }

  /**
   * The scan of `PATH` done in place, as two nested loops that stop at the
   * first match or the first I/O error.
   */
  method ScanPath(fs: FileSystem, pathVar: Option<string>, cmd: string) returns (r: Lookup)
    ensures r == Locate(fs, pathVar, cmd)
  {
    if pathVar.None? {
      return Miss;
    }
    var dirs := Split(pathVar.value, PATH_SEPARATOR);
    var found: Option<string> := None;
    var i := 0;
    label outer:
    while i < |dirs|
      invariant 0 <= i <= |dirs|
      invariant found == None
      invariant FirstMatch(fs, dirs[i..], cmd) == FirstMatch(fs, dirs, cmd)
    {
      var dir := dirs[i];
      assert dirs[i..][1..] == dirs[i + 1..];
      var listing := ReadDir(fs, dir);
      if listing.Unreadable? {
        return Failed(ReadDirFailed(dir));
      }
      var entries := listing.entries;
      var j := 0;
      while j < |entries|
        invariant 0 <= j <= |entries|
        invariant found == None
        invariant ScanEntries(dir, entries[j..], cmd) == ScanEntries(dir, entries, cmd)
      {
        assert entries[j..][1..] == entries[j + 1..];
        var entry := entries[j];
        if entry.Broken? {
          return Failed(EntryFailed(dir));
        }
        if entry.name == cmd {
          found := Some(dir);
          break outer;
        }
        j := j + 1;
      }
      i := i + 1;
    }
    match found
    case Some(dir) => r := Hit(dir);
    case None => r := Miss;
  }

  /** A directory yields nothing exactly when every entry is readable and named otherwise. */
  lemma {:induction false} ScanEntriesMiss(dir: string, es: seq<DirEntry>, cmd: string)
    ensures ScanEntries(dir, es, cmd) == DirMiss <==> forall i :: 0 <= i < |es| ==> Passes(es[i], cmd)
  {
    if es != [] {
      ScanEntriesMiss(dir, es[1..], cmd);
      assert forall i :: 1 <= i < |es| ==> es[1..][i - 1] == es[i];
    }
  }

  /** The first entry that does not pass decides the directory: a match, or an error. */
  lemma {:induction false} ScanEntriesStops(dir: string, es: seq<DirEntry>, cmd: string, j: nat)
    requires j < |es| && !Passes(es[j], cmd)
    requires forall i :: 0 <= i < j ==> Passes(es[i], cmd)
    ensures ScanEntries(dir, es, cmd) == if es[j] == Named(cmd) then DirHit else DirFailed(EntryFailed(dir))
  {
    if j > 0 {
      assert Passes(es[0], cmd);
      ScanEntriesStops(dir, es[1..], cmd, j - 1);
    }
  }

  /** The search finds nothing exactly when every directory on it yields nothing. */
  lemma {:induction false} FirstMatchMiss(fs: FileSystem, dirs: seq<string>, cmd: string)
    ensures FirstMatch(fs, dirs, cmd) == Miss <==> forall k :: 0 <= k < |dirs| ==> ScanDir(fs, dirs[k], cmd) == DirMiss
  {
    if dirs != [] {
      FirstMatchMiss(fs, dirs[1..], cmd);
      assert forall k :: 1 <= k < |dirs| ==> dirs[1..][k - 1] == dirs[k];
    }
  }

  /** The first directory that yields something decides the search. */
  lemma {:induction false} FirstMatchStops(fs: FileSystem, dirs: seq<string>, cmd: string, k: nat)
    requires k < |dirs| && ScanDir(fs, dirs[k], cmd) != DirMiss
    requires forall i :: 0 <= i < k ==> ScanDir(fs, dirs[i], cmd) == DirMiss
    ensures FirstMatch(fs, dirs, cmd) ==
              match ScanDir(fs, dirs[k], cmd)
              case DirHit => Hit(dirs[k])
              case DirFailed(e) => Failed(e)
              case DirMiss => Miss
  {
    if k > 0 {
      assert ScanDir(fs, dirs[0], cmd) == DirMiss;
      FirstMatchStops(fs, dirs[1..], cmd, k - 1);
    }
  }

  /** A hit names a directory on the search path that lists the command. */
  lemma {:induction false} FirstMatchSound(fs: FileSystem, dirs: seq<string>, cmd: string)
    requires FirstMatch(fs, dirs, cmd).Hit?
    ensures FirstMatch(fs, dirs, cmd).dir in dirs
    ensures ReadDir(fs, FirstMatch(fs, dirs, cmd).dir).Entries?
    ensures Named(cmd) in ReadDir(fs, FirstMatch(fs, dirs, cmd).dir).entries
  {
    if ScanDir(fs, dirs[0], cmd) == DirHit {
      ScanEntriesHit(dirs[0], ReadDir(fs, dirs[0]).entries, cmd);
    } else {
      FirstMatchSound(fs, dirs[1..], cmd);
    }
  }

  lemma {:induction false} ScanEntriesHit(dir: string, es: seq<DirEntry>, cmd: string)
    requires ScanEntries(dir, es, cmd) == DirHit
    ensures Named(cmd) in es
  {
    if es[0] != Named(cmd) {
      ScanEntriesHit(dir, es[1..], cmd);
    }
  }

  /**
   * First match wins: when directory `i` lists the command and every directory
   * before it is readable and lists neither the command nor an unreadable
   * entry, the search reports directory `i`, whatever later directories hold.
   */
  lemma EarlierDirectoryWins(fs: FileSystem, dirs: seq<string>, cmd: string, i: nat, j: nat)
    requires i < |dirs| && ReadDir(fs, dirs[i]).Entries?
    requires j < |ReadDir(fs, dirs[i]).entries| && ReadDir(fs, dirs[i]).entries[j] == Named(cmd)
    requires forall e :: 0 <= e < j ==> Passes(ReadDir(fs, dirs[i]).entries[e], cmd)
    requires forall k :: 0 <= k < i ==>
               ReadDir(fs, dirs[k]).Entries? &&
               forall e :: e in ReadDir(fs, dirs[k]).entries ==> Passes(e, cmd)
    ensures FirstMatch(fs, dirs, cmd) == Hit(dirs[i])
  {
    ScanEntriesStops(dirs[i], ReadDir(fs, dirs[i]).entries, cmd, j);
    forall k | 0 <= k < i
      ensures ScanDir(fs, dirs[k], cmd) == DirMiss
    {
      ScanEntriesMiss(dirs[k], ReadDir(fs, dirs[k]).entries, cmd);
    }
    FirstMatchStops(fs, dirs, cmd, i);
  }

  /** A directory that cannot be read, reached before any match, aborts the search. */
  lemma UnreadableIsFatal(fs: FileSystem, dirs: seq<string>, cmd: string, i: nat)
    requires i < |dirs| && ReadDir(fs, dirs[i]) == Unreadable
    requires forall k :: 0 <= k < i ==> ScanDir(fs, dirs[k], cmd) == DirMiss
    ensures FirstMatch(fs, dirs, cmd) == Failed(ReadDirFailed(dirs[i]))
  {
    FirstMatchStops(fs, dirs, cmd, i);
  }
}
