/** An abstract view of the disk as the adapter sees it: a map from path to
    file, paths as a directory and a relative name, and the side effects an
    operation performs, in the order it performs them. */
module Files {
  import opened RuntimeConfig

  /** A path: the directory `dir` combined with the relative `name`. A file
      reached through two different spellings of its directory (a trailing
      separator, say) is two keys of the map; see `ServerFile`. */
  datatype Path = Joined(dir: string, name: string)

  /** What a file holds: the adapter only ever writes configuration records;
      any other file (the server executable, say) is opaque data. */
  datatype File = ConfigFile(config: Config) | Data(bytes: seq<int>)

  type FileSystem = map<Path, File>

  /** A file exists at `p` (directories are not entries of the map). */
  predicate Exists(fs: FileSystem, p: Path) {
    p in fs
  }

  /** Where a file name starts after: the two directory separators and the
      volume separator of a drive-relative name such as `C:file`. */
  predicate IsSeparator(c: char) {
    c == '\\' || c == '/' || c == ':'
  }

  /** The host's files directory of server `id`, relative to the host's own
      root: `servers\<id>\serverfiles`. */
  function ServerFilesDir(id: string): string {
    "servers\\" + id + "\\serverfiles"
  }

  /** `name` in the files directory of server `id`: the same path as joining
      that directory with `name`, so an import check on the server's own
      directory sees the files the install check sees. */
  function ServerFile(id: string, name: string): Path {
    Joined(ServerFilesDir(id), name)
  }

  /** The last component of a relative name: what follows its last separator. */
  function BaseName(s: string): (r: string)
    ensures forall i :: 0 <= i < |r| ==> !IsSeparator(r[i])
    ensures |r| <= |s| && r == s[|s| - |r|..]
    ensures |r| < |s| ==> IsSeparator(s[|s| - |r| - 1])
  {
    if s == [] then []
    else if IsSeparator(s[|s| - 1]) then []
    else
      var init := s[..|s| - 1];
      var r := BaseName(init) + [s[|s| - 1]];
      assert s == init + [s[|s| - 1]];
      r
  }

  /** The file-name part of a path: the last component of its name, or of
      the directory when the name is empty (combining with an empty name
      gives the directory itself). */
  function FileName(p: Path): string {
    if p.name == [] then BaseName(p.dir) else BaseName(p.name)
  }

  /** A textual rendering of a path, the directory and the name joined by a
      separator, used where the adapter puts a full path into a message. As
      in `FileName`, an empty name renders as the directory alone. */
  function Show(p: Path): string {
    if p.name == [] then p.dir else p.dir + "\\" + p.name
  }

  /** What launching the server would do: the executable, its working
      directory, the argument string and the console wiring. */
  datatype WindowStyle = Minimized | Hidden

  datatype Launch = Launch(
    executable: Path,
    workingDirectory: string,
    arguments: string,
    windowStyle: WindowStyle,
    createNoWindow: bool,
    redirectOutput: bool   // stdout and stderr both go to the host's console
  )

  /** A side effect: a whole-file write (truncating what was there) or a
      process launch. */
  datatype Effect = WriteAll(path: Path, file: File) | Spawn(launch: Launch)

  /** Whether every effect in `effs` is a launch. */
  predicate LaunchesOnly(effs: seq<Effect>) {
    forall i :: 0 <= i < |effs| ==> effs[i].Spawn?
  }

  /** The filesystem after performing `effs` in order. A write replaces the
      file at its path whole, creating it if need be; a launch changes
      nothing. So no file disappears and a path written last holds what that
      write wrote (`ApplyLaunchesOnly` and `ApplyLastWrite` add the launches
      after it; `ApplyFrame` says what else stays as it was). */
  function Apply(fs: FileSystem, effs: seq<Effect>): (r: FileSystem)
    ensures fs.Keys <= r.Keys
    ensures |effs| > 0 && effs[|effs| - 1].WriteAll? ==>
      effs[|effs| - 1].path in r && r[effs[|effs| - 1].path] == effs[|effs| - 1].file
    decreases |effs|
  {
    if effs == [] then fs
    else
      var fs1 := match effs[0]
        case WriteAll(p, f) => fs[p := f]
        case Spawn(_) => fs;
      Apply(fs1, effs[1..])
  }

  /** The paths `effs` writes. */
  function Written(effs: seq<Effect>): (ps: set<Path>)
    ensures forall i :: 0 <= i < |effs| && effs[i].WriteAll? ==> effs[i].path in ps
    ensures forall p :: p in ps ==> exists i :: 0 <= i < |effs| && effs[i].WriteAll? && effs[i].path == p
  {
    if effs == [] then {}
    else
      var rest := Written(effs[1..]);
      assert forall i :: 1 <= i < |effs| ==> effs[i] == effs[1..][i - 1];
      if effs[0].WriteAll? then {effs[0].path} + rest else rest
  }

  /** Nothing that `effs` does not write changes: no file appears, disappears
      or changes content outside the written paths. */
  lemma {:induction false} ApplyFrame(fs: FileSystem, effs: seq<Effect>, p: Path)
    requires p !in Written(effs)
    ensures p in Apply(fs, effs) <==> p in fs
    ensures p in fs ==> Apply(fs, effs)[p] == fs[p]
    decreases |effs|
  {
    if effs != [] {
      assert Written(effs[1..]) <= Written(effs);
      var fs1 := match effs[0]
        case WriteAll(q, f) => fs[q := f]
        case Spawn(_) => fs;
      ApplyFrame(fs1, effs[1..], p);
    }
  }

  /** The last write in `effs` decides its path, whatever launches follow:
      that path then holds exactly what the write wrote. */
  lemma {:induction false} ApplyLastWrite(fs: FileSystem, effs: seq<Effect>, i: nat)
    requires i < |effs| && effs[i].WriteAll? && LaunchesOnly(effs[i + 1..])
    ensures effs[i].path in Apply(fs, effs)
    ensures Apply(fs, effs)[effs[i].path] == effs[i].file
    decreases |effs|
  {
    var fs1 := match effs[0]
      case WriteAll(q, f) => fs[q := f]
      case Spawn(_) => fs;
    if i == 0 {
      assert effs[1..] == effs[i + 1..];
      ApplyLaunchesOnly(fs1, effs[1..]);
    } else {
      assert effs[1..][i..] == effs[i + 1..];
      ApplyLastWrite(fs1, effs[1..], i - 1);
    }
  }

  /** Launches alone leave the disk as it was. */
  lemma {:induction false} ApplyLaunchesOnly(fs: FileSystem, effs: seq<Effect>)
    requires LaunchesOnly(effs)
    ensures Apply(fs, effs) == fs
    decreases |effs|
  {
    if effs != [] {
      assert effs[1..][..] == effs[1..];
      assert effs[0].Spawn?;
      ApplyLaunchesOnly(fs, effs[1..]);
    }
  }

  /** A write followed by a launch changes the disk by that write alone. */
  lemma ApplyWriteThenSpawn(fs: FileSystem, p: Path, f: File, l: Launch)
    ensures Apply(fs, [WriteAll(p, f), Spawn(l)]) == fs[p := f]
  {
    var effs := [WriteAll(p, f), Spawn(l)];
    assert effs[1..] == [Spawn(l)];
    ApplyLaunchesOnly(fs[p := f], [Spawn(l)]);
  }
}
