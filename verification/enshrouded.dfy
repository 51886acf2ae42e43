/** The Enshrouded dedicated-server adapter: the guard and decision logic of
    its entry points, as pure functions of the adapter state and the disk.
    Each entry point returns its result, the adapter's `Error` field
    afterwards, and the effects it performs in order; the disk afterwards is
    `Apply(fs, effects)`. */
module Enshrouded {
  import opened Wrappers
  import opened Settings
  import opened RuntimeConfig
  import opened Files
  import opened LaunchArgs

  /** The server executable's name, the default start path and the name the
      install check looks for. */
  const ExecutableName := "enshrouded_server.exe"

  /** A process handle returned by the installer; opaque to the adapter. */
  datatype Process = Process(pid: int)

  /** What the installer hands back: a process (or null) and an error message
      (or null). */
  datatype InstallerResult = InstallerResult(process: Option<Process>, error: Option<string>)

  /** The adapter instance: the host's settings, the public `StartPath` and
      `AllowsEmbedConsole` fields, and the last error message. */
  datatype Adapter = Adapter(
    data: ServerConfig,
    startPath: string,
    allowsEmbedConsole: bool,
    error: Option<string>
  )

  datatype Step<T> = Step(result: T, error: Option<string>, effects: seq<Effect>)

  /** A freshly constructed adapter for the given settings. */
  function NewAdapter(d: ServerConfig): (a: Adapter)
    ensures a.data == d && a.error.None?
    ensures StartExe(a) == ServerFile(d.serverId, ExecutableName)
  {
    Adapter(d, ExecutableName, true, None)
  }

  /** The configuration file's path in the server's files directory. */
  function ConfigPath(a: Adapter): (p: Path)
    ensures p.dir == ServerFilesDir(a.data.serverId)
    ensures p != ServerFile(a.data.serverId, ExecutableName)
  {
    assert ConfigFileName[|ConfigFileName| - 1] != ExecutableName[|ExecutableName| - 1];
    ServerFile(a.data.serverId, ConfigFileName)
  }

  /** The executable `Start` launches: `StartPath` in the server's files. */
  function StartExe(a: Adapter): Path {
    ServerFile(a.data.serverId, a.startPath)
  }

  /** "<file> not found (<full path>)", as `Start` reports it. */
  function NotFoundMessage(p: Path): (m: string)
    ensures |m| >= |FileName(p)| + |Show(p)| + 2
    ensures m[..|FileName(p)|] == FileName(p)
    ensures m[|m| - |Show(p)| - 2..] == "(" + Show(p) + ")"
  {
    Framed(FileName(p), " 未找到 ", Show(p));
    FileName(p) + " 未找到 " + "(" + Show(p) + ")"
  }

  /** `f`, then `mid`, then `s` in parentheses: `f` opens it and the
      parenthesised `s` closes it. */
  lemma Framed(f: string, mid: string, s: string)
    ensures var m := f + mid + "(" + s + ")";
      && |m| == |f| + |mid| + |s| + 2
      && m[..|f|] == f
      && m[|m| - |s| - 2..] == "(" + s + ")"
  {
  }

  /** "Invalid path! Cannot find <file>", as `IsImportValid` reports it. */
  function InvalidImportMessage(p: Path): (m: string)
    ensures |m| == |FileName(p)| + 9
    ensures m[|m| - |FileName(p)|..] == FileName(p)
  {
    "无效路径！找不到 " + FileName(p)
  }

  predicate NoSpawn(effs: seq<Effect>) {
    forall i :: 0 <= i < |effs| ==> effs[i].WriteAll?
  }

  /** Writes the install-time record, replacing the whole file. */
  function CreateServerCfg(a: Adapter, fs: FileSystem): (r: Step<()>)
    ensures r.error == a.error && NoSpawn(r.effects)
    ensures Written(r.effects) == {ConfigPath(a)}
    ensures Apply(fs, r.effects) == fs[ConfigPath(a) := ConfigFile(InstallConfig(a.data))]
  {
    Step((), a.error, [WriteAll(ConfigPath(a), ConfigFile(InstallConfig(a.data)))])
  }

  /** Writes the refresh record, replacing the whole file: whatever was there
      before, the install-only fields included, is gone. */
  function UpdateConfig(a: Adapter, fs: FileSystem): (r: Step<()>)
    ensures r.error == a.error && NoSpawn(r.effects)
    ensures Written(r.effects) == {ConfigPath(a)}
    ensures Apply(fs, r.effects) == fs[ConfigPath(a) := ConfigFile(RefreshConfig(a.data))]
  {
    Step((), a.error, [WriteAll(ConfigPath(a), ConfigFile(RefreshConfig(a.data)))])
  }

  /** The process `Start` creates: minimised window without console capture,
      or a hidden window with stdout and stderr redirected to the host. */
  function LaunchFor(a: Adapter): (l: Launch)
    ensures l.executable == StartExe(a) && l.workingDirectory == ServerFilesDir(a.data.serverId)
    ensures l.arguments == Arguments(a.data)
    ensures l.redirectOutput <==> a.allowsEmbedConsole
    ensures l.createNoWindow <==> a.allowsEmbedConsole
  {
    if !a.allowsEmbedConsole then
      Launch(StartExe(a), ServerFilesDir(a.data.serverId), Arguments(a.data), Minimized, false, false)
    else
      Launch(StartExe(a), ServerFilesDir(a.data.serverId), Arguments(a.data), Hidden, true, true)
  }

  /** Starts the server. Without the executable: no handle, a not-found error
      naming the file and its full path, and no effect at all. With it: the
      configuration is refreshed first, then the launch happens. */
  function Start(a: Adapter, fs: FileSystem): (r: Step<Option<Launch>>)
    ensures r.result.Some? <==> Exists(fs, StartExe(a))
    ensures r.result.None? ==> r.effects == [] && r.error == Some(NotFoundMessage(StartExe(a)))
    ensures r.result.Some? ==>
      && r.error == a.error
      && |r.effects| == 2
      && r.effects[0] == WriteAll(ConfigPath(a), ConfigFile(RefreshConfig(a.data)))
      && r.effects[1] == Spawn(r.result.value)
      && r.result.value.arguments == Arguments(a.data)
      && r.result.value.executable == StartExe(a)
    ensures Apply(fs, r.effects) ==
      if r.result.Some? then fs[ConfigPath(a) := ConfigFile(RefreshConfig(a.data))] else fs
  {
    var exe := StartExe(a);
    if !Exists(fs, exe) then
      Step(None, Some(NotFoundMessage(exe)), [])
    else
      var launch := LaunchFor(a);
      var refresh := UpdateConfig(a, fs);
      assert refresh.effects + [Spawn(launch)] == [refresh.effects[0], Spawn(launch)];
      ApplyWriteThenSpawn(fs, ConfigPath(a), ConfigFile(RefreshConfig(a.data)), launch);
      Step(Some(launch), a.error, refresh.effects + [Spawn(launch)])
  }

  /** Installs through the installer: its process and error are passed on;
      the disk is the installer's business, not the adapter's. */
  function Install(a: Adapter, fs: FileSystem, inst: InstallerResult): (r: Step<Option<Process>>)
    ensures r.result == inst.process && r.error == inst.error
    ensures Apply(fs, r.effects) == fs
  {
    Step(inst.process, inst.error, [])
  }

  /** Updates through the installer: its process and error are passed on,
      and the configuration is refreshed exactly when the installer reported
      an error yet still returned a process. */
  function Update(a: Adapter, fs: FileSystem, inst: InstallerResult): (r: Step<Option<Process>>)
    ensures r.result == inst.process && r.error == inst.error
    ensures NoSpawn(r.effects)
    ensures r.effects != [] <==> inst.error.Some? && inst.process.Some?
    ensures Written(r.effects) <= {ConfigPath(a)}
    ensures Apply(fs, r.effects) ==
      if inst.error.Some? && inst.process.Some? then fs[ConfigPath(a) := ConfigFile(RefreshConfig(a.data))] else fs
  {
    if inst.error.Some? && inst.process.Some? then
      Step(inst.process, inst.error, UpdateConfig(a, fs).effects)
    else
      Step(inst.process, inst.error, [])
  }

  /** The install is valid iff the server executable exists in the server's
      files; nothing changes, the error field included. */
  function IsInstallValid(a: Adapter, fs: FileSystem): (r: Step<bool>)
    ensures r.result <==> Exists(fs, ServerFile(a.data.serverId, ExecutableName))
    ensures r.error == a.error && r.effects == []
  {
    Step(ServerFile(a.data.serverId, ExecutableName) in fs, a.error, [])
  }

  /** An import directory is valid iff `StartPath` exists under it. The error
      field is set to the invalid-path message whatever the answer, on every
      call that returns. */
  function IsImportValid(a: Adapter, fs: FileSystem, path: string): (r: Step<bool>)
    ensures r.result <==> Exists(fs, Joined(path, a.startPath))
    ensures r.error == Some(InvalidImportMessage(Joined(path, a.startPath)))
    ensures r.effects == []
  {
    var exe := Joined(path, a.startPath);
    Step(exe in fs, Some(InvalidImportMessage(exe)), [])
  }

  /** Importing from the server's own files directory, with the default
      start path, accepts exactly the installs the install check accepts. */
  lemma ImportOfOwnFilesMatchesInstallCheck(a: Adapter, fs: FileSystem)
    requires a.startPath == ExecutableName
    ensures IsImportValid(a, fs, ServerFilesDir(a.data.serverId)).result == IsInstallValid(a, fs).result
  {
  }

  /** With the default start path, `Start` finds its executable exactly when
      the install check succeeds. */
  lemma StartAgreesWithInstallCheck(a: Adapter, fs: FileSystem)
    requires a.startPath == ExecutableName
    ensures Start(a, fs).result.Some? <==> IsInstallValid(a, fs).result
  {
  }

  /** Start after the install-time write: the file now holds the install
      record cut down to the five shared keys, in the same order, so
      password and directories are gone while the shared fields keep their
      values. */
  lemma StartDropsInstallOnlyFields(a: Adapter, fs: FileSystem, fs1: FileSystem, fs2: FileSystem)
    requires Exists(fs, StartExe(a))
    requires fs1 == Apply(fs, CreateServerCfg(a, fs).effects)
    requires fs2 == Apply(fs1, Start(a, fs1).effects)
    ensures ConfigPath(a) in fs1 && fs1[ConfigPath(a)].ConfigFile?
    ensures ConfigPath(a) in fs2 && fs2[ConfigPath(a)].ConfigFile?
    ensures fs2[ConfigPath(a)].config == Restrict(fs1[ConfigPath(a)].config, RefreshKeySet)
  {
    var cfg := ConfigPath(a);
    assert cfg in fs1 && fs1[cfg] == ConfigFile(InstallConfig(a.data));
    assert cfg in fs2 && fs2[cfg] == ConfigFile(RefreshConfig(a.data)) by {
      assert StartExe(a) in fs1;
      assert Start(a, fs1).result.Some?;
    }
    RefreshIsRestrictedInstall(a.data);
  }

  /** Starting twice leaves the disk as starting once. */
  lemma StartIdempotentOnDisk(a: Adapter, fs: FileSystem)
    ensures var fs1 := Apply(fs, Start(a, fs).effects);
      Apply(fs1, Start(a, fs1).effects) == fs1
  {
    var fs1 := Apply(fs, Start(a, fs).effects);
    if Exists(fs, StartExe(a)) {
      assert Exists(fs1, StartExe(a));
    }
  }

  // ---------------------------------------------------------------------------
  // A host driving one adapter through a sequence of calls.

  datatype Call =
    | CallCreateServerCfg
    | CallStart
    | CallInstall(install: InstallerResult)
    | CallUpdate(update: InstallerResult)
    | CallIsInstallValid
    | CallIsImportValid(path: string)

  /** The host's view after one call: the adapter (its error field updated)
      and the effects performed. */
  function Perform(a: Adapter, fs: FileSystem, c: Call): (r: (Adapter, seq<Effect>))
    ensures r.0 == a.(error := r.0.error)
    ensures Written(r.1) <= {ConfigPath(a)}
  {
    match c
    case CallCreateServerCfg =>
      var s := CreateServerCfg(a, fs); (a.(error := s.error), s.effects)
    case CallStart =>
      var s := Start(a, fs); (a.(error := s.error), s.effects)
    case CallInstall(inst) =>
      var s := Install(a, fs, inst); (a.(error := s.error), s.effects)
    case CallUpdate(inst) =>
      var s := Update(a, fs, inst); (a.(error := s.error), s.effects)
    case CallIsInstallValid =>
      var s := IsInstallValid(a, fs); (a.(error := s.error), s.effects)
    case CallIsImportValid(path) =>
      var s := IsImportValid(a, fs, path); (a.(error := s.error), s.effects)
  }

  /** The adapter after the calls, in order, and the disk as the adapter's
      own effects leave it. The installer and the launched server also
      change files between calls; those changes are not part of `Run`. */
  function Run(a: Adapter, fs: FileSystem, calls: seq<Call>): (r: (Adapter, FileSystem))
    decreases |calls|
  {
    if calls == [] then (a, fs)
    else
      var (a1, effs) := Perform(a, fs, calls[0]);
      Run(a1, Apply(fs, effs), calls[1..])
  }

  /** The adapter's own effects write no file but the configuration file,
      over any sequence of calls, and the settings the adapter works from
      never change. */
  lemma {:induction false} RunFrame(a: Adapter, fs: FileSystem, calls: seq<Call>, p: Path)
    requires p != ConfigPath(a)
    ensures var (a', fs') := Run(a, fs, calls);
      && a'.data == a.data && a'.startPath == a.startPath
      && (p in fs' <==> p in fs)
      && (p in fs ==> fs'[p] == fs[p])
    decreases |calls|
  {
    if calls != [] {
      var (a1, effs) := Perform(a, fs, calls[0]);
      ApplyFrame(fs, effs, p);
      RunFrame(a1, Apply(fs, effs), calls[1..], p);
    }
  }

  /** No call of the adapter writes the server executable the install check
      looks for: only the installer puts it on disk. */
  lemma PerformNeverWritesExecutable(a: Adapter, fs: FileSystem, c: Call)
    ensures ServerFile(a.data.serverId, ExecutableName) !in Written(Perform(a, fs, c).1)
  {
  }

  /** The file at `cfg` in `after` is as it was in `before`, or holds the
      install-time record of `d`, or holds its refresh record. */
  predicate ConfigIsProjection(d: ServerConfig, cfg: Path, before: FileSystem, after: FileSystem) {
    || ((cfg in after <==> cfg in before) && (cfg in before ==> after[cfg] == before[cfg]))
    || (cfg in after && after[cfg] == ConfigFile(InstallConfig(d)))
    || (cfg in after && after[cfg] == ConfigFile(RefreshConfig(d)))
  }

  /** After any sequence of calls the configuration file is as it was, or
      holds the install-time record, or holds the refresh record of the
      adapter's settings: nothing else is ever written there. */
  lemma {:induction false} RunConfigIsProjection(a: Adapter, fs: FileSystem, calls: seq<Call>)
    ensures ConfigIsProjection(a.data, ConfigPath(a), fs, Run(a, fs, calls).1)
    decreases |calls|
  {
    if calls != [] {
      var (a1, effs) := Perform(a, fs, calls[0]);
      var fs1 := Apply(fs, effs);
      RunConfigIsProjection(a1, fs1, calls[1..]);
      var cfg := ConfigPath(a);
      if ConfigPath(a) !in Written(effs) {
        ApplyFrame(fs, effs, cfg);
      }
    }
  }
}
