# Enshrouded dedicated-server adapter, modelled in Dafny

WindowsGSM manages game servers through one adapter class per game. The
Enshrouded adapter (`WindowsGSM/GameServer/Enshrouded.cs`) knows five
things. It builds the server's command line from the host's settings
record. It writes the server's configuration file `enshrouded_server.json`,
once in an install-time shape and on every refresh in a shorter shape. It
refuses to start when the executable is missing. It hands install and
update over to SteamCMD. And it checks whether an installation or an
import directory holds the executable.

This project models that logic as pure functions. Each one takes the adapter
state and an abstract disk, and returns a `Step`. A `Step` holds the result,
the adapter's `Error` field afterwards, and the side effects in the order they
happen. An effect is a whole-file write or a process launch. The disk is a map
from path to file, and the disk afterwards is `Apply(fs, effects)`. So
"nothing else changes", "the file is overwritten, not merged" and "the
config is written before the launch" can all be stated exactly.

Modules:

- `Settings` (settings.dfy): the host's `ServerConfig` fields the adapter
  reads. All of them are opaque strings.
- `RuntimeConfig` (config.dfy): the configuration record as an ordered list
  of key/value entries. It holds the install-time projection, the refresh
  projection, and lemmas relating the two.
- `Files` (files.dfy): paths, files, effects and `Apply`, with frame lemmas.
- `LaunchArgs` (launch.dfy): the argument string built exactly as the
  adapter builds it. Its partners are an independent token-list reference
  and a space-splitting reader, with round-trip lemmas.
- `Enshrouded` (enshrouded.dfy): the entry points `CreateServerCfg`,
  `UpdateConfig`, `Start`, `Install`, `Update`, `IsInstallValid` and
  `IsImportValid`. It also has `Run`, a host driving one adapter through
  any sequence of these calls, with invariants over such runs.
- `Wrappers` (wrappers.dfy): `Option`, which stands in for C# `null`.

Three facts of the code that shape the model:

- `UpdateConfig` replaces the whole file with a five-field record, so after
  any `Start` that finds the executable the password and directory fields
  are gone (`StartDropsInstallOnlyFields`). A `Start` that does not find it
  writes nothing.
- `IsImportValid` sets `Error` to the invalid-path message on every call
  that returns, whatever it returns. The message is `无效路径！找不到 <file>`, which differs
  from `Start`'s `<file> 未找到 (<full path>)`.
- `IsInstallValid` checks the literal `enshrouded_server.exe` rather than
  the `StartPath` field. The two agree only while `StartPath` keeps its
  default (`StartAgreesWithInstallCheck`).

## Model

| member | source | states |
|---|---|---|
| LaunchArgs.ArgumentsAreJoinedTokens | WindowsGSM/GameServer/Enshrouded.cs:77-82 | The argument string is one leading space followed by six pieces joined by single spaces. The pieces come in a fixed order: the extra parameters verbatim, `-ip="<ip>"`, `-gamePort=`, `-queryPort=`, `-slotCount=`, and `-name="""<name>"""` last. |
| LaunchArgs.Arguments | WindowsGSM/GameServer/Enshrouded.cs:77-82 | The built string opens with a space, the unparsed extra parameters and a space. It closes with `-name="""`, the name exactly as given, and `"""`, so the name gets no escaping beyond the triple quotes. |
| LaunchArgs.ArgumentsTokenise | WindowsGSM/GameServer/Enshrouded.cs:77-82 | Cut at spaces, the command line gives back the extra parameters' own pieces first. Then come the five switches, one piece each, in order, whenever the five values contain no space. |
| LaunchArgs.ArgumentsExample | WindowsGSM/GameServer/Enshrouded.cs:77-82 | For an example settings record with the adapter's default ports and player count (lines 30-33), name Test, ip 127.0.0.1 and no extra parameters, the command line reads back as an empty piece followed by exactly `-ip="127.0.0.1"`, `-gamePort=15636`, `-queryPort=15637`, `-slotCount=16` and `-name="""Test"""`, in that order. |
| LaunchArgs.ExampleTokens | WindowsGSM/GameServer/Enshrouded.cs:77-82 | The six pieces of that example settings record, spelled out. |
| RuntimeConfig.InstallConfig | WindowsGSM/GameServer/Enshrouded.cs:46-56 | The install-time record carries the keys name, password, saveDirectory, logDirectory, ip, gamePort, queryPort, slotCount, in that order. |
| RuntimeConfig.InstallConfigShape | WindowsGSM/GameServer/Enshrouded.cs:46-56 | The install-time record has exactly the keys name, password, saveDirectory, logDirectory, ip, gamePort, queryPort, slotCount, in that order, each once. |
| RuntimeConfig.InstallConfigDefaults | WindowsGSM/GameServer/Enshrouded.cs:49-51 | Whatever the settings, the install-time record has password `""`, saveDirectory `./savegame` and logDirectory `./logs`. |
| RuntimeConfig.InstallConfigCopiesSettings | WindowsGSM/GameServer/Enshrouded.cs:48-55 | The other five install-time fields hold the server name, IP, port, query port and max-player values from the settings. |
| RuntimeConfig.RefreshConfig | WindowsGSM/GameServer/Enshrouded.cs:131-138 | The refresh record carries the keys name, ip, gamePort, queryPort, slotCount, in that order. |
| RuntimeConfig.RefreshLookup | WindowsGSM/GameServer/Enshrouded.cs:133-137 | Under each key the refresh record holds the settings field that key is copied from, and nothing under password or the two directories. |
| RuntimeConfig.RefreshConfigShape | WindowsGSM/GameServer/Enshrouded.cs:131-138 | The refresh record has exactly the keys name, ip, gamePort, queryPort, slotCount, in that order, each once. It holds the settings' values and nothing under any other key. |
| RuntimeConfig.RefreshIsRestrictedInstall | WindowsGSM/GameServer/Enshrouded.cs:131-138 | The refresh record equals the install-time record for the same settings with the three install-only entries removed, order kept. |
| RuntimeConfig.RestrictEntries | WindowsGSM/GameServer/Enshrouded.cs:131-138 | Dropping keys keeps exactly the record's entries under the kept keys: nothing is added and nothing under a kept key is lost. |
| RuntimeConfig.RefreshAgreesWithInstall | WindowsGSM/GameServer/Enshrouded.cs:131-138 | The two records give the same value for every shared key. For password and the two directories, the install-time record has a value and the refresh record has none. |
| RuntimeConfig.KeyNameInjective | WindowsGSM/GameServer/Enshrouded.cs:46-56 | No two property names written to the file are spelled alike, so the records are well-formed JSON objects. |
| Enshrouded.NewAdapter | WindowsGSM/GameServer/Enshrouded.cs:24-41 | A new adapter holds the given settings and no error, and its start path resolves to `enshrouded_server.exe` in the server's files. |
| Enshrouded.ConfigPath | WindowsGSM/GameServer/Enshrouded.cs:62 | The configuration file, written at lines 65 and 147, lies in the server's files directory and is never the executable `IsInstallValid` looks for. |
| Enshrouded.CreateServerCfg | WindowsGSM/GameServer/Enshrouded.cs:44-66 | Writes the install-time record to `enshrouded_server.json` in the server's files. It replaces the whole file, launches nothing, changes no other file and leaves `Error` alone. |
| Enshrouded.UpdateConfig | WindowsGSM/GameServer/Enshrouded.cs:129-148 | Replaces the whole configuration file with the refresh record. No other file changes. |
| Enshrouded.LaunchFor | WindowsGSM/GameServer/Enshrouded.cs:87-126 | The launch runs `StartPath` in the server's files, from that directory, with the built argument string. Output is redirected and no window is created exactly when console embedding is allowed. |
| Enshrouded.Start | WindowsGSM/GameServer/Enshrouded.cs:69-84 | Returns a launch iff the executable exists. Without it: no handle, `Error` set to `<file> 未找到 (<full path>)`, no write, no launch, disk unchanged. With it: the configuration is first overwritten with the refresh record, and only then is the server launched with the built arguments. |
| Enshrouded.NotFoundMessage | WindowsGSM/GameServer/Enshrouded.cs:74 | The missing-executable message opens with the file's name and closes with its full path in parentheses. |
| Enshrouded.StartAgreesWithInstallCheck | WindowsGSM/GameServer/Enshrouded.cs:188-191 | With the default `StartPath`, `Start` finds its executable exactly when `IsInstallValid` says the install is valid. |
| Enshrouded.StartDropsInstallOnlyFields | WindowsGSM/GameServer/Enshrouded.cs:144-147 | After the install-time write and then a successful `Start`, the file holds the install-time record with its password and directory entries removed. The five shared entries keep their order and values. |
| Enshrouded.StartIdempotentOnDisk | WindowsGSM/GameServer/Enshrouded.cs:84 | Starting a second time leaves the disk exactly as the first start left it. |
| Enshrouded.Install | WindowsGSM/GameServer/Enshrouded.cs:164-172 | Returns the installer's process and sets `Error` to the installer's error, both unchanged. The adapter itself touches no file. |
| Enshrouded.Update | WindowsGSM/GameServer/Enshrouded.cs:175-185 | Returns the installer's process and sets `Error` to its error. It rewrites the configuration with the refresh record iff the installer reported an error and still returned a process. Otherwise nothing happens. It never writes anything but the config and never launches. |
| Enshrouded.IsInstallValid | WindowsGSM/GameServer/Enshrouded.cs:188-191 | True iff `enshrouded_server.exe` exists in the server's files. No effect, and `Error` is unchanged. |
| Enshrouded.IsImportValid | WindowsGSM/GameServer/Enshrouded.cs:193-198 | True iff `StartPath` combined with the given directory exists. `Error` is set to the invalid-path message naming the file even when the answer is true. No effect. |
| Enshrouded.InvalidImportMessage | WindowsGSM/GameServer/Enshrouded.cs:196 | The invalid-path message is a fixed 9-character prefix followed by the file name of the combined path. |
| Enshrouded.ImportOfOwnFilesMatchesInstallCheck | WindowsGSM/GameServer/Enshrouded.cs:188-198 | With the default `StartPath`, importing from the server's own files directory is valid exactly when `IsInstallValid` says the install is valid. |
| Enshrouded.RunFrame | WindowsGSM/GameServer/Enshrouded.cs:62-65 | Over any sequence of adapter calls, the adapter's own effects create, delete or change no file but the configuration file, and the settings the adapter works from stay the same. |
| Enshrouded.PerformNeverWritesExecutable | WindowsGSM/GameServer/Enshrouded.cs:188-191 | No adapter call writes the executable `IsInstallValid` looks for; only the installer puts it on disk. |
| Enshrouded.RunConfigIsProjection | WindowsGSM/GameServer/Enshrouded.cs:129-148 | After any sequence of adapter calls, the configuration file is either as it was, or the install-time record, or the refresh record of the adapter's settings. |
| Files.BaseName | WindowsGSM/GameServer/Enshrouded.cs:196 | The file name of a path is its suffix after the last `\`, `/` or drive `:`, and contains none of them. `FileName` takes it from the directory when the name is empty, since combining with an empty name gives the directory. |
| Files.Apply | WindowsGSM/GameServer/Enshrouded.cs:65 | `File.WriteAllText` (lines 65 and 147) replaces the file at its path whole. No file disappears, and when the last effect is a write its path holds exactly what that write wrote, whatever was there before. |
| Files.ApplyLaunchesOnly | WindowsGSM/GameServer/Enshrouded.cs:123 | Starting the process (line 101 or 123) writes no file: an effect list of launches only leaves the disk exactly as it was. |
| Files.ApplyLastWrite | WindowsGSM/GameServer/Enshrouded.cs:84 | The config write that `Start` performs before launching (line 84, then the launch at line 101 or 123) decides the file: whatever launches follow the last write of a path, the path holds exactly what that write wrote. |

## Left out

- Process creation, window handles and console capture (Enshrouded.cs:86-127). `Start` stops at a `Launch` description: the executable, working directory, argument string and console flags. No OS process or process object is modelled.
- `Stop` (Enshrouded.cs:151-161). Sending Ctrl-C to the main window and the fixed 20-second delay are OS signalling and timing.
- The SteamCMD installer and its arguments (Enshrouded.cs:166-168, 178). `Install` and `Update` take the installer's `(process, error)` pair as an input. The installer's arguments are abstracted together with the installer: the server id, `AppId`, and `Update`'s `validate` and `custom` parameters.
- `GetLocalBuild` and `GetRemoteBuild` (Enshrouded.cs:200-212). They only forward the server id and `AppId` to SteamCMD, which is outside this adapter.
- Enshrouded.RunFrame: `Run` changes the disk only through the adapter's own effects. The installer puts the server binaries on disk and rewrites them on update, and the launched server writes into `./savegame` and `./logs`. None of that is modelled, so `RunFrame` and `RunConfigIsProjection` speak only of the adapter's own writes.
- JSON text (Enshrouded.cs:59, 141). The file holds the record as ordered key/value entries, not the serialised text. Every value is a string, because the `ServerConfig` class is not part of this model and its field types are unknown.
- Path resolution. A path is a directory string plus a relative name, and `ServerFile(id, name)` is the server's files directory joined with `name`. So the install check and an import check on that same directory string see the same file. Other spellings of one file are still different paths: a trailing separator, a different case, a name that contains a separator, or a rooted name that `Path.Combine` would return unchanged. The files directory's text is a stand-in for the host's resolver (`servers\<id>\serverfiles` relative to the host's root), since `ServerPath` is not part of this model.
- Exceptions from `Path.Combine` (Enshrouded.cs:195). `IsImportValid` takes its path to be non-null and free of the characters .NET Framework rejects in a path (`"`, `<`, `>`, `|`, control characters). For such a path the call throws before it assigns `Error`, and that exception is not modelled.
- Write failures. `File.WriteAllText` is taken to succeed and directories are not modelled, so the exception a failed write would raise is not modelled.
- Asynchrony. `CreateServerCFG` is `async void`, and `Start`, `Stop`, `Install`, `Update` and `GetRemoteBuild` return tasks. `UpdateConfig`, `IsInstallValid`, `IsImportValid` and `GetLocalBuild` are synchronous. Each call is modelled as completing before the next begins.
- Unused members. `QueryMethod`, `Notice`, `FullName`, the default `Port`, `QueryPort`, `Defaultmap`, `Maxplayers` and `Additional` strings, and `PortIncrements` are read by the host, not by the modelled logic. The example settings in `ArgumentsExample` take their ports and player count from them.
- LaunchArgs.ArgumentsTokenise: the reader cuts at spaces and ignores the target binary's quote handling. The round trip is therefore stated only for values without spaces, and it does not show how the binary parses a name with embedded spaces.
