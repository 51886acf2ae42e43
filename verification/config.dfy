/** The server's runtime configuration file `enshrouded_server.json`, as the
    ordered key/value record the adapter serialises (the JSON text itself is
    not modelled). Two projections of the settings exist: the one written
    right after installation and the one written on every refresh. */
module RuntimeConfig {
  import opened Wrappers
  import opened Settings

  /** The properties the adapter ever writes. */
  datatype Key = Name | Password | SaveDirectory | LogDirectory | Ip | GamePort | QueryPort | SlotCount

  /** The property's spelling in the file. */
  function KeyName(k: Key): string {
    match k
    case Name => "name"
    case Password => "password"
    case SaveDirectory => "saveDirectory"
    case LogDirectory => "logDirectory"
    case Ip => "ip"
    case GamePort => "gamePort"
    case QueryPort => "queryPort"
    case SlotCount => "slotCount"
  }

  datatype Entry = Entry(key: Key, value: string)

  /** Entries in serialisation order (anonymous-object property order). */
  type Config = seq<Entry>

  const ConfigFileName := "enshrouded_server.json"

  /** Keys of the install-time record, in order. */
  const InstallKeys: seq<Key> :=
    [Name, Password, SaveDirectory, LogDirectory, Ip, GamePort, QueryPort, SlotCount]

  /** Keys of the refresh record, in order. */
  const RefreshKeys: seq<Key> := [Name, Ip, GamePort, QueryPort, SlotCount]

  /** The refresh keys as a set. */
  const RefreshKeySet: set<Key> := {Name, Ip, GamePort, QueryPort, SlotCount}

  /** The keys only the install-time record carries. */
  const InstallOnlyKeys: set<Key> := {Password, SaveDirectory, LogDirectory}

  function Keys(c: Config): (ks: seq<Key>)
    ensures |ks| == |c|
    ensures forall i :: 0 <= i < |c| ==> ks[i] == c[i].key
  {
    seq(|c|, i requires 0 <= i < |c| => c[i].key)
  }

  /** The value stored under `k` (the first one, should the key repeat). */
  function Lookup(c: Config, k: Key): Option<string> {
    if c == [] then None
    else if c[0].key == k then Some(c[0].value)
    else Lookup(c[1..], k)
  }

  /** A JSON object: no key appears twice. */
  predicate UniqueKeys(c: Config) {
    forall i, j :: 0 <= i < j < |c| ==> c[i].key != c[j].key
  }

  /** The entries of `c` whose key is in `ks`, order kept. */
  function Restrict(c: Config, ks: set<Key>): Config {
    if c == [] then []
    else if c[0].key in ks then [c[0]] + Restrict(c[1..], ks)
    else Restrict(c[1..], ks)
  }

  /** The record written once after installation: three fixed defaults,
      the other five copied from the settings. */
  function InstallConfig(d: ServerConfig): (c: Config)
    ensures Keys(c) == InstallKeys
  {
    [ Entry(Name, d.serverName),
      Entry(Password, ""),
      Entry(SaveDirectory, "./savegame"),
      Entry(LogDirectory, "./logs"),
      Entry(Ip, d.serverIP),
      Entry(GamePort, d.serverPort),
      Entry(QueryPort, d.serverQueryPort),
      Entry(SlotCount, d.serverMaxPlayer) ]
  }

  /** The record written on every refresh: the five settings-derived fields. */
  function RefreshConfig(d: ServerConfig): (c: Config)
    ensures Keys(c) == RefreshKeys
  {
    [ Entry(Name, d.serverName),
      Entry(Ip, d.serverIP),
      Entry(GamePort, d.serverPort),
      Entry(QueryPort, d.serverQueryPort),
      Entry(SlotCount, d.serverMaxPlayer) ]
  }

  /** The settings field a shared key is copied from; none for the
      install-only keys. */
  function SettingFor(d: ServerConfig, k: Key): (v: Option<string>)
    ensures v.Some? <==> k in RefreshKeys
  {
    match k
    case Name => Some(d.serverName)
    case Ip => Some(d.serverIP)
    case GamePort => Some(d.serverPort)
    case QueryPort => Some(d.serverQueryPort)
    case SlotCount => Some(d.serverMaxPlayer)
    case _ => None
  }

  /** Distinct properties are spelled differently in the file. */
  lemma KeyNameInjective(k1: Key, k2: Key)
    requires KeyName(k1) == KeyName(k2)
    ensures k1 == k2
  {
    var n1, n2 := KeyName(k1), KeyName(k2);
    assert |n1| == |n2|;
    assert n1[0] == n2[0];
  }

  /** A key looks up a value exactly when it is one of the record's keys,
      and the value found is stored under that key. */
  lemma {:induction false} LookupFindsKey(c: Config, k: Key)
    ensures Lookup(c, k).None? <==> k !in Keys(c)
    ensures Lookup(c, k).Some? ==> Entry(k, Lookup(c, k).value) in c
  {
    if c != [] {
      LookupFindsKey(c[1..], k);
      assert Keys(c) == [c[0].key] + Keys(c[1..]);
    }
  }

  /** In a record without repeated keys, every entry is what its key looks up. */
  lemma {:induction false} LookupUnique(c: Config, i: int)
    requires UniqueKeys(c)
    requires 0 <= i < |c|
    ensures Lookup(c, c[i].key) == Some(c[i].value)
  {
    if i > 0 {
      assert c[0].key != c[i].key;
      assert c[1..][i - 1] == c[i];
      LookupUnique(c[1..], i - 1);
    }
  }

  /** Restriction keeps exactly the lookups of the kept keys. */
  lemma {:induction false} RestrictLookup(c: Config, ks: set<Key>, k: Key)
    ensures Lookup(Restrict(c, ks), k) == if k in ks then Lookup(c, k) else None
  {
    if c != [] {
      RestrictLookup(c[1..], ks, k);
    }
  }

  /** Every entry restriction keeps is an entry of the record under one of
      the kept keys; every such entry is kept. */
  lemma {:induction false} RestrictEntries(c: Config, ks: set<Key>, e: Entry)
    ensures e in Restrict(c, ks) <==> e in c && e.key in ks
  {
    if c != [] {
      RestrictEntries(c[1..], ks, e);
      assert c == [c[0]] + c[1..];
    }
  }

  /** Restriction distributes over concatenation. */
  lemma {:induction false} RestrictAppend(a: Config, b: Config, ks: set<Key>)
    ensures Restrict(a + b, ks) == Restrict(a, ks) + Restrict(b, ks)
  {
    if a == [] {
      assert a + b == b;
    } else {
      assert (a + b)[1..] == a[1..] + b;
      RestrictAppend(a[1..], b, ks);
    }
  }

  /** Restricting to keys the record wholly lies within changes nothing. */
  lemma {:induction false} RestrictAllKept(c: Config, ks: set<Key>)
    requires forall i :: 0 <= i < |c| ==> c[i].key in ks
    ensures Restrict(c, ks) == c
  {
    if c != [] {
      RestrictAllKept(c[1..], ks);
    }
  }

  /** Restricting to keys the record wholly avoids leaves nothing. */
  lemma {:induction false} RestrictNoneKept(c: Config, ks: set<Key>)
    requires forall i :: 0 <= i < |c| ==> c[i].key !in ks
    ensures Restrict(c, ks) == []
  {
    if c != [] {
      RestrictNoneKept(c[1..], ks);
    }
  }

  /** The install-time record has exactly the eight keys, in order, once each. */
  lemma InstallConfigShape(d: ServerConfig)
    ensures Keys(InstallConfig(d)) == InstallKeys
    ensures UniqueKeys(InstallConfig(d))
  {
    assert Keys(InstallConfig(d)) == InstallKeys;
  }

  /** The three install-only fields hold fixed defaults, whatever the settings. */
  lemma InstallConfigDefaults(d: ServerConfig)
    ensures Lookup(InstallConfig(d), Password) == Some("")
    ensures Lookup(InstallConfig(d), SaveDirectory) == Some("./savegame")
    ensures Lookup(InstallConfig(d), LogDirectory) == Some("./logs")
  {
    var c := InstallConfig(d);
    InstallConfigShape(d);
    LookupUnique(c, 1);
    LookupUnique(c, 2);
    LookupUnique(c, 3);
  }

  /** The other five fields are copied from the settings. */
  lemma InstallConfigCopiesSettings(d: ServerConfig, k: Key)
    requires k in RefreshKeys
    ensures Lookup(InstallConfig(d), k) == SettingFor(d, k)
  {
    var c := InstallConfig(d);
    InstallConfigShape(d);
    match k
    case Name => LookupUnique(c, 0);
    case Ip => LookupUnique(c, 4);
    case GamePort => LookupUnique(c, 5);
    case QueryPort => LookupUnique(c, 6);
    case SlotCount => LookupUnique(c, 7);
  }

  /** Under each key the refresh record holds the settings value, if any. */
  lemma RefreshLookup(d: ServerConfig, k: Key)
    ensures Lookup(RefreshConfig(d), k) == SettingFor(d, k)
  {
    var c := RefreshConfig(d);
    assert UniqueKeys(c) by {
      assert Keys(c) == RefreshKeys;
    }
    match k
    case Name => LookupUnique(c, 0);
    case Ip => LookupUnique(c, 1);
    case GamePort => LookupUnique(c, 2);
    case QueryPort => LookupUnique(c, 3);
    case SlotCount => LookupUnique(c, 4);
    case _ => LookupFindsKey(c, k);
  }

  /** The refresh record has exactly the five keys, once each, holding the
      settings values, and none of the install-only keys. */
  lemma RefreshConfigShape(d: ServerConfig)
    ensures Keys(RefreshConfig(d)) == RefreshKeys
    ensures UniqueKeys(RefreshConfig(d))
    ensures forall k :: Lookup(RefreshConfig(d), k) == SettingFor(d, k)
  {
    var c := RefreshConfig(d);
    assert UniqueKeys(c) by {
      assert Keys(c) == RefreshKeys;
    }
    forall k ensures Lookup(c, k) == SettingFor(d, k) {
      RefreshLookup(d, k);
    }
  }

  /** The refresh record is the install-time record cut down to the five
      refresh keys: same values, same order, install-only fields gone. */
  lemma RefreshIsRestrictedInstall(d: ServerConfig)
    ensures RefreshConfig(d) == Restrict(InstallConfig(d), RefreshKeySet)
  {
    var ks := RefreshKeySet;
    var c := InstallConfig(d);
    var head, mid, rest := c[..1], c[1..4], c[4..];
    assert Restrict(c, ks) == Restrict(head, ks) + Restrict(mid, ks) + Restrict(rest, ks) by {
      assert c == head + mid + rest;
      RestrictAppend(head + mid, rest, ks);
      RestrictAppend(head, mid, ks);
    }
    assert Restrict(head, ks) == head by {
      RestrictAllKept(head, ks);
    }
    assert Restrict(mid, ks) == [] by {
      RestrictNoneKept(mid, ks);
    }
    assert Restrict(rest, ks) == rest by {
      RestrictAllKept(rest, ks);
    }
    assert RefreshConfig(d) == head + rest;
  }

  /** Refresh and install agree on every shared key; under an install-only
      key the install-time record has a value and the refresh record none. */
  lemma RefreshAgreesWithInstall(d: ServerConfig, k: Key)
    ensures k in RefreshKeys ==> Lookup(RefreshConfig(d), k) == Lookup(InstallConfig(d), k)
    ensures k in InstallOnlyKeys ==> Lookup(InstallConfig(d), k).Some? && Lookup(RefreshConfig(d), k) == None
  {
    var c, r := InstallConfig(d), RefreshConfig(d);
    assert Lookup(r, k) == if k in RefreshKeys then Lookup(c, k) else None by {
      assert k in RefreshKeys <==> k in RefreshKeySet;
      RefreshIsRestrictedInstall(d);
      RestrictLookup(c, RefreshKeySet, k);
    }
    if k in InstallOnlyKeys {
      InstallConfigDefaults(d);
    }
  }
}
