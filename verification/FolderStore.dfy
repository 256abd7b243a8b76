/** Creating, editing and removing Folders: the registry file and the configuration files (src/desktop.rs). */
module FolderStore {
  import opened Wrappers
  import opened Model
  import opened Folders

  const MAX_BRIDGES: nat := 256

  datatype ServerConfig = Filesystem(inbox: Path) | Http(baseUrl: string, allowInsecure: bool)

  datatype Config = Config(
    deviceId: string,
    libraryDir: Path,
    stateFile: Path,
    server: ServerConfig,
    directorySync: bool,
    connection: ConnectionState)

  datatype Registration = Registration(id: string, name: string, configPath: Path, autoReceive: bool)

  datatype Refusal =
    | ConfigUnreadable | NotConnected | ServerFixed | InvalidConfig | ResourceConflict | RegistryRefused | ConfigExists
    | NotRegistered | NotRemovable | WriteFailed

  /** The ways the outside world enters: link resolution, URL normalisation, and the remaining validation. */
  datatype Environment = Environment(
    comparable: Path -> Path,
    endpoint: string -> string,
    scoped: Config -> bool,
    acceptable: Config -> bool,
    acceptableName: string -> bool)

  predicate IsDeviceId(id: string) {
    ValidDeliveryId(id)
  }

  predicate ValidConfig(env: Environment, c: Config) {
    IsDeviceId(c.deviceId) && (c.directorySync ==> c.server.Http?) && env.acceptable(c)
  }

  /** The directory beside the state file. */
  function DirectoryStateDir(c: Config): Path {
    if c.stateFile == [] then [".directory"]
    else c.stateFile[..|c.stateFile| - 1] + [c.stateFile[|c.stateFile| - 1] + ".directory"]
  }

  function ResourcesOf(env: Environment, c: Config): BridgeResources {
    BridgeResources(
      env.comparable(c.libraryDir), env.comparable(c.stateFile), c.deviceId,
      if c.server.Filesystem? then Some(env.comparable(c.server.inbox)) else None,
      if c.server.Http? then Some(env.endpoint(c.server.baseUrl)) else None,
      if c.directorySync then Some(env.comparable(DirectoryStateDir(c))) else None)
  }

  /**
   For a valid configuration the checks leave no overlap among a Folder's own places,
   but one: the state file may resolve into the directory of directory-sync state. It
   cannot while neither of the two is reached through a link.
   */
  lemma OwnPlacesApart(env: Environment, c: Config)
    requires ValidConfig(env, c) && SelfResourceProblem(ResourcesOf(env, c)) == None
    ensures var r := ResourcesOf(env, c);
            && (forall x :: !(StartsWith(x, r.libraryDir) && (Within(x, r.filesystemInbox) || Within(x, r.directoryState))))
            && (forall x :: !(Within(x, r.filesystemInbox) && Within(x, r.directoryState)))
            && !StartsWith(r.stateFile, r.libraryDir) && !Within(r.stateFile, r.filesystemInbox)
            && (Within(r.stateFile, r.directoryState) ==>
                  env.comparable(c.stateFile) != c.stateFile || env.comparable(DirectoryStateDir(c)) != DirectoryStateDir(c))
  {
    var r := ResourcesOf(env, c);
    SelfProblemIsExact(r);
    if c.directorySync && c.stateFile != [] {
      var last := |c.stateFile| - 1;
      var dir := DirectoryStateDir(c);
      assert dir[last] == c.stateFile[last] + ".directory";
      assert dir[last] != c.stateFile[last] by {
        assert |dir[last]| > |c.stateFile[last]|;
      }
      assert |dir| == |c.stateFile| && dir != c.stateFile;
    }
  }

  predicate UniqueRegistrations(bridges: seq<Registration>) {
    forall i, j | 0 <= i < j < |bridges| :: bridges[i].id != bridges[j].id && bridges[i].configPath != bridges[j].configPath
  }

  function ConfigPaths(bridges: seq<Registration>): set<Path> {
    set i | 0 <= i < |bridges| :: bridges[i].configPath
  }

  /** Among the Folders whose configuration can be read, no two conflict and none conflicts with itself. */
  predicate Separated(env: Environment, bridges: seq<Registration>, configs: map<Path, Config>) {
    && (forall i | 0 <= i < |bridges| && bridges[i].configPath in configs ::
          SelfResourceProblem(ResourcesOf(env, configs[bridges[i].configPath])) == None)
    && forall i, j | 0 <= i < j < |bridges| && bridges[i].configPath in configs && bridges[j].configPath in configs ::
         ResourceProblem(ResourcesOf(env, configs[bridges[i].configPath]), ResourcesOf(env, configs[bridges[j].configPath])) == None
  }

  /** The candidate fits beside every registered Folder but `except`, and all of those can be read. */
  ghost predicate Fits(env: Environment, bridges: seq<Registration>, configs: map<Path, Config>,
                       candidate: BridgeResources, except: Option<string>) {
    && SelfResourceProblem(candidate) == None
    && forall i | 0 <= i < |bridges| && Some(bridges[i].id) != except ::
         && bridges[i].configPath in configs
         && ResourceProblem(candidate, ResourcesOf(env, configs[bridges[i].configPath])) == None
  }

  // ------------------------------------------------ separation, configuration by configuration

  /** The places that a configuration claims: library, state file, inbox, and the directory of directory-sync state. */
  predicate Claims(env: Environment, c: Config, x: Path) {
    || env.comparable(c.libraryDir) <= x
    || x == env.comparable(c.stateFile)
    || (c.server.Filesystem? && env.comparable(c.server.inbox) <= x)
    || (c.directorySync && env.comparable(BesideState(c)) <= x)
  }

  /** The state file's path with `.directory` appended to its last component. */
  function BesideState(c: Config): Path {
    var n := |c.stateFile|;
    if n == 0 then [".directory"] else c.stateFile[n - 1 := c.stateFile[n - 1] + ".directory"]
  }

  /** Two configurations share no place, no device and no queue of a server. */
  ghost predicate ConfigsApart(env: Environment, a: Config, b: Config) {
    && (forall x :: !(Claims(env, a, x) && Claims(env, b, x)))
    && a.deviceId != b.deviceId
    && (a.server.Http? && b.server.Http? ==> env.endpoint(a.server.baseUrl) != env.endpoint(b.server.baseUrl))
  }

  /** Neither of library and inbox lies within the other or holds the state file, and the directory state is no part of the library. */
  predicate ConfigTidy(env: Environment, c: Config) {
    var (library, state) := (env.comparable(c.libraryDir), env.comparable(c.stateFile));
    && !(library <= state)
    && (c.server.Filesystem? ==>
          var inbox := env.comparable(c.server.inbox); !(inbox <= state) && !(inbox <= library) && !(library <= inbox))
    && (c.directorySync ==> var beside := env.comparable(BesideState(c)); !(beside <= library) && !(library <= beside))
  }

  lemma ClaimsAreOwned(env: Environment, c: Config, x: Path)
    ensures Claims(env, c, x) <==> Owns(ResourcesOf(env, c), x)
  {
    assert BesideState(c) == DirectoryStateDir(c);
  }

  lemma ApartByConfig(env: Environment, a: Config, b: Config)
    ensures ConfigsApart(env, a, b) <==> Apart(ResourcesOf(env, a), ResourcesOf(env, b))
  {
    forall x
      ensures Claims(env, a, x) <==> Owns(ResourcesOf(env, a), x)
      ensures Claims(env, b, x) <==> Owns(ResourcesOf(env, b), x)
    {
      ClaimsAreOwned(env, a, x);
      ClaimsAreOwned(env, b, x);
    }
    hide Claims, Owns;
  }

  lemma TidyByConfig(env: Environment, c: Config)
    ensures ConfigTidy(env, c) <==> Tidy(ResourcesOf(env, c))
  {
    hide Tidy;
    assert BesideState(c) == DirectoryStateDir(c);
    SelfProblemIsExact(ResourcesOf(env, c));
  }

  /** What the registry asks of a candidate, said of the configurations themselves. */
  lemma FitsMeans(env: Environment, bridges: seq<Registration>, configs: map<Path, Config>, c: Config, except: Option<string>)
    ensures Fits(env, bridges, configs, ResourcesOf(env, c), except) <==>
              (&& ConfigTidy(env, c)
               && forall i | 0 <= i < |bridges| && Some(bridges[i].id) != except ::
                    bridges[i].configPath in configs && ConfigsApart(env, c, configs[bridges[i].configPath]))
  {
    hide ResourceProblem, SelfResourceProblem, ResourcesOf, Apart, Tidy, ConfigsApart, ConfigTidy;
    TidyByConfig(env, c);
    SelfProblemIsExact(ResourcesOf(env, c));
    forall i | 0 <= i < |bridges| && bridges[i].configPath in configs
      ensures ConfigsApart(env, c, configs[bridges[i].configPath])
              <==> ResourceProblem(ResourcesOf(env, c), ResourcesOf(env, configs[bridges[i].configPath])) == None
    {
      ApartByConfig(env, c, configs[bridges[i].configPath]);
      ResourceProblemIsExact(ResourcesOf(env, c), ResourcesOf(env, configs[bridges[i].configPath]));
    }
  }

  lemma AddingKeepsApart(env: Environment, bridges: seq<Registration>, configs: map<Path, Config>, added: Registration, c: Config)
    requires Separated(env, bridges, configs) && UniqueRegistrations(bridges + [added])
    requires Fits(env, bridges, configs, ResourcesOf(env, c), None)
    requires added.configPath in configs ==> configs[added.configPath] == c
    ensures Separated(env, bridges + [added], configs)
  {
    hide ResourceProblem, SelfResourceProblem, ResourcesOf;
    var all := bridges + [added];
    forall i, j | 0 <= i < j < |all| && all[i].configPath in configs && all[j].configPath in configs
      ensures ResourceProblem(ResourcesOf(env, configs[all[i].configPath]), ResourcesOf(env, configs[all[j].configPath])) == None
    {
      ResourceProblemIsSymmetric(ResourcesOf(env, configs[all[i].configPath]), ResourcesOf(env, configs[all[j].configPath]));
    }
  }

  lemma ReplacingKeepsApart(env: Environment, bridges: seq<Registration>, configs: map<Path, Config>, k: nat, c: Config)
    requires Separated(env, bridges, configs) && UniqueRegistrations(bridges) && k < |bridges|
    requires Fits(env, bridges, configs, ResourcesOf(env, c), Some(bridges[k].id))
    ensures Separated(env, bridges, configs[bridges[k].configPath := c])
  {
    hide ResourceProblem, SelfResourceProblem, ResourcesOf;
    var after := configs[bridges[k].configPath := c];
    forall i, j | 0 <= i < j < |bridges| && bridges[i].configPath in after && bridges[j].configPath in after
      ensures ResourceProblem(ResourcesOf(env, after[bridges[i].configPath]), ResourcesOf(env, after[bridges[j].configPath])) == None
    {
      ResourceProblemIsSymmetric(ResourcesOf(env, after[bridges[i].configPath]), ResourcesOf(env, after[bridges[j].configPath]));
    }
  }

  /** Only paths, configurations and their order matter. */
  lemma SameFolders(env: Environment, a: seq<Registration>, b: seq<Registration>, configs: map<Path, Config>)
    requires Separated(env, a, configs) && |a| == |b| && forall i | 0 <= i < |a| :: a[i].configPath == b[i].configPath
    ensures Separated(env, b, configs)
  {
    hide ResourceProblem, SelfResourceProblem, ResourcesOf;
  }

  lemma FreshKeepsApart(env: Environment, bridges: seq<Registration>, configs: map<Path, Config>, path: Path, c: Config)
    requires Separated(env, bridges, configs) && path !in ConfigPaths(bridges)
    ensures Separated(env, bridges, configs[path := c])
  {
    hide ResourceProblem, SelfResourceProblem, ResourcesOf;
    forall i | 0 <= i < |bridges| ensures bridges[i].configPath != path {
      assert bridges[i].configPath in ConfigPaths(bridges);
    }
  }

  lemma RemovingKeepsApart(env: Environment, bridges: seq<Registration>, configs: map<Path, Config>, k: nat)
    requires Separated(env, bridges, configs) && UniqueRegistrations(bridges) && k < |bridges|
    ensures Separated(env, bridges[..k] + bridges[k + 1..], configs) && UniqueRegistrations(bridges[..k] + bridges[k + 1..])
  {
    hide ResourceProblem, SelfResourceProblem, ResourcesOf;
  }

  // --------------------------------------------------------------------- the store

  /** One step of another process, seen from a create that is under way for the fresh path `mine`. */
  predicate LeavesAlone(mine: Path, bridges: seq<Registration>, configs: map<Path, Config>,
                              bridges': seq<Registration>, configs': map<Path, Config>) {
    && (mine !in ConfigPaths(bridges) ==> mine !in ConfigPaths(bridges'))
    && (mine in configs <==> mine in configs') && (mine in configs ==> configs'[mine] == configs[mine])
  }

  predicate CanAdd(bridges: seq<Registration>, added: Registration) {
    |bridges| < MAX_BRIDGES && forall i | 0 <= i < |bridges| :: bridges[i].id != added.id && bridges[i].configPath != added.configPath
  }

  /** A new Folder may be created: valid, in nobody's way, and not there yet. */
  ghost predicate Creatable(env: Environment, bridges: seq<Registration>, configs: map<Path, Config>, added: Registration, c: Config) {
    && ConfigAllowed(env, c) && Fits(env, bridges, configs, ResourcesOf(env, c), None) && RoomFor(bridges, added)
    && added.configPath !in configs
  }

  /** A plain device id, directory synchronisation only over HTTP, and whatever else is asked of a configuration. */
  predicate ConfigAllowed(env: Environment, c: Config) {
    && 1 <= |c.deviceId| <= 128
    && (forall ch | ch in c.deviceId :: 'a' <= ch <= 'z' || 'A' <= ch <= 'Z' || '0' <= ch <= '9' || ch == '-' || ch == '_')
    && !(c.directorySync && c.server.Filesystem?) && env.acceptable(c)
  }

  /** Fewer than 256 Folders, none with this id or this configuration file. */
  predicate RoomFor(bridges: seq<Registration>, added: Registration) {
    |bridges| < 256 && !exists b | b in bridges :: b.id == added.id || b.configPath == added.configPath
  }

  lemma RoomToAdd(bridges: seq<Registration>, added: Registration)
    ensures RoomFor(bridges, added) <==> CanAdd(bridges, added)
  {
    if CanAdd(bridges, added) {
      forall b | b in bridges ensures b.id != added.id && b.configPath != added.configPath {
        var i :| 0 <= i < |bridges| && bridges[i] == b;
      }
    }
    if RoomFor(bridges, added) {
      assert forall i | 0 <= i < |bridges| :: bridges[i] in bridges;
    }
  }

  /** The server of Folder `k` may be changed: connected, not tied to its server, and in nobody's way. */
  ghost predicate Editable(env: Environment, bridges: seq<Registration>, configs: map<Path, Config>, k: nat,
                           name: string, baseUrl: string, allowInsecure: bool)
    requires k < |bridges|
  {
    && env.acceptableName(name) && bridges[k].configPath in configs
    && var before := configs[bridges[k].configPath];
       var after := before.(server := Http(baseUrl, allowInsecure));
    && before.connection == Connected
    && (before.directorySync ==> before.server.Http? && before.server.baseUrl == baseUrl)
    && ConfigAllowed(env, after) && Fits(env, bridges, configs, ResourcesOf(env, after), Some(bridges[k].id))
  }

  predicate Removable(env: Environment, c: Config) {
    !env.scoped(c) || c.connection == Disconnected || c.connection == Exited
  }

  class Store {
    const env: Environment
    var bridges: seq<Registration>
    var configs: map<Path, Config>

    ghost predicate Valid()
      reads this
    {
      UniqueRegistrations(bridges) && |bridges| <= MAX_BRIDGES && Separated(env, bridges, configs)
    }

    constructor (env: Environment, configs: map<Path, Config>)
      ensures Valid() && bridges == [] && this.configs == configs && this.env == env
    {
      this.env := env;
      bridges := [];
      this.configs := configs;
    }

    method EnsureResourcesUnique(candidate: BridgeResources, except: Option<string>) returns (ok: bool)
      ensures ok <==> Fits(env, bridges, configs, candidate, except)
    {
      hide ResourceProblem, SelfResourceProblem, ResourcesOf;
      if SelfResourceProblem(candidate) != None {
        return false;
      }
      for i := 0 to |bridges|
        invariant forall j | 0 <= j < i && Some(bridges[j].id) != except ::
                    bridges[j].configPath in configs && ResourceProblem(candidate, ResourcesOf(env, configs[bridges[j].configPath])) == None
      {
        if Some(bridges[i].id) != except {
          if bridges[i].configPath !in configs {
            return false;
          }
          if ResourceProblem(candidate, ResourcesOf(env, configs[bridges[i].configPath])) != None {
            return false;
          }
        }
      }
      ok := true;
    }

    method Find(id: string) returns (k: nat)
      ensures k <= |bridges| && (k < |bridges| ==> bridges[k].id == id)
      ensures k == |bridges| ==> forall i | 0 <= i < |bridges| :: bridges[i].id != id
    {
      k := 0;
      while k < |bridges| && bridges[k].id != id
        invariant 0 <= k <= |bridges| && forall i | 0 <= i < k :: bridges[i].id != id
      {
        k := k + 1;
      }
    }

    /** What other processes do between two steps of one create. */
    method Interfere(mine: Path)
      requires Valid()
      modifies this`bridges, this`configs
      ensures Valid() && LeavesAlone(mine, old(bridges), old(configs), bridges, configs)
    {
      var b: seq<Registration> := *;
      var c: map<Path, Config> := *;
      if UniqueRegistrations(b) && |b| <= MAX_BRIDGES && Separated(env, b, c) && LeavesAlone(mine, bridges, configs, b, c) {
        bridges, configs := b, c;
      }
    }

    /** Writing one configuration file; on failure it may or may not have been replaced. */
    method WriteConfig(path: Path, c: Config) returns (ok: bool)
      modifies this`configs
      ensures ok ==> configs == old(configs)[path := c]
      ensures configs == old(configs) || configs == old(configs)[path := c]
    {
      ok := *;
      var replaced: bool := *;
      if ok || replaced {
        configs := configs[path := c];
      }
    }

    method WriteRegistry(b: seq<Registration>) returns (ok: bool)
      modifies this`bridges
      ensures ok ==> bridges == b
      ensures bridges == old(bridges) || bridges == b
    {
      ok := *;
      var replaced: bool := *;
      if ok || replaced {
        bridges := b;
      }
    }

    /**
     The configuration is written before the registry is locked, so others may act in
     between; the check is made again under the lock.
     */
    method CreateBridge(added: Registration, config: Config) returns (r: Result<(), Refusal>)
      requires Valid()
      modifies this`bridges, this`configs
      ensures Valid()
      ensures r.Ok? ==> && |bridges| > 0 && bridges[|bridges| - 1] == added && ConfigAllowed(env, config)
                        && added.configPath in configs && configs[added.configPath] == config
                        && added.configPath !in old(configs)
      ensures added.configPath in old(configs) ==>
                added.configPath in configs && configs[added.configPath] == old(configs)[added.configPath]
      ensures !Creatable(env, old(bridges), old(configs), added, config) ==>
                r.Err? && r.error != WriteFailed && bridges == old(bridges) && configs == old(configs)
      ensures r.Err? && r.error != WriteFailed && Creatable(env, old(bridges), old(configs), added, config) ==>
                && added.configPath !in ConfigPaths(bridges)
                && !(Fits(env, bridges, configs, ResourcesOf(env, config), None) && RoomFor(bridges, added))
    {
      hide Separated, Fits, ResourcesOf, ResourceProblem, SelfResourceProblem;
      if !ValidConfig(env, config) {
        return Err(InvalidConfig);
      }
      var candidate := ResourcesOf(env, config);
      var ok := EnsureResourcesUnique(candidate, None);
      if !ok {
        return Err(ResourceConflict);
      }
      RoomToAdd(bridges, added);
      if !CanAdd(bridges, added) {
        return Err(RegistryRefused);
      }
      if added.configPath in configs {
        return Err(ConfigExists);
      }
      assert added.configPath !in ConfigPaths(bridges);
      FreshKeepsApart(env, bridges, configs, added.configPath, config);
      ok := WriteConfig(added.configPath, config);
      if !ok {
        return Err(WriteFailed);
      }
      Interfere(added.configPath);
      ok := EnsureResourcesUnique(candidate, None);
      if !ok {
        return Err(ResourceConflict);
      }
      RoomToAdd(bridges, added);
      if !CanAdd(bridges, added) {
        return Err(RegistryRefused);
      }
      AddingKeepsApart(env, bridges, configs, added, config);
      ok := WriteRegistry(bridges + [added]);
      r := if ok then Ok(()) else Err(WriteFailed);
    }

    /** Registers a configuration file that exists already, under the registry lock. */
    method ImportConfig(added: Registration) returns (r: Result<(), Refusal>)
      requires Valid()
      modifies this`bridges
      ensures Valid()
      ensures r.Ok? ==> added.configPath in ConfigPaths(bridges) && added.configPath in configs
      ensures bridges == old(bridges) || bridges == old(bridges) + [added]
      ensures r.Err? && r.error != WriteFailed ==>
                && bridges == old(bridges)
                && !(added.configPath in configs && RoomFor(bridges, added)
                     && Fits(env, bridges, configs, ResourcesOf(env, configs[added.configPath]), None))
    {
      hide Separated, Fits, ResourcesOf, ResourceProblem, SelfResourceProblem;
      if added.configPath !in configs {
        return Err(ConfigUnreadable);
      }
      if added.configPath in ConfigPaths(bridges) {
        return Ok(());
      }
      var ok := EnsureResourcesUnique(ResourcesOf(env, configs[added.configPath]), None);
      if !ok {
        return Err(ResourceConflict);
      }
      RoomToAdd(bridges, added);
      if !CanAdd(bridges, added) {
        return Err(RegistryRefused);
      }
      AddingKeepsApart(env, bridges, configs, added, configs[added.configPath]);
      ok := WriteRegistry(bridges + [added]);
      r := if ok then Ok(()) else Err(WriteFailed);
      if ok {
        assert bridges[|bridges| - 1].configPath in ConfigPaths(bridges);
      }
    }

    /**
     Changes the server of a connected Folder. Configuration and registry are two
     files: either may have been replaced when writing fails.
     */
    method UpdateBridge(id: string, name: string, baseUrl: string, allowInsecure: bool, autoReceive: bool)
      returns (r: Result<(), Refusal>, ghost k: nat)
      requires Valid()
      modifies this`bridges, this`configs
      ensures Valid()
      ensures k <= |old(bridges)| && (k < |old(bridges)| ==> old(bridges)[k].id == id)
      ensures k == |old(bridges)| ==> forall i | 0 <= i < |old(bridges)| :: old(bridges)[i].id != id
      ensures r.Ok? || r.error == WriteFailed <==>
                k < |old(bridges)| && Editable(env, old(bridges), old(configs), k, name, baseUrl, allowInsecure)
      ensures r.Ok? || r.error == WriteFailed ==>
                var path := old(bridges)[k].configPath;
                && (|| configs == old(configs)
                    || configs == old(configs)[path := old(configs)[path].(server := Http(baseUrl, allowInsecure))])
                && (|| bridges == old(bridges)
                    || bridges == old(bridges)[k := old(bridges)[k].(name := name, autoReceive := autoReceive)])
      ensures r.Ok? ==>
                var path := old(bridges)[k].configPath;
                && configs == old(configs)[path := old(configs)[path].(server := Http(baseUrl, allowInsecure))]
                && bridges == old(bridges)[k := old(bridges)[k].(name := name, autoReceive := autoReceive)]
      ensures r.Err? && r.error != WriteFailed ==> bridges == old(bridges) && configs == old(configs)
    {
      hide Separated, Fits, ResourcesOf, ResourceProblem, SelfResourceProblem;
      var found := Find(id);
      k := found;
      if found == |bridges| || !env.acceptableName(name) {
        return Err(NotRegistered), k;
      }
      var registration := bridges[found];
      if registration.configPath !in configs {
        return Err(ConfigUnreadable), k;
      }
      var config := configs[registration.configPath];
      if config.connection != Connected {
        return Err(NotConnected), k;
      }
      if config.directorySync {
        if config.server.Filesystem? {
          return Err(InvalidConfig), k;
        }
        if config.server.baseUrl != baseUrl {
          return Err(ServerFixed), k;
        }
      }
      config := config.(server := Http(baseUrl, allowInsecure));
      if !ValidConfig(env, config) {
        return Err(InvalidConfig), k;
      }
      var ok := EnsureResourcesUnique(ResourcesOf(env, config), Some(id));
      if !ok {
        return Err(ResourceConflict), k;
      }
      ReplacingKeepsApart(env, bridges, configs, found, config);
      ok := WriteConfig(registration.configPath, config);
      if !ok {
        return Err(WriteFailed), k;
      }
      var edited := bridges[found := registration.(name := name, autoReceive := autoReceive)];
      SameFolders(env, bridges, edited, configs);
      ok := WriteRegistry(edited);
      r := if ok then Ok(()) else Err(WriteFailed);
    }

    method RemoveBridge(id: string) returns (r: Result<(), Refusal>, ghost k: nat)
      requires Valid()
      modifies this`bridges
      ensures Valid()
      ensures k <= |old(bridges)| && (k < |old(bridges)| ==> old(bridges)[k].id == id)
      ensures k == |old(bridges)| ==> forall i | 0 <= i < |old(bridges)| :: old(bridges)[i].id != id
      ensures r.Ok? || r.error == WriteFailed <==>
                && k < |old(bridges)| && old(bridges)[k].configPath in configs
                && (var c := configs[old(bridges)[k].configPath];
                    !env.scoped(c) || c.connection == Disconnected || c.connection == Exited)
      ensures r.Ok? || r.error == WriteFailed ==>
                bridges == old(bridges) || bridges == old(bridges)[..k] + old(bridges)[k + 1..]
      ensures r.Ok? ==> bridges == old(bridges)[..k] + old(bridges)[k + 1..]
      ensures r.Err? && r.error != WriteFailed ==> bridges == old(bridges)
    {
      hide Separated, Fits, ResourcesOf, ResourceProblem, SelfResourceProblem;
      var found := Find(id);
      k := found;
      if found == |bridges| {
        return Err(NotRegistered), k;
      }
      if bridges[found].configPath !in configs {
        return Err(ConfigUnreadable), k;
      }
      if !Removable(env, configs[bridges[found].configPath]) {
        return Err(NotRemovable), k;
      }
      RemovingKeepsApart(env, bridges, configs, found);
      var ok := WriteRegistry(bridges[..found] + bridges[found + 1..]);
      r := if ok then Ok(()) else Err(WriteFailed);
    }

    /** Disconnecting and exiting change nothing but the connection state of a configuration. */
    method SetConnection(path: Path, connection: ConnectionState) returns (ok: bool)
      requires Valid()
      modifies this`configs
      ensures Valid()
      ensures configs == old(configs)
              || (path in old(configs) && configs == old(configs)[path := old(configs)[path].(connection := connection)])
    {
      if path !in configs {
        return false;
      }
      SameResources(env, bridges, configs, path, connection);
      hide Separated;
      ok := WriteConfig(path, configs[path].(connection := connection));
    }

    /** Any number of operations, in any order, with writes that fail. */
    method AnyHistory(operations: nat)
      requires Valid()
      modifies this`bridges, this`configs
      ensures forall i, j | 0 <= i < j < |bridges| && bridges[i].configPath in configs && bridges[j].configPath in configs ::
                ConfigsApart(env, configs[bridges[i].configPath], configs[bridges[j].configPath])
      ensures forall i | 0 <= i < |bridges| && bridges[i].configPath in configs :: ConfigTidy(env, configs[bridges[i].configPath])
    {
      hide Separated, ResourcesOf, ResourceProblem, SelfResourceProblem, ConfigsApart, ConfigTidy;
      for step := 0 to operations
        invariant Valid()
      {
        var choice: int := *;
        var added: Registration := *;
        var config: Config := *;
        var id: string, name: string, url: string := *, *, *;
        var insecure: bool, auto: bool := *, *;
        if choice == 0 {
          var _ := CreateBridge(added, config);
        } else if choice == 1 {
          var _ := ImportConfig(added);
        } else if choice == 2 {
          var _, _ := UpdateBridge(id, name, url, insecure, auto);
        } else if choice == 3 {
          var _, _ := RemoveBridge(id);
        } else {
          var _ := SetConnection(added.configPath, config.connection);
        }
      }
      SeparationMeans(env, bridges, configs);
    }
  }

  lemma SameResources(env: Environment, bridges: seq<Registration>, configs: map<Path, Config>, path: Path, connection: ConnectionState)
    requires Separated(env, bridges, configs) && path in configs
    ensures Separated(env, bridges, configs[path := configs[path].(connection := connection)])
  {
    hide ResourceProblem, SelfResourceProblem;
    assert ResourcesOf(env, configs[path].(connection := connection)) == ResourcesOf(env, configs[path]);
    hide ResourcesOf;
  }

  lemma SeparationMeans(env: Environment, bridges: seq<Registration>, configs: map<Path, Config>)
    requires Separated(env, bridges, configs)
    ensures forall i, j | 0 <= i < j < |bridges| && bridges[i].configPath in configs && bridges[j].configPath in configs ::
              ConfigsApart(env, configs[bridges[i].configPath], configs[bridges[j].configPath])
    ensures forall i | 0 <= i < |bridges| && bridges[i].configPath in configs :: ConfigTidy(env, configs[bridges[i].configPath])
  {
    hide ResourceProblem, SelfResourceProblem, ResourcesOf, Apart, Tidy, ConfigsApart, ConfigTidy;
    forall i, j | 0 <= i < j < |bridges| && bridges[i].configPath in configs && bridges[j].configPath in configs
      ensures ConfigsApart(env, configs[bridges[i].configPath], configs[bridges[j].configPath])
    {
      var (a, b) := (configs[bridges[i].configPath], configs[bridges[j].configPath]);
      ResourceProblemIsExact(ResourcesOf(env, a), ResourcesOf(env, b));
      ApartByConfig(env, a, b);
    }
    forall i | 0 <= i < |bridges| && bridges[i].configPath in configs
      ensures ConfigTidy(env, configs[bridges[i].configPath])
    {
      SelfProblemIsExact(ResourcesOf(env, configs[bridges[i].configPath]));
      TidyByConfig(env, configs[bridges[i].configPath]);
    }
  }
}
