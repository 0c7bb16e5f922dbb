/** The registry of school authorities: what each RPC request makes of it, and what holds
    after any number of requests. */
module Registries {
  import opened Options
  import opened DeepMerge
  import opened Secrets
  import opened Configurations

  /** What is fixed while the service runs: the check of URLs and the loaded plugins. */
  datatype Rules = Rules(isUrl: string -> bool, plugins: set<string>)

  /** `live`: the scan task of the queue is running. */
  datatype Entry = Entry(config: Config, live: bool)

  datatype Registry = Registry(queues: map<string, Entry>, files: map<string, Json>)

  datatype Request = Create(document: Json) | Delete(name: string) | Change(name: string, document: Json)

  /** `Failed` is any exception that is not one of the others. */
  datatype Response = Done | Invalid | Exists | NoObject | Failed

  function FileName(name: string): string {
    name + ".json"
  }

  lemma FileNameIsInjective(a: string, b: string)
    ensures FileName(a) == FileName(b) ==> a == b
  {
    if FileName(a) == FileName(b) {
      assert a == FileName(a)[..|FileName(a)| - 5];
    }
  }

  ghost predicate IsRequest(request: Request) {
    request.Delete? || NoSecrets(request.document)
  }

  /** Every authority is known by its own name and has a checked configuration. */
  ghost predicate Sound(rules: Rules, registry: Registry) {
    forall name :: name in registry.queues ==> SoundAt(rules, registry, name)
  }

  ghost predicate SoundAt(rules: Rules, registry: Registry, name: string)
    requires name in registry.queues
  {
    registry.queues[name].config.name == name && WellFormed(rules.isUrl, registry.queues[name].config)
  }

  predicate AllKnown(rules: Rules, plugins: seq<string>) {
    forall plugin :: plugin in plugins ==> plugin in rules.plugins
  }

  /** How many of the plugins are loaded before the first one that is not. */
  function KnownPrefix(rules: Rules, plugins: seq<string>): (n: nat)
    ensures n <= |plugins|
  {
    if plugins != [] && plugins[0] in rules.plugins then 1 + KnownPrefix(rules, plugins[1..]) else 0
  }

  lemma {:induction false} KnownPrefixIs(rules: Rules, plugins: seq<string>, n: nat)
    requires n <= |plugins| && forall j :: 0 <= j < n ==> plugins[j] in rules.plugins
    requires n < |plugins| ==> plugins[n] !in rules.plugins
    ensures KnownPrefix(rules, plugins) == n
  {
    if n > 0 {
      KnownPrefixIs(rules, plugins[1..], n - 1);
    }
  }

  ghost function Created(rules: Rules, registry: Registry, document: Json): (Registry, Response) {
    match Parse(rules.isUrl, document)
    case None => (registry, Invalid)
    case Some(config) =>
      if config.name in registry.queues then (registry, Exists)
      else (WithNew(registry, config), Done)
  }

  function WithNew(registry: Registry, config: Config): Registry
    requires IsPluginConfigs(config.configs)
  {
    Registry(registry.queues[config.name := Entry(config, config.active)],
             registry.files[FileName(config.name) := OnDisk(config)])
  }

  /** A plugin that is not loaded makes the reply an error, but only after everything else. */
  ghost function Deleted(rules: Rules, registry: Registry, name: string): (Registry, Response) {
    if name !in registry.queues then (registry, NoObject)
    else (Registry(registry.queues - {name}, registry.files - {FileName(name)}),
          if AllKnown(rules, registry.queues[name].config.plugins) then Done else Failed)
  }

  /** The reply to a patch of a registered authority. */
  function PatchResponse(rules: Rules, config: Config, patch: Patch): Response {
    if !Mergeable(ToDict(config), PatchDict(patch)) || !AllKnown(rules, config.plugins) then Failed
    else if Patched(rules.isUrl, config, patch) == None then Invalid
    else Done
  }

  /** The task is stopped first, whatever comes then. */
  ghost function Changed(rules: Rules, registry: Registry, name: string, document: Json): (Registry, Response)
    requires Sound(rules, registry) && NoSecrets(document)
  {
    match ParsePatch(rules.isUrl, document)
    case None => (registry, Invalid)
    case Some(patch) =>
      if name !in registry.queues then (registry, NoObject)
      else
        PatchedConfig(rules, registry, name, document);
        Repatched(rules, registry, name, patch)
  }

  ghost function Repatched(rules: Rules, registry: Registry, name: string, patch: Patch): (Registry, Response)
    requires name in registry.queues
    requires var after := Patched(rules.isUrl, registry.queues[name].config, patch);
      after.Some? ==> after.value.name == name && IsPluginConfigs(after.value.configs)
  {
    var config := registry.queues[name].config;
    var response := PatchResponse(rules, config, patch);
    if response != Done then (registry.(queues := registry.queues[name := Entry(config, false)]), response)
    else
      var after := Patched(rules.isUrl, config, patch).value;
      (Registry(registry.queues[name := Entry(after, after.active)], registry.files[FileName(name) := OnDisk(after)]), Done)
  }

  lemma PatchedConfig(rules: Rules, registry: Registry, name: string, document: Json)
    requires Sound(rules, registry) && NoSecrets(document) && name in registry.queues
    requires ParsePatch(rules.isUrl, document).Some?
    ensures var config, patch := registry.queues[name].config, ParsePatch(rules.isUrl, document).value;
      && IsPatch(rules.isUrl, patch) && WellFormed(rules.isUrl, config)
      && (Patched(rules.isUrl, config, patch).Some? ==>
            var after := Patched(rules.isUrl, config, patch).value;
            after.name == name && WellFormed(rules.isUrl, after))
  {
    assert SoundAt(rules, registry, name);
    ParsedPatchIsPatch(rules.isUrl, document);
    PatchedIff(rules.isUrl, registry.queues[name].config, ParsePatch(rules.isUrl, document).value);
  }

  /** The registry and the reply after one request. */
  ghost function Step(rules: Rules, registry: Registry, request: Request): (Registry, Response)
    requires Sound(rules, registry) && IsRequest(request)
  {
    match request
    case Create(document) => Created(rules, registry, document)
    case Delete(name) => Deleted(rules, registry, name)
    case Change(name, document) => Changed(rules, registry, name, document)
  }

  /** The name that a request is about. */
  function About(rules: Rules, request: Request): Option<string> {
    match request
    case Create(document) => (match Parse(rules.isUrl, document) case None => None case Some(config) => Some(config.name))
    case Delete(name) => Some(name)
    case Change(name, _) => Some(name)
  }

  // ---- invariants -----------------------------------------------------------

  lemma StepIsSound(rules: Rules, registry: Registry, request: Request)
    requires Sound(rules, registry) && IsRequest(request)
    ensures Sound(rules, Step(rules, registry, request).0)
  {
    var after := Step(rules, registry, request).0;
    match request {
      case Create(document) =>
        if Parse(rules.isUrl, document).Some? {
          ParsedIsWellFormed(rules.isUrl, document);
        }
      case Delete(_) =>
      case Change(name, document) =>
        if ParsePatch(rules.isUrl, document).Some? && name in registry.queues {
          PatchedConfig(rules, registry, name, document);
        }
    }
    forall name | name in after.queues ensures SoundAt(rules, after, name) {
      assert name in registry.queues ==> SoundAt(rules, registry, name);
    }
  }

  /** The configuration directory has exactly the files of the registered authorities, and
      they load as their configurations. */
  ghost predicate OnDiskAt(rules: Rules, registry: Registry, name: string) {
    && (name in registry.queues <==> FileName(name) in registry.files)
    && (name in registry.queues && FileName(name) in registry.files ==>
          && Parse(rules.isUrl, registry.files[FileName(name)]) == Some(registry.queues[name].config)
          && NoSecrets(registry.files[FileName(name)]))
  }

  ghost predicate Saved(rules: Rules, registry: Registry) {
    && (forall name :: OnDiskAt(rules, registry, name))
    && NamedByAuthority(registry.files)
  }

  ghost predicate NamedByAuthority(files: map<string, Json>) {
    forall file :: file in files ==> IsFileName(file)
  }

  predicate IsFileName(file: string) {
    |file| >= 5 && file == FileName(file[..|file| - 5])
  }

  ghost predicate SameFor(before: Registry, after: Registry, name: string) {
    && (name in before.queues <==> name in after.queues)
    && (name in before.queues ==> before.queues[name] == after.queues[name])
    && (FileName(name) in before.files <==> FileName(name) in after.files)
    && (FileName(name) in before.files ==> before.files[FileName(name)] == after.files[FileName(name)])
  }

  /** A request changes nothing but the queue and the file of the authority it is about. */
  lemma StepChangesOne(rules: Rules, registry: Registry, request: Request, name: string)
    requires Sound(rules, registry) && IsRequest(request)
    requires About(rules, request) != Some(name)
    ensures SameFor(registry, Step(rules, registry, request).0, name)
  {
    if About(rules, request).Some? {
      FileNameIsInjective(name, About(rules, request).value);
    }
    if request.Change? && ParsePatch(rules.isUrl, request.document).Some? && request.name in registry.queues {
      PatchedConfig(rules, registry, request.name, request.document);
    }
  }

  lemma StepSavesOne(rules: Rules, registry: Registry, request: Request, name: string)
    requires Sound(rules, registry) && IsRequest(request) && OnDiskAt(rules, registry, name)
    requires About(rules, request) == Some(name)
    ensures OnDiskAt(rules, Step(rules, registry, request).0, name)
  {
    var after := Step(rules, registry, request).0;
    StepIsSound(rules, registry, request);
    if request.Change? && ParsePatch(rules.isUrl, request.document).Some? && name in registry.queues {
      PatchedConfig(rules, registry, name, request.document);
    }
    if name in after.queues {
      assert SoundAt(rules, after, name);
      ConfigRoundTrip(rules.isUrl, after.queues[name].config);
    }
  }

  lemma StepIsSaved(rules: Rules, registry: Registry, request: Request)
    requires Sound(rules, registry) && IsRequest(request) && Saved(rules, registry)
    ensures Saved(rules, Step(rules, registry, request).0)
  {
    var after := Step(rules, registry, request).0;
    forall name ensures OnDiskAt(rules, after, name) {
      assert OnDiskAt(rules, registry, name);
      if About(rules, request) == Some(name) {
        StepSavesOne(rules, registry, request, name);
      } else {
        StepChangesOne(rules, registry, request, name);
      }
    }
    StepNamesFiles(rules, registry, request);
  }

  lemma StepNamesFiles(rules: Rules, registry: Registry, request: Request)
    requires Sound(rules, registry) && IsRequest(request) && NamedByAuthority(registry.files)
    ensures NamedByAuthority(Step(rules, registry, request).0.files)
  {
    if About(rules, request).Some? {
      var name := About(rules, request).value;
      assert FileName(name)[..|FileName(name)| - 5] == name;
    }
    if request.Change? && ParsePatch(rules.isUrl, request.document).Some? && request.name in registry.queues {
      PatchedConfig(rules, registry, request.name, request.document);
    }
  }

  /** A created authority is registered, saved and started; deleting it undoes all of that. */
  lemma {:induction false} DeleteUndoesCreate(rules: Rules, registry: Registry, document: Json)
    requires Sound(rules, registry) && Saved(rules, registry) && NoSecrets(document)
    ensures var created := Created(rules, registry, document);
      created.1 == Done <==>
      Parse(rules.isUrl, document).Some? && Parse(rules.isUrl, document).value.name !in registry.queues
    ensures var (created, response) := Created(rules, registry, document);
      if response != Done then created == registry
      else
        var config := Parse(rules.isUrl, document).value;
        && config.name in created.queues && created.queues[config.name] == Entry(config, config.active)
        && OnDiskAt(rules, created, config.name)
        && Deleted(rules, created, config.name).0 == registry
  {
    var (created, response) := Created(rules, registry, document);
    if response == Done {
      var config := Parse(rules.isUrl, document).value;
      assert OnDiskAt(rules, registry, config.name);
      StepSavesOne(rules, registry, Create(document), config.name);
      var deleted := Deleted(rules, created, config.name).0;
      assert deleted.queues == registry.queues;
      assert deleted.files == registry.files;
    }
  }

  /** The authority is registered with this configuration, has a task if it is active, and its file
      holds the configuration without any secrets; everything else is as before. */
  ghost predicate IsSavedAs(rules: Rules, before: Registry, after: Registry, config: Config) {
    && after.queues == before.queues[config.name := Entry(config, config.active)]
    && config.name + ".json" in after.files
    && after.files == before.files[config.name + ".json" := after.files[config.name + ".json"]]
    && Describes(rules.isUrl, after.files[config.name + ".json"], config)
    && NoSecrets(after.files[config.name + ".json"])
  }

  /** What a request to create an authority does, by its document: it is rejected, or names an
      authority that there is, or creates one. */
  lemma {:induction false} CreateOutcome(rules: Rules, registry: Registry, document: Json)
    requires NoSecrets(document)
    ensures var (after, response) := Created(rules, registry, document);
      && (response == Invalid <==> forall config :: !Describes(rules.isUrl, document, config))
      && (response != Done ==> after == registry)
      && forall config :: Describes(rules.isUrl, document, config) ==> IsCreateOutcome(rules, registry, document, config)
  {
    forall config | Describes(rules.isUrl, document, config) ensures IsCreateOutcome(rules, registry, document, config) {
      DescribedIsCreated(rules, registry, document, config);
    }
    if Parse(rules.isUrl, document).Some? {
      ParsedIs(rules.isUrl, document, Parse(rules.isUrl, document).value);
    }
  }

  /** The authority exists, or is registered with the configuration. */
  ghost predicate IsCreateOutcome(rules: Rules, registry: Registry, document: Json, config: Config) {
    var (after, response) := Created(rules, registry, document);
    && response == (if config.name in registry.queues then Exists else Done)
    && (response == Done ==> IsSavedAs(rules, registry, after, config))
  }

  lemma DescribedIsCreated(rules: Rules, registry: Registry, document: Json, config: Config)
    requires NoSecrets(document) && Describes(rules.isUrl, document, config)
    ensures IsCreateOutcome(rules, registry, document, config)
  {
    ParsedIs(rules.isUrl, document, config);
    ParsedIsWellFormed(rules.isUrl, document);
    SavedFileDescribes(rules, config);
  }

  lemma SavedFileDescribes(rules: Rules, config: Config)
    requires WellFormed(rules.isUrl, config)
    ensures Describes(rules.isUrl, OnDisk(config), config) && NoSecrets(OnDisk(config))
  {
    ConfigRoundTrip(rules.isUrl, config);
    ParsedIs(rules.isUrl, OnDisk(config), config);
  }

  /** The patch is accepted for the registered authority. */
  ghost predicate PatchApplies(rules: Rules, config: Config, document: Json)
    requires IsPatchDocument(rules.isUrl, document) && IsPluginConfigs(config.configs)
  {
    CanMerge(rules.isUrl, config, document) && forall plugin :: plugin in config.plugins ==> plugin in rules.plugins
  }

  /** The task is stopped.  Unless merging fails, a plugin is not loaded, or the role mappings do not
      fit after the merge, the authority then has the values of the document, is saved, and has a
      task if it is active now. */
  ghost predicate IsPatchOutcome(rules: Rules, registry: Registry, name: string, document: Json,
          after: Registry, response: Response)
    requires name in registry.queues && IsPluginConfigs(registry.queues[name].config.configs)
    requires IsPatchDocument(rules.isUrl, document)
  {
    var config := registry.queues[name].config;
    if PatchApplies(rules, config, document) && MappingFits(rules.isUrl, config, document) then
      && response == Done && name in after.queues
      && IsPatchedBy(rules.isUrl, config, document, after.queues[name].config)
      && IsSavedAs(rules, registry, after, after.queues[name].config)
    else
      && response == (if PatchApplies(rules, config, document) then Invalid else Failed)
      && after == registry.(queues := registry.queues[name := Entry(config, false)])
  }

  /** What a patch does, by its document.  One with values of wrong types is rejected, and so is one
      for an authority that there is not, both without any effect. */
  lemma {:induction false} PatchOutcome(rules: Rules, registry: Registry, name: string, document: Json)
    requires Sound(rules, registry) && NoSecrets(document)
    ensures var (after, response) := Changed(rules, registry, name, document);
      if !IsPatchDocument(rules.isUrl, document) then after == registry && response == Invalid
      else if name !in registry.queues then after == registry && response == NoObject
      else
        && IsPluginConfigs(registry.queues[name].config.configs)
        && IsPatchOutcome(rules, registry, name, document, after, response)
  {
    if name in registry.queues {
      assert SoundAt(rules, registry, name);
      var config := registry.queues[name].config;
      ParsedPatchIs(rules.isUrl, config, document);
      if ParsePatch(rules.isUrl, document).Some? {
        PatchedConfig(rules, registry, name, document);
        var patched := Patched(rules.isUrl, config, ParsePatch(rules.isUrl, document).value);
        if patched.Some? {
          SavedFileDescribes(rules, patched.value);
        }
      }
    } else {
      PatchDocumentIs(rules.isUrl, document);
    }
  }

  // ---- starting the service ---------------------------------------------------

  /** The configuration directory of a service that can start: every file holds a valid
      configuration, and no two files that of the same authority. */
  ghost predicate CanStart(rules: Rules, files: map<string, Json>) {
    && (forall file {:trigger IsConfigFile(rules, files[file])} :: file in files ==> IsConfigFile(rules, files[file]))
    && (forall f, g {:trigger Differ(rules, files[f], files[g])} :: f in files && g in files && f != g ==>
        Differ(rules, files[f], files[g]))
  }

  ghost predicate IsConfigFile(rules: Rules, content: Json) {
    Parse(rules.isUrl, content).Some? && NoSecrets(content)
  }

  predicate Differ(rules: Rules, one: Json, two: Json) {
    Parse(rules.isUrl, one).Some? ==> !IsOf(rules, two, Parse(rules.isUrl, one).value.name)
  }

  /** The file holds the configuration of this authority. */
  predicate IsOf(rules: Rules, content: Json, name: string) {
    Parse(rules.isUrl, content).Some? && Parse(rules.isUrl, content).value.name == name
  }

  ghost function Authorities(rules: Rules, files: map<string, Json>): (r: set<string>)
    ensures forall name :: name in r <==> exists file :: file in files && IsOf(rules, files[file], name)
  {
    set file | file in files && Parse(rules.isUrl, files[file]).Some? :: Parse(rules.isUrl, files[file]).value.name
  }

  /** The file of each authority. */
  ghost function Home(rules: Rules, files: map<string, Json>, name: string): (file: string)
    requires name in Authorities(rules, files)
    ensures file in files && IsOf(rules, files[file], name)
  {
    var file :| file in files && IsOf(rules, files[file], name);
    file
  }

  ghost function ConfigOf(rules: Rules, files: map<string, Json>, name: string): (r: Config)
    requires CanStart(rules, files) && name in Authorities(rules, files)
    ensures r.name == name && WellFormed(rules.isUrl, r)
  {
    var content := files[Home(rules, files, name)];
    assert IsConfigFile(rules, content);
    ParsedIsWellFormed(rules.isUrl, content);
    Parse(rules.isUrl, content).value
  }

  ghost function Configs(rules: Rules, files: map<string, Json>): map<string, Config>
    requires CanStart(rules, files)
  {
    map name | name in Authorities(rules, files) :: ConfigOf(rules, files, name)
  }

  ghost function Homes(rules: Rules, files: map<string, Json>): map<string, string> {
    map name | name in Authorities(rules, files) :: Home(rules, files, name)
  }

  /** Every file loads as one of the configurations, and every configuration has its file. */
  ghost predicate AreLoaded(rules: Rules, files: map<string, Json>, configs: map<string, Config>, homes: map<string, string>) {
    && (forall file {:trigger IsLoaded(rules, file, files[file], configs, homes)} :: file in files ==>
          IsLoaded(rules, file, files[file], configs, homes))
    && homes.Keys == configs.Keys
    && (forall name :: name in homes ==> homes[name] in files)
  }

  ghost predicate IsLoaded(rules: Rules, file: string, content: Json,
          configs: map<string, Config>, homes: map<string, string>) {
    var config := Parse(rules.isUrl, content);
    && config.Some? && config.value.name in configs && configs[config.value.name] == config.value
    && (forall name :: name in homes ==> (homes[name] == file <==> name == config.value.name))
  }

  ghost predicate AllWellFormed(rules: Rules, configs: map<string, Config>) {
    forall name :: name in configs ==> WellFormed(rules.isUrl, configs[name])
  }

  /** The registry of a service that has just started: one queue for each file, with its task
      running if the authority is active. */
  ghost function Started(rules: Rules, files: map<string, Json>): (r: Registry)
    requires CanStart(rules, files)
    ensures Sound(rules, r)
  {
    AllStarted(Configs(rules, files), files)
  }

  function AllStarted(configs: map<string, Config>, files: map<string, Json>): Registry {
    Registry(map name | name in configs :: Entry(configs[name], configs[name].active), files)
  }

  /** Every file is the home of the authority in it. */
  lemma HomeOfFile(rules: Rules, files: map<string, Json>, file: string)
    requires CanStart(rules, files) && file in files
    ensures IsConfigFile(rules, files[file])
    ensures var config := Parse(rules.isUrl, files[file]).value;
      && config.name in Authorities(rules, files) && Home(rules, files, config.name) == file
      && ConfigOf(rules, files, config.name) == config
  {
    assert IsConfigFile(rules, files[file]);
    var name := Parse(rules.isUrl, files[file]).value.name;
    assert IsOf(rules, files[file], name);
    var home := Home(rules, files, name);
    assert home != file ==> Differ(rules, files[home], files[file]);
  }

  lemma ConfigsAreLoaded(rules: Rules, files: map<string, Json>)
    requires CanStart(rules, files)
    ensures AreLoaded(rules, files, Configs(rules, files), Homes(rules, files)) && AllWellFormed(rules, Configs(rules, files))
  {
    var configs, homes := Configs(rules, files), Homes(rules, files);
    forall file | file in files ensures IsLoaded(rules, file, files[file], configs, homes) {
      HomeOfFile(rules, files, file);
      forall name | name in homes ensures homes[name] == file <==> name == Parse(rules.isUrl, files[file]).value.name {
        assert IsOf(rules, files[homes[name]], name);
      }
    }
  }

  /** Every file is called after the authority in it, as those are that this program writes. */
  ghost predicate CalledAfter(rules: Rules, files: map<string, Json>) {
    forall file {:trigger IsCalledAfter(rules, file, files[file])} :: file in files ==> IsCalledAfter(rules, file, files[file])
  }

  ghost predicate IsCalledAfter(rules: Rules, file: string, content: Json) {
    Parse(rules.isUrl, content).Some? && file == FileName(Parse(rules.isUrl, content).value.name)
  }

  /** What a restart makes of the queues: the same configurations, with exactly the active
      tasks. */
  function Restarted(queues: map<string, Entry>): map<string, Entry> {
    map name | name in queues :: Entry(queues[name].config, queues[name].config.active)
  }

  ghost predicate RestartIsFaithful(rules: Rules, registry: Registry) {
    CanStart(rules, registry.files) && Started(rules, registry.files).queues == Restarted(registry.queues)
  }

  /** Starting again from the files of a saved registry gives the same configurations, with
      their secrets hidden, and the tasks of exactly the active authorities. */
  lemma {:induction false} RestartReproduces(rules: Rules, registry: Registry)
    requires Sound(rules, registry) && Saved(rules, registry)
    ensures RestartIsFaithful(rules, registry)
  {
    SavedCanStart(rules, registry);
    var started := Started(rules, registry.files).queues;
    forall name ensures name in started <==> name in registry.queues
                ensures name in started ==> started[name].config == registry.queues[name].config
    {
      RestartsOne(rules, registry, name);
    }
  }

  lemma RestartsOne(rules: Rules, registry: Registry, name: string)
    requires Sound(rules, registry) && Saved(rules, registry) && CanStart(rules, registry.files)
    ensures var started := Started(rules, registry.files).queues;
      && (name in started <==> name in registry.queues)
      && (name in started ==> started[name].config == registry.queues[name].config)
  {
    assert OnDiskAt(rules, registry, name);
    if name in registry.queues {
      SavedFile(rules, registry, FileName(name));
      HomeOfFile(rules, registry.files, FileName(name));
    }
    if name in Started(rules, registry.files).queues {
      SavedFile(rules, registry, Home(rules, registry.files, name));
    }
  }

  lemma SavedCanStart(rules: Rules, registry: Registry)
    requires Sound(rules, registry) && Saved(rules, registry)
    ensures CanStart(rules, registry.files)
  {
    forall file | file in registry.files ensures IsConfigFile(rules, registry.files[file]) {
      SavedFile(rules, registry, file);
    }
    forall f, g | f in registry.files && g in registry.files && f != g
      ensures Differ(rules, registry.files[f], registry.files[g])
    {
      SavedFile(rules, registry, f);
      SavedFile(rules, registry, g);
    }
  }

  lemma SavedFile(rules: Rules, registry: Registry, file: string)
    requires Sound(rules, registry) && Saved(rules, registry) && file in registry.files
    ensures IsConfigFile(rules, registry.files[file]) && IsCalledAfter(rules, file, registry.files[file])
    ensures var config := Parse(rules.isUrl, registry.files[file]).value;
      config.name in registry.queues && registry.queues[config.name].config == config
  {
    var name := file[..|file| - 5];
    assert IsFileName(file) && OnDiskAt(rules, registry, name);
    assert SoundAt(rules, registry, name);
  }

  // ---- whole runs ---------------------------------------------------------------

  ghost predicate AreRequests(requests: seq<Request>) {
    forall i :: 0 <= i < |requests| ==> IsRequest(requests[i])
  }

  /** The registry after serving some requests. */
  ghost function Served(rules: Rules, start: Registry, requests: seq<Request>): (r: Registry)
    requires Sound(rules, start) && AreRequests(requests)
    ensures Sound(rules, r)
  {
    if requests == [] then start
    else
      var n := |requests| - 1;
      var before := Served(rules, start, requests[..n]);
      StepIsSound(rules, before, requests[n]);
      Step(rules, before, requests[n]).0
  }

  ghost function Reply(rules: Rules, start: Registry, requests: seq<Request>, i: nat): Response
    requires Sound(rules, start) && AreRequests(requests) && i < |requests|
  {
    Step(rules, Served(rules, start, requests[..i]), requests[i]).1
  }

  /** The last request that found this authority and stopped or started its task was a patch
      that failed. */
  ghost predicate StoppedByPatch(rules: Rules, start: Registry, requests: seq<Request>, name: string)
    requires Sound(rules, start) && AreRequests(requests)
  {
    if requests == [] then false
    else
      var n := |requests| - 1;
      var before := Served(rules, start, requests[..n]);
      var request, response := requests[n], Step(rules, before, requests[n]).1;
      if About(rules, request) != Some(name) then StoppedByPatch(rules, start, requests[..n], name)
      else
        match request
        case Create(_) => response != Done && StoppedByPatch(rules, start, requests[..n], name)
        case Delete(_) => name !in before.queues && StoppedByPatch(rules, start, requests[..n], name)
        case Change(_, document) =>
          if name in before.queues && ParsePatch(rules.isUrl, document).Some? then response != Done
          else StoppedByPatch(rules, start, requests[..n], name)
  }

  /** After any requests, the task of an authority runs if and only if the authority is active
      and its last patch has not failed. */
  lemma {:induction false} TaskRunsIff(rules: Rules, files: map<string, Json>, requests: seq<Request>, name: string)
    requires CanStart(rules, files) && AreRequests(requests)
    ensures var registry := Served(rules, Started(rules, files), requests);
      name in registry.queues ==>
      (registry.queues[name].live <==>
       registry.queues[name].config.active && !StoppedByPatch(rules, Started(rules, files), requests, name))
  {
    if requests != [] {
      var n := |requests| - 1;
      TaskRunsIff(rules, files, requests[..n], name);
      var before := Served(rules, Started(rules, files), requests[..n]);
      if About(rules, requests[n]) != Some(name) {
        StepChangesOne(rules, before, requests[n], name);
      } else if requests[n].Change? && ParsePatch(rules.isUrl, requests[n].document).Some? && name in before.queues {
        PatchedConfig(rules, before, name, requests[n].document);
      }
    }
  }

  lemma {:induction false} ServedIsSaved(rules: Rules, start: Registry, requests: seq<Request>)
    requires Sound(rules, start) && AreRequests(requests) && Saved(rules, start)
    ensures Saved(rules, Served(rules, start, requests))
  {
    if requests != [] {
      var n := |requests| - 1;
      ServedIsSaved(rules, start, requests[..n]);
      StepIsSaved(rules, Served(rules, start, requests[..n]), requests[n]);
    }
  }

  lemma StartedOnDiskAt(rules: Rules, files: map<string, Json>, name: string)
    requires CanStart(rules, files) && CalledAfter(rules, files)
    ensures OnDiskAt(rules, Started(rules, files), name)
  {
    if name in Started(rules, files).queues {
      var home := Home(rules, files, name);
      assert IsConfigFile(rules, files[home]) && IsCalledAfter(rules, home, files[home]);
    }
    if FileName(name) in files {
      assert IsCalledAfter(rules, FileName(name), files[FileName(name)]);
      FileNameIsInjective(name, Parse(rules.isUrl, files[FileName(name)]).value.name);
      HomeOfFile(rules, files, FileName(name));
    }
  }

  lemma StartedIsSaved(rules: Rules, files: map<string, Json>)
    requires CanStart(rules, files) && CalledAfter(rules, files)
    ensures Saved(rules, Started(rules, files))
  {
    var registry := Started(rules, files);
    forall name ensures OnDiskAt(rules, registry, name) {
      StartedOnDiskAt(rules, files, name);
    }
    forall file | file in files ensures IsFileName(file) {
      assert IsCalledAfter(rules, file, files[file]);
      assert file[..|file| - 5] == Parse(rules.isUrl, files[file]).value.name;
    }
  }

  /** After any requests to a service whose files are called after their authorities, a restart
      brings back every authority with the same configuration, secrets included, and no other. */
  lemma {:induction false} RestartAfterRequests(rules: Rules, files: map<string, Json>, requests: seq<Request>)
    requires CanStart(rules, files) && AreRequests(requests) && CalledAfter(rules, files)
    ensures RestartIsFaithful(rules, Served(rules, Started(rules, files), requests))
  {
    StartedIsSaved(rules, files);
    ServedIsSaved(rules, Started(rules, files), requests);
    RestartReproduces(rules, Served(rules, Started(rules, files), requests));
  }

  /** With a file that is called otherwise, deleting its authority leaves the file, and a
      restart brings the authority back. */
  lemma {:induction false} DeletedComesBack(rules: Rules, files: map<string, Json>, file: string, name: string)
    requires CanStart(rules, files) && file in files
    requires IsOf(rules, files[file], name) && !IsCalledAfter(rules, file, files[file])
    ensures !RestartIsFaithful(rules, Served(rules, Started(rules, files), [Delete(name)]))
  {
    var start := Started(rules, files);
    HomeOfFile(rules, files, file);
    ServedOne(rules, start, Delete(name));
    var after := Deleted(rules, start, name).0;
    assert file in after.files && after.files[file] == files[file] && name !in after.queues;
    if CanStart(rules, after.files) {
      HomeOfFile(rules, after.files, file);
      assert name in Started(rules, after.files).queues;
    }
  }

  lemma ServedOne(rules: Rules, start: Registry, request: Request)
    requires Sound(rules, start) && IsRequest(request)
    ensures AreRequests([request]) && Served(rules, start, [request]) == Step(rules, start, request).0
  {
    assert [request][..0] == [];
  }

  /** So a restart is faithful after any requests if and only if every file is called after the
      authority in it. */
  lemma RestartIsFaithfulIff(rules: Rules, files: map<string, Json>)
    requires CanStart(rules, files)
    ensures CalledAfter(rules, files) <==>
      forall requests :: AreRequests(requests) ==> RestartIsFaithful(rules, Served(rules, Started(rules, files), requests))
  {
    if CalledAfter(rules, files) {
      forall requests | AreRequests(requests) ensures RestartIsFaithful(rules, Served(rules, Started(rules, files), requests)) {
        RestartAfterRequests(rules, files, requests);
      }
    } else {
      var file :| file in files && !IsCalledAfter(rules, file, files[file]);
      assert IsConfigFile(rules, files[file]);
      var name := Parse(rules.isUrl, files[file]).value.name;
      DeletedComesBack(rules, files, file, name);
      assert AreRequests([Delete(name)]);
    }
  }
}
