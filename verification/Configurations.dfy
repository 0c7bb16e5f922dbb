/** School authority configurations: their form in requests and on disk, and patches. */
module Configurations {
  import opened Options
  import opened DeepMerge
  import opened Secrets
  import RoleMapping

  datatype Config = Config(name: string, active: bool, url: string, plugins: seq<string>, configs: Json)

  const NAME := "name"
  const ACTIVE := "active"
  const URL := "url"
  const PLUGINS := "plugins"
  const CONFIGS := "plugin_configs"

  /** The validator `has_required_attr_combination` accepts the plugin configurations. */
  predicate MappingAccepted(configs: Json)
    requires IsPluginConfigs(configs)
  {
    var mapping := RoleMapping.GetDict(RoleMapping.GetDict(configs, "kelvin"), "mapping");
    RoleMapping.IsMapping(mapping) && RoleMapping.Accepted(mapping)
  }

  /** `SchoolAuthorityConfiguration(**document)`; `isUrl` is the check of the URL. */
  function Parse(isUrl: string -> bool, document: Json): Option<Config> {
    if !document.Dict? then None
    else
      var d := document.entries;
      if && NAME in d && d[NAME].Str?
         && URL in d && d[URL].Str? && isUrl(d[URL].s)
         && (ACTIVE in d ==> d[ACTIVE].Bool?)
         && (PLUGINS in d ==> d[PLUGINS].Strs?)
         && CONFIGS in d && IsPluginConfigs(d[CONFIGS]) && MappingAccepted(d[CONFIGS])
      then
        Some(Config(
          d[NAME].s,
          ACTIVE in d && d[ACTIVE].b,
          d[URL].s,
          if PLUGINS in d then d[PLUGINS].items else [],
          Hidden(d[CONFIGS])))
      else None
  }

  /** The document is one of this configuration; without them, it is not active and has no plugins. */
  ghost predicate Describes(isUrl: string -> bool, document: Json, config: Config) {
    && document.Dict?
    && var d := document.entries;
    && "name" in d && d["name"] == Str(config.name)
    && "url" in d && d["url"] == Str(config.url) && isUrl(config.url)
    && (if "active" in d then d["active"] == Bool(config.active) else !config.active)
    && (if "plugins" in d then d["plugins"] == Strs(config.plugins) else config.plugins == [])
    && "plugin_configs" in d && IsPluginConfigs(d["plugin_configs"]) && MappingAccepted(d["plugin_configs"])
    && config.configs == Hidden(d["plugin_configs"])
  }

  /** Exactly which documents are accepted, and as which configurations. */
  lemma {:induction false} ParsedIs(isUrl: string -> bool, document: Json, config: Config)
    ensures Parse(isUrl, document) == Some(config) <==> Describes(isUrl, document, config)
  {
  }

  /** Configured for the role, or for all users if the role has no mapping or an empty one. */
  ghost predicate Maps(configs: Json, role: string, attribute: string) {
    || Lookup(configs, ["kelvin", "mapping", role, attribute]).Some?
    || (Lookup(configs, ["kelvin", "mapping", role]) in {None, Some(Dict(map[]))}
        && Lookup(configs, ["kelvin", "mapping", "users", attribute]).Some?)
  }

  /** The mapping is a dictionary of dictionaries, if there is one. */
  ghost predicate HasMappings(configs: Json) {
    var mapping := Lookup(configs, ["kelvin", "mapping"]);
    mapping.Some? ==> mapping.value.Dict? && forall key :: key in mapping.value.entries ==> mapping.value.entries[key].Dict?
  }

  /** The check of the role mappings, by path: guardians are mapped for students exactly if wards
      are for legal guardians. */
  lemma {:induction false} MappingAcceptedByPath(configs: Json)
    requires IsPluginConfigs(configs)
    ensures MappingAccepted(configs) <==>
            && HasMappings(configs)
            && (Maps(configs, "users_student", "ucsschoolLegalGuardian") <==>
                Maps(configs, "users_legal_guardian", "ucsschoolLegalWard"))
  {
    var mapping := RoleMapping.GetDict(RoleMapping.GetDict(configs, "kelvin"), "mapping");
    var found := Lookup(configs, ["kelvin", "mapping"]);
    LookupTwo(configs, "kelvin", "mapping");
    if RoleMapping.IsMapping(mapping) {
      ConfiguredByPath(configs, mapping, "users_student", "ucsschoolLegalGuardian");
      ConfiguredByPath(configs, mapping, "users_legal_guardian", "ucsschoolLegalWard");
    }
  }

  lemma LookupLonger(j: Json, a: string, b: string, path: seq<string>)
    ensures Lookup(j, [a, b] + path) ==
            match Lookup(j, [a, b]) { case None => None case Some(value) => Lookup(value, path) }
  {
    LookupTwo(j, a, b);
    assert ([a, b] + path)[1..] == [b] + path && ([b] + path)[1..] == path;
  }

  lemma ConfiguredByPath(configs: Json, mapping: Json, key: string, attribute: string)
    requires IsPluginConfigs(configs) && RoleMapping.IsMapping(mapping)
    requires mapping == RoleMapping.GetDict(RoleMapping.GetDict(configs, "kelvin"), "mapping")
    ensures RoleMapping.ConfiguredFor(mapping, key, attribute) <==> Maps(configs, key, attribute)
  {
    LookupTwo(configs, "kelvin", "mapping");
    LookupLonger(configs, "kelvin", "mapping", [key]);
    LookupLonger(configs, "kelvin", "mapping", [key, attribute]);
    LookupLonger(configs, "kelvin", "mapping", ["users", attribute]);
    LookupTwo(mapping, key, attribute);
    LookupTwo(mapping, "users", attribute);
    assert [key][1..] == [];
    assert ["kelvin", "mapping"] + [key] == ["kelvin", "mapping", key];
    assert ["kelvin", "mapping"] + [key, attribute] == ["kelvin", "mapping", key, attribute];
    assert ["kelvin", "mapping"] + ["users", attribute] == ["kelvin", "mapping", "users", attribute];
  }

  /** What every configuration in memory fulfils. */
  ghost predicate WellFormed(isUrl: string -> bool, config: Config) {
    && isUrl(config.url)
    && IsPluginConfigs(config.configs) && SecretsInPlace(config.configs) && AllHidden(config.configs)
    && MappingAccepted(config.configs)
  }

  /** `config.dict()` */
  function ToDict(config: Config): (r: Json)
    ensures r.Dict?
  {
    Dict(map[NAME := Str(config.name), ACTIVE := Bool(config.active), URL := Str(config.url),
             PLUGINS := Strs(config.plugins), CONFIGS := config.configs])
  }

  /** What `save_school_authority` writes. */
  function OnDisk(config: Config): Json
    requires IsPluginConfigs(config.configs)
  {
    ToDict(config.(configs := Shown(config.configs)))
  }

  /** The role mappings hold no secrets of their own. */
  lemma MappingStays(configs: Json)
    requires IsPluginConfigs(configs)
    ensures MappingAccepted(Hidden(configs)) == MappingAccepted(configs) == MappingAccepted(Shown(configs))
  {
  }

  lemma PlainIsInPlace(configs: Json)
    requires IsPluginConfigs(configs) && NoSecrets(configs)
    ensures SecretsInPlace(configs)
  {
    forall plugin, key | plugin in configs.entries && key in configs.entries[plugin].entries
      ensures InPlace(key, configs.entries[plugin].entries[key])
    {
      assert NoSecrets(configs.entries[plugin]);
    }
  }

  lemma ParsedIsWellFormed(isUrl: string -> bool, document: Json)
    requires NoSecrets(document) && Parse(isUrl, document).Some?
    ensures WellFormed(isUrl, Parse(isUrl, document).value)
  {
    var configs := document.entries[CONFIGS];
    PlainIsInPlace(configs);
    HiddenIsHidden(configs);
    MappingStays(configs);
  }

  /** Loading what was saved gives the same configuration, and only the file has the
      secrets in plain text. */
  lemma ConfigRoundTrip(isUrl: string -> bool, config: Config)
    requires WellFormed(isUrl, config)
    ensures Parse(isUrl, OnDisk(config)) == Some(config) && NoSecrets(OnDisk(config))
  {
    SecretsRoundTrip(config.configs);
    MappingStays(config.configs);
  }

  // ---- patches ------------------------------------------------------------

  datatype Patch = Patch(active: Option<bool>, url: Option<string>, plugins: Option<seq<string>>, configs: Option<Json>)

  /** Absent, or `None` */
  predicate Unset(d: map<string, Json>, key: string) {
    key !in d || d[key].Null?
  }

  /** `SchoolAuthorityConfigurationPatchDocument(**document)` */
  function ParsePatch(isUrl: string -> bool, document: Json): (r: Option<Patch>)
    ensures r.Some? && r.value.configs.Some? ==> IsPluginConfigs(r.value.configs.value)
    ensures r.Some? && r.value.url.Some? ==> isUrl(r.value.url.value)
  {
    if !document.Dict? then None
    else
      var d := document.entries;
      if && (Unset(d, ACTIVE) || d[ACTIVE].Bool?)
         && (Unset(d, URL) || (d[URL].Str? && isUrl(d[URL].s)))
         && (Unset(d, PLUGINS) || d[PLUGINS].Strs?)
         && (Unset(d, CONFIGS) || IsPluginConfigs(d[CONFIGS]))
      then
        Some(Patch(
          if Unset(d, ACTIVE) then None else Some(d[ACTIVE].b),
          if Unset(d, URL) then None else Some(d[URL].s),
          if Unset(d, PLUGINS) then None else Some(d[PLUGINS].items),
          if Unset(d, CONFIGS) then None else Some(Hidden(d[CONFIGS]))))
      else None
  }

  /** `patch.dict()`: what is not set is `None`. */
  function PatchDict(patch: Patch): (r: Json)
    ensures r.Dict?
  {
    Dict(map[
      ACTIVE := match patch.active { case None => Null case Some(b) => Bool(b) },
      URL := match patch.url { case None => Null case Some(s) => Str(s) },
      PLUGINS := match patch.plugins { case None => Null case Some(items) => Strs(items) },
      CONFIGS := match patch.configs { case None => Null case Some(configs) => configs }])
  }

  /** The new configuration, unless merging or checking it raises. */
  function Patched(isUrl: string -> bool, config: Config, patch: Patch): Option<Config> {
    var ori, updater := ToDict(config), PatchDict(patch);
    if Mergeable(ori, updater) then Parse(isUrl, Merged(ori, updater, false)) else None
  }

  /** The document has a value other than `None` at the key. */
  ghost predicate Gives(document: Json, key: string) {
    document.Dict? && key in document.entries && document.entries[key] != Null
  }

  /** The values that are given have the right types. */
  ghost predicate IsPatchDocument(isUrl: string -> bool, document: Json) {
    && document.Dict?
    && var d := document.entries;
    && (Gives(document, "active") ==> d["active"].Bool?)
    && (Gives(document, "url") ==> d["url"].Str? && isUrl(d["url"].s))
    && (Gives(document, "plugins") ==> d["plugins"].Strs?)
    && (Gives(document, "plugin_configs") ==> IsPluginConfigs(d["plugin_configs"]))
  }

  /** The document has plugin configurations, which can be merged into those there are. */
  ghost predicate CanMerge(isUrl: string -> bool, config: Config, document: Json)
    requires IsPatchDocument(isUrl, document) && IsPluginConfigs(config.configs)
  {
    Gives(document, "plugin_configs") && Mergeable(config.configs, Hidden(document.entries["plugin_configs"]))
  }

  ghost function MergedConfigs(isUrl: string -> bool, config: Config, document: Json): Json
    requires IsPatchDocument(isUrl, document) && IsPluginConfigs(config.configs) && CanMerge(isUrl, config, document)
  {
    Merged(config.configs, Hidden(document.entries["plugin_configs"]), false)
  }

  /** What the document gives is the new value, and all else stays. */
  ghost predicate IsPatchedBy(isUrl: string -> bool, config: Config, document: Json, after: Config)
    requires IsPatchDocument(isUrl, document) && IsPluginConfigs(config.configs) && CanMerge(isUrl, config, document)
  {
    var d := document.entries;
    && after.name == config.name
    && after.active == (if Gives(document, "active") then d["active"].b else config.active)
    && after.url == (if Gives(document, "url") then d["url"].s else config.url)
    && after.plugins == (if Gives(document, "plugins") then d["plugins"].items else config.plugins)
    && after.configs == MergedConfigs(isUrl, config, document)
  }

  lemma PatchDocumentIs(isUrl: string -> bool, document: Json)
    ensures ParsePatch(isUrl, document).Some? <==> IsPatchDocument(isUrl, document)
  {
  }

  /** Exactly which documents are patches, and what their patches make of a configuration. */
  lemma {:induction false} ParsedPatchIs(isUrl: string -> bool, config: Config, document: Json)
    requires WellFormed(isUrl, config) && NoSecrets(document)
    ensures IsPatchDocument(isUrl, document) <==> ParsePatch(isUrl, document).Some?
    ensures IsPatchDocument(isUrl, document) ==>
      var patched := Patched(isUrl, config, ParsePatch(isUrl, document).value);
      && (patched.Some? <==> CanMerge(isUrl, config, document) && MappingFits(isUrl, config, document))
      && (patched.Some? ==> IsPatchedBy(isUrl, config, document, patched.value))
      && (Mergeable(ToDict(config), PatchDict(ParsePatch(isUrl, document).value)) <==> CanMerge(isUrl, config, document))
  {
    if ParsePatch(isUrl, document).Some? {
      var patch := ParsePatch(isUrl, document).value;
      ParsedPatchIsPatch(isUrl, document);
      PatchIsMergeable(config, patch);
      PatchedIff(isUrl, config, patch);
      if CanMerge(isUrl, config, document) {
        MergedInPlace(config.configs, patch.configs.value, false);
      }
    }
  }

  /** The role mappings are accepted after the merge. */
  ghost predicate MappingFits(isUrl: string -> bool, config: Config, document: Json)
    requires IsPatchDocument(isUrl, document) && IsPluginConfigs(config.configs) && CanMerge(isUrl, config, document)
  {
    IsPluginConfigs(MergedConfigs(isUrl, config, document)) && MappingAccepted(MergedConfigs(isUrl, config, document))
  }

  ghost predicate IsPatch(isUrl: string -> bool, patch: Patch) {
    && (patch.url.Some? ==> isUrl(patch.url.value))
    && (patch.configs.Some? ==>
          IsPluginConfigs(patch.configs.value) && SecretsInPlace(patch.configs.value) && AllHidden(patch.configs.value))
  }

  lemma ParsedPatchIsPatch(isUrl: string -> bool, document: Json)
    requires NoSecrets(document) && ParsePatch(isUrl, document).Some?
    ensures IsPatch(isUrl, ParsePatch(isUrl, document).value)
  {
    if !Unset(document.entries, CONFIGS) {
      PlainIsInPlace(document.entries[CONFIGS]);
      HiddenIsHidden(document.entries[CONFIGS]);
    }
  }

  function Or<T>(value: Option<T>, otherwise: T): T {
    if value.Some? then value.value else otherwise
  }

  /** Merging a patch cannot succeed unless it has plugin configurations: without them,
      `None` meets the dictionary of the old configuration. */
  lemma PatchIsMergeable(config: Config, patch: Patch)
    requires IsPluginConfigs(config.configs) && (patch.configs.Some? ==> IsPluginConfigs(patch.configs.value))
    ensures Mergeable(ToDict(config), PatchDict(patch)) <==>
            patch.configs.Some? && Mergeable(config.configs, patch.configs.value)
  {
    var ori, updater := ToDict(config), PatchDict(patch);
    assert Mergeable(ori, updater) ==> MergeableAt(ori, updater, CONFIGS);
    forall k | k in updater.entries && k != CONFIGS ensures MergeableAt(ori, updater, k) {}
  }

  /** The configuration with the values of the patch. */
  function Override(config: Config, patch: Patch, configs: Json): Config {
    Config(config.name, Or(patch.active, config.active), Or(patch.url, config.url), Or(patch.plugins, config.plugins), configs)
  }

  lemma PatchedDict(config: Config, patch: Patch, configs: Json)
    requires IsPluginConfigs(config.configs) && patch.configs.Some? && IsPluginConfigs(patch.configs.value)
    requires Mergeable(ToDict(config), PatchDict(patch)) && Mergeable(config.configs, patch.configs.value)
    requires configs == Merged(config.configs, patch.configs.value, false)
    ensures Merged(ToDict(config), PatchDict(patch), false) == ToDict(Override(config, patch, configs))
  {
    var ori, updater, after := ToDict(config), PatchDict(patch), ToDict(Override(config, patch, configs));
    var r := Merged(ori, updater, false);
    var keys := ori.entries.Keys;
    assert r.entries.Keys == after.entries.Keys == keys by {
      assert updater.entries.Keys <= keys;
    }
    forall k | k in keys ensures r.entries[k] == after.entries[k] {
      MergedKey(ori, updater, false, k);
      PatchedValue(config, patch, configs, k);
    }
    assert r.entries == after.entries;
  }

  lemma PatchedValue(config: Config, patch: Patch, configs: Json, k: string)
    requires k in ToDict(config).entries
    ensures var o, u, r := ToDict(config).entries, PatchDict(patch).entries, ToDict(Override(config, patch, configs)).entries;
      && (k == CONFIGS ==> o[k] == config.configs && r[k] == configs)
      && (k == CONFIGS && patch.configs.Some? ==> u[k] == patch.configs.value)
      && (k != CONFIGS ==> !o[k].Dict? && r[k] == if k in u && !u[k].Null? then u[k] else o[k])
  {
  }

  /** Exactly when a patch is accepted, and what the configuration is then. */
  lemma PatchedIff(isUrl: string -> bool, config: Config, patch: Patch)
    requires WellFormed(isUrl, config) && IsPatch(isUrl, patch)
    ensures PatchFits(config, patch) <==> Patched(isUrl, config, patch).Some?
    ensures PatchFits(config, patch) ==>
      var after := Override(config, patch, Merged(config.configs, patch.configs.value, false));
      Patched(isUrl, config, patch) == Some(after) && WellFormed(isUrl, after)
  {
    PatchIsMergeable(config, patch);
    if patch.configs.Some? && Mergeable(config.configs, patch.configs.value) {
      var configs := Merged(config.configs, patch.configs.value, false);
      PatchedDict(config, patch, configs);
      MergedInPlace(config.configs, patch.configs.value, false);
      MergedIsHidden(config.configs, patch.configs.value);
      ParsedDict(isUrl, Override(config, patch, configs));
    }
  }

  /** The patch has plugin configurations, they can be merged into the old ones, and the role
      mappings in the result are accepted. */
  ghost predicate PatchFits(config: Config, patch: Patch)
    requires IsPluginConfigs(config.configs) && (patch.configs.Some? ==> IsPluginConfigs(patch.configs.value))
  {
    && patch.configs.Some?
    && Mergeable(config.configs, patch.configs.value)
    && var configs := Merged(config.configs, patch.configs.value, false);
       IsPluginConfigs(configs) && MappingAccepted(configs)
  }

  lemma ParsedDict(isUrl: string -> bool, config: Config)
    requires isUrl(config.url) && IsPluginConfigs(config.configs) && Hidden(config.configs) == config.configs
    ensures Parse(isUrl, ToDict(config)) == if MappingAccepted(config.configs) then Some(config) else None
  {
  }

  /** Two configurations without open secrets make one without. */
  lemma MergedIsHidden(ori: Json, updater: Json)
    requires IsPluginConfigs(ori) && IsPluginConfigs(updater) && Mergeable(ori, updater)
    requires AllHidden(ori) && AllHidden(updater)
    ensures IsPluginConfigs(Merged(ori, updater, false)) && AllHidden(Merged(ori, updater, false))
    ensures Hidden(Merged(ori, updater, false)) == Merged(ori, updater, false)
  {
    var r := Merged(ori, updater, false);
    forall plugin | plugin in r.entries
      ensures r.entries[plugin].Dict?
      ensures forall key :: key in r.entries[plugin].entries ==>
          HideValue(key, r.entries[plugin].entries[key]) == r.entries[plugin].entries[key]
    {
      MergedKey(ori, updater, false, plugin);
      if plugin in ori.entries && plugin in updater.entries {
        forall key | key in r.entries[plugin].entries
          ensures HideValue(key, r.entries[plugin].entries[key]) == r.entries[plugin].entries[key]
        {
          MergedKey(ori.entries[plugin], updater.entries[plugin], false, key);
        }
      } else if plugin in ori.entries {
        assert r.entries[plugin] == ori.entries[plugin];
      } else {
        assert r.entries[plugin] == updater.entries[plugin];
      }
    }
    AlreadyHidden(r);
  }

  lemma AlreadyHidden(configs: Json)
    requires IsPluginConfigs(configs) && AllHidden(configs)
    ensures Hidden(configs) == configs
  {
    forall plugin | plugin in configs.entries ensures Hidden(configs).entries[plugin] == configs.entries[plugin] {
      assert Hidden(configs).entries[plugin].entries == configs.entries[plugin].entries;
    }
    assert Hidden(configs).entries == configs.entries;
  }
}
