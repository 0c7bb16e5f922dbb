/** The secrets in the plugin configurations of a school authority. */
module Secrets {
  import opened Options
  import opened DeepMerge
  import opened DictUpdate

  /** Keys of a plugin configuration whose strings are secrets. */
  predicate IsSecretKey(key: string) {
    key == "key" || key == "password" || key == "token"
  }

  /** `Dict[str, Dict[str, Any]]` */
  predicate IsPluginConfigs(j: Json) {
    j.Dict? && forall plugin :: plugin in j.entries ==> j.entries[plugin].Dict?
  }

  /** Plain JSON, without secrets. */
  predicate NoSecrets(j: Json) {
    match j
    case Secret(_) => false
    case Dict(entries) => forall k :: k in entries ==> NoSecrets(entries[k])
    case _ => true
  }

  predicate IsSecretAt(j: Json, path: seq<string>) {
    Lookup(j, path).Some? && Lookup(j, path).value.Secret?
  }

  /** No path leads to a secret. */
  lemma {:induction false} NoSecretsByPath(j: Json)
    ensures NoSecrets(j) <==> forall path :: !IsSecretAt(j, path)
  {
    if j.Dict? {
      forall k | k in j.entries ensures NoSecrets(j.entries[k]) <==> forall path :: !IsSecretAt(j.entries[k], path) {
        NoSecretsByPath(j.entries[k]);
      }
      forall path ensures IsSecretAt(j, path) <==>
                          path != [] && path[0] in j.entries && IsSecretAt(j.entries[path[0]], path[1..])
      {
      }
      forall k, path | k in j.entries && IsSecretAt(j.entries[k], path) ensures IsSecretAt(j, [k] + path) {
        assert ([k] + path)[1..] == path;
      }
    } else {
      assert IsSecretAt(j, []) <==> j.Secret?;
    }
  }

  function HideValue(key: string, value: Json): Json {
    if IsSecretKey(key) && value.Str? then Secret(value.s) else value
  }

  function ShowValue(key: string, value: Json): Json {
    if IsSecretKey(key) && value.Secret? then Str(value.s) else value
  }

  /** `plugin_configs_plain_to_secret` */
  function Hidden(configs: Json): (r: Json)
    requires IsPluginConfigs(configs)
    ensures IsPluginConfigs(r)
  {
    Dict(map plugin | plugin in configs.entries ::
      Dict(map key | key in configs.entries[plugin].entries :: HideValue(key, configs.entries[plugin].entries[key])))
  }

  /** `plugin_configs_secrets_to_plain` */
  function Shown(configs: Json): (r: Json)
    requires IsPluginConfigs(configs)
    ensures IsPluginConfigs(r)
  {
    Dict(map plugin | plugin in configs.entries ::
      Dict(map key | key in configs.entries[plugin].entries :: ShowValue(key, configs.entries[plugin].entries[key])))
  }

  /** Hiding and showing concern the values at three keys of each plugin, and nothing else. */
  lemma {:induction false} HiddenByPath(configs: Json, plugin: string, key: string)
    requires IsPluginConfigs(configs)
    ensures Hidden(configs).entries.Keys == Shown(configs).entries.Keys == configs.entries.Keys
    ensures var value := Lookup(configs, [plugin, key]);
      && Lookup(Hidden(configs), [plugin, key]) ==
         (if value.Some? && value.value.Str? && key in {"key", "password", "token"} then Some(Secret(value.value.s)) else value)
      && Lookup(Shown(configs), [plugin, key]) ==
         (if value.Some? && value.value.Secret? && key in {"key", "password", "token"} then Some(Str(value.value.s)) else value)
  {
    LookupTwo(configs, plugin, key);
    LookupTwo(Hidden(configs), plugin, key);
    LookupTwo(Shown(configs), plugin, key);
  }

  /** Secrets are nowhere but at the secret keys. */
  ghost predicate SecretsInPlace(configs: Json)
    requires IsPluginConfigs(configs)
  {
    forall plugin, key {:trigger InPlace(key, configs.entries[plugin].entries[key])} ::
      plugin in configs.entries && key in configs.entries[plugin].entries ==> InPlace(key, configs.entries[plugin].entries[key])
  }

  predicate InPlace(key: string, value: Json) {
    (value.Secret? && IsSecretKey(key)) || NoSecrets(value)
  }

  /** No string at a secret key is shown. */
  ghost predicate AllHidden(configs: Json)
    requires IsPluginConfigs(configs)
  {
    forall plugin, key {:trigger HideValue(key, configs.entries[plugin].entries[key])} ::
      plugin in configs.entries && key in configs.entries[plugin].entries ==>
          HideValue(key, configs.entries[plugin].entries[key]) == configs.entries[plugin].entries[key]
  }

  // ---- the same on dictionaries in memory -------------------------------------

  /** Replaces values that are no dictionaries by others. */
  ghost predicate KeepsDicts(f: (string, Json) -> Json) {
    forall key: string, value: Json :: if value.Dict? then f(key, value) == value else !f(key, value).Dict?
  }

  function ReplacedAt(f: (string, Json) -> Json, config: Json): (r: Json)
    requires config.Dict?
    ensures r.Dict?
  {
    Dict(map key | key in config.entries :: f(key, config.entries[key]))
  }

  function Replaced(f: (string, Json) -> Json, configs: Json): (r: Json)
    requires IsPluginConfigs(configs)
    ensures r.Dict?
  {
    Dict(map plugin | plugin in configs.entries :: ReplacedAt(f, configs.entries[plugin]))
  }

  /** The inner loop, over one plugin configuration. */
  method ReplaceIn(config: PyDict, f: (string, Json) -> Json)
    requires config.Valid() && KeepsDicts(f)
    modifies config`entries
    ensures config.Valid() && config.View() == ReplacedAt(f, old(config.View()))
  {
    ghost var before := config.View().entries;
    var keys := config.entries.Keys;
    while keys != {}
      invariant config.Valid() && keys <= config.entries.Keys == before.Keys
      invariant forall k :: k in before ==> config.View().entries[k] == if k in keys then before[k] else f(k, before[k])
      decreases keys
    {
      var key :| key in keys;
      keys := keys - {key};
      ReplaceAtKey(config, f, key);
    }
    assert config.View().entries == ReplacedAt(f, Dict(before)).entries;
  }

  method ReplaceAtKey(config: PyDict, f: (string, Json) -> Json, key: string)
    requires config.Valid() && KeepsDicts(f) && key in config.entries
    modifies config`entries
    ensures config.Valid() && config.entries.Keys == old(config.entries).Keys
    ensures config.View().entries == old(config.View()).entries[key := f(key, old(config.View()).entries[key])]
  {
    assert config.ValidAt(key);
    if config.entries[key].Leaf? {
      config.SetLeaf(key, f(key, config.entries[key].json));
    }
  }

  /** The outer loop, over all plugins. */
  method ReplaceAll(configs: PyDict, f: (string, Json) -> Json)
    requires configs.Valid() && IsPluginConfigs(configs.View()) && KeepsDicts(f)
    modifies configs.repr
    ensures configs.Valid() && configs.repr == old(configs.repr) && configs.View() == Replaced(f, old(configs.View()))
  {
    ghost var before := configs.View().entries;
    var plugins := configs.entries.Keys;
    while plugins != {}
      invariant configs.Valid() && configs.repr == old(configs.repr) && configs.entries == old(configs.entries)
      invariant plugins <= configs.entries.Keys
      invariant forall p :: p in before ==>
        configs.View().entries[p] == if p in plugins then before[p] else ReplacedAt(f, before[p])
      decreases plugins
    {
      var plugin :| plugin in plugins;
      plugins := plugins - {plugin};
      assert configs.ValidAt(plugin) && configs.ReprAt(plugin) <= configs.repr;
      ReplaceAtPlugin(configs, f, plugin);
    }
    assert configs.View().entries == Replaced(f, Dict(before)).entries;
  }

  method ReplaceAtPlugin(configs: PyDict, f: (string, Json) -> Json, plugin: string)
    requires configs.Valid() && IsPluginConfigs(configs.View()) && KeepsDicts(f) && plugin in configs.entries
    modifies configs.ReprAt(plugin)
    ensures configs.Valid() && configs.repr == old(configs.repr) && configs.entries == old(configs.entries)
    ensures configs.View().entries == old(configs.View()).entries[plugin := ReplacedAt(f, old(configs.View()).entries[plugin])]
  {
    assert configs.ValidAt(plugin) && configs.View().entries[plugin] == configs.ViewAt(plugin);
    ghost var before := configs.View().entries;
    var config := configs.entries[plugin].dict;
    ReplaceIn(config, f);
    forall p | p in configs.entries
      ensures configs.ValidAt(p)
      ensures p != plugin && configs.entries[p].Node? ==> unchanged(configs.entries[p].dict.repr)
    {
      assert old(configs.ValidAt(p));
      if p != plugin && configs.entries[p].Node? {
        assert old(configs.ValidAt(plugin)) && old(configs.ApartAt(p, plugin));
      }
    }
    forall p, q | p in configs.entries && q in configs.entries && p != q ensures configs.ApartAt(p, q) {
      assert old(configs.ValidAt(p)) && old(configs.ValidAt(q)) && old(configs.ApartAt(p, q));
    }
    assert configs.ViewAt(plugin) == ReplacedAt(f, before[plugin]);
    forall p | p in configs.entries && p != plugin ensures configs.ViewAt(p) == before[p] {
      assert old(configs.ValidAt(p)) && old(configs.ViewAt(p)) == before[p];
    }
  }

  method PlainToSecret(configs: PyDict)
    requires configs.Valid() && IsPluginConfigs(configs.View())
    modifies configs.repr
    ensures configs.Valid() && configs.repr == old(configs.repr) && configs.View() == Hidden(old(configs.View()))
  {
    HiddenIsReplaced(configs.View());
    ReplaceAll(configs, HideValue);
  }

  method SecretsToPlain(configs: PyDict)
    requires configs.Valid() && IsPluginConfigs(configs.View())
    modifies configs.repr
    ensures configs.Valid() && configs.repr == old(configs.repr) && configs.View() == Shown(old(configs.View()))
  {
    ShownIsReplaced(configs.View());
    ReplaceAll(configs, ShowValue);
  }

  /** `dict()` copies all dictionaries. */
  method Copy(live: PyDict) returns (copy: PyDict)
    requires live.Valid()
    ensures copy.Valid() && fresh(copy.repr) && copy.View() == live.View()
  {
    var value := ToJson(live);
    copy := FromJson(value);
  }

  /** `dict_secrets_as_str`: the secrets are unwrapped in a copy that shares nothing with the
      live dictionaries, which therefore keep theirs. */
  method DictSecretsAsStr(live: PyDict, ghost value: Json) returns (plain: PyDict)
    requires live.Valid() && live.View() == value && IsPluginConfigs(value)
    ensures plain.Valid() && fresh(plain.repr) && plain.View() == Shown(value)
    ensures unchanged(live.repr) && live.View() == value
  {
    plain := Copy(live);
    SecretsToPlain(plain);
  }

  lemma HiddenIsReplaced(configs: Json)
    requires IsPluginConfigs(configs)
    ensures Replaced(HideValue, configs) == Hidden(configs)
  {
    forall p | p in configs.entries ensures ReplacedAt(HideValue, configs.entries[p]) == Hidden(configs).entries[p] {
      assert ReplacedAt(HideValue, configs.entries[p]).entries == Hidden(configs).entries[p].entries;
    }
    assert Replaced(HideValue, configs).entries == Hidden(configs).entries;
  }

  lemma ShownIsReplaced(configs: Json)
    requires IsPluginConfigs(configs)
    ensures Replaced(ShowValue, configs) == Shown(configs)
  {
    forall p | p in configs.entries ensures ReplacedAt(ShowValue, configs.entries[p]) == Shown(configs).entries[p] {
      assert ReplacedAt(ShowValue, configs.entries[p]).entries == Shown(configs).entries[p].entries;
    }
    assert Replaced(ShowValue, configs).entries == Shown(configs).entries;
  }

  /** What is written to disk is plain JSON, from which the live configuration comes back. */
  lemma SecretsRoundTrip(configs: Json)
    requires IsPluginConfigs(configs) && SecretsInPlace(configs)
    ensures NoSecrets(Shown(configs))
    ensures AllHidden(configs) ==> Hidden(Shown(configs)) == configs
    ensures Hidden(Shown(configs)) == Hidden(configs)
  {
    var shown := Shown(configs);
    forall plugin | plugin in shown.entries ensures NoSecrets(shown.entries[plugin]) {
      forall key | key in shown.entries[plugin].entries ensures NoSecrets(shown.entries[plugin].entries[key]) {
        assert InPlace(key, configs.entries[plugin].entries[key]);
      }
    }
    forall plugin | plugin in configs.entries
      ensures Hidden(shown).entries[plugin] == Hidden(configs).entries[plugin]
      ensures AllHidden(configs) ==> Hidden(configs).entries[plugin] == configs.entries[plugin]
    {
      assert Hidden(shown).entries[plugin].entries == Hidden(configs).entries[plugin].entries;
      if AllHidden(configs) {
        assert Hidden(configs).entries[plugin].entries == configs.entries[plugin].entries;
      }
    }
    assert Hidden(shown).entries == Hidden(configs).entries;
    if AllHidden(configs) {
      assert Hidden(configs).entries == configs.entries;
    }
  }

  lemma HiddenIsHidden(configs: Json)
    requires IsPluginConfigs(configs) && SecretsInPlace(configs)
    ensures AllHidden(Hidden(configs)) && SecretsInPlace(Hidden(configs))
  {
    forall plugin, key | plugin in Hidden(configs).entries && key in Hidden(configs).entries[plugin].entries
      ensures InPlace(key, Hidden(configs).entries[plugin].entries[key])
    {
      assert InPlace(key, configs.entries[plugin].entries[key]);
    }
  }

  /** Merging keeps the secrets in place. */
  lemma {:induction false} MergedHasNoSecrets(ori: Json, updater: Json, none: bool)
    requires ori.Dict? && updater.Dict? && Mergeable(ori, updater)
    requires NoSecrets(ori) && NoSecrets(updater)
    ensures NoSecrets(Merged(ori, updater, none))
    decreases updater
  {
    var r := Merged(ori, updater, none);
    forall k | k in r.entries ensures NoSecrets(r.entries[k]) {
      MergedKey(ori, updater, none, k);
      if k in updater.entries && k in ori.entries && ori.entries[k].Dict? {
        MergedHasNoSecrets(ori.entries[k], updater.entries[k], none);
      }
    }
  }

  lemma MergedInPlace(ori: Json, updater: Json, none: bool)
    requires IsPluginConfigs(ori) && IsPluginConfigs(updater) && Mergeable(ori, updater)
    requires SecretsInPlace(ori) && SecretsInPlace(updater)
    ensures IsPluginConfigs(Merged(ori, updater, none)) && SecretsInPlace(Merged(ori, updater, none))
  {
    var r := Merged(ori, updater, none);
    forall plugin | plugin in r.entries
      ensures r.entries[plugin].Dict?
      ensures forall key :: key in r.entries[plugin].entries ==> InPlace(key, r.entries[plugin].entries[key])
    {
      MergedKey(ori, updater, none, plugin);
      if plugin in ori.entries && plugin in updater.entries {
        var o, u := ori.entries[plugin], updater.entries[plugin];
        forall key | key in r.entries[plugin].entries ensures InPlace(key, r.entries[plugin].entries[key]) {
          MergedKey(o, u, none, key);
          assert key in o.entries ==> InPlace(key, o.entries[key]);
          assert key in u.entries ==> InPlace(key, u.entries[key]);
          if key in o.entries && key in u.entries && o.entries[key].Dict? {
            MergedHasNoSecrets(o.entries[key], u.entries[key], none);
          }
        }
      } else if plugin in ori.entries {
        assert r.entries[plugin] == ori.entries[plugin];
      } else {
        assert r.entries[plugin] == updater.entries[plugin];
      }
    }
  }
}
