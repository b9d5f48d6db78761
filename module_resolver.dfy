/**
 * `getModulesList` and `getPeerDependencies`: the packages a configuration
 * needs, as `name@version` strings, with the peer dependencies of each
 * shareable config looked up through a cache that lives as long as the process.
 */
module ModuleResolver {
  import opened Wrappers
  import opened OrderedObject
  import opened ConfigObject

  /** A `peerDependencies` object: package name to version range. */
  type PeerMap = JsObject<string>

  /** The functions `getModulesList` calls that this model does not define. */
  datatype Collaborators = Collaborators(
    /** `naming.normalizePackageName(name, prefix)`; left uninterpreted. */
    normalize: (string, string) -> string,
    /** `npmUtils.fetchPeerDependencies`; `None` stands for its `null`. */
    fetchPeerDependencies: string -> Option<PeerMap>,
    /** `npmUtils.checkDevDeps`: installed or not, per package name. */
    checkDevDeps: seq<string> -> map<string, bool>)

  predicate StartsWith(s: string, prefix: string) {
    |prefix| <= |s| && s[..|prefix|] == prefix
  }

  /** A preset the resolver skips: a core preset (`eslint:`) or one bundled in a plugin (`plugin:`). */
  predicate IsBundledPreset(name: string) {
    StartsWith(name, "eslint:") || StartsWith(name, "plugin:")
  }

  function PluginPackage(c: Collaborators, plugin: string): string {
    c.normalize(plugin, "eslint-plugin")
  }

  function PresetPackage(c: Collaborators, preset: string): string {
    c.normalize(preset, "ec0lint-config")
  }

  /** The cache key and oracle argument for a preset package: `${moduleName}@latest`. */
  function PeerKey(moduleName: string): string {
    moduleName + "@latest"
  }

  // ---------------------------------------------------------------------------
  // The peer-dependency cache
  // ---------------------------------------------------------------------------

  /**
   * The cache's contents and, as a ghost record, every name sent to the
   * oracle so far, in order.
   */
  datatype CacheState = CacheState(entries: map<string, Option<PeerMap>>, queries: seq<string>)

  /** `!result` is false: the name is cached with an object (a cached `null` is a miss). */
  predicate IsHit(entries: map<string, Option<PeerMap>>, name: string) {
    name in entries && entries[name].Some?
  }

  /**
   * One call of `getPeerDependencies(name)`: a hit answers from the cache
   * and asks nothing; a miss asks the oracle once, stores the answer and
   * returns it. No entry is ever removed.
   */
  function Lookup(c: Collaborators, s: CacheState, name: string): (res: (Option<PeerMap>, CacheState))
    ensures name in res.1.entries && res.1.entries[name] == res.0
    ensures forall k :: k != name ==> (k in res.1.entries <==> k in s.entries)
    ensures forall k :: k != name && k in s.entries ==> res.1.entries[k] == s.entries[k]
    ensures IsHit(s.entries, name) ==> res.0 == s.entries[name] && res.1.queries == s.queries
    ensures !IsHit(s.entries, name) ==> res.0 == c.fetchPeerDependencies(name) && res.1.queries == s.queries + [name]
  {
    if IsHit(s.entries, name) then (s.entries[name], s)
    else
      var answer := c.fetchPeerDependencies(name);
      (answer, CacheState(s.entries[name := answer], s.queries + [name]))
  }

  /**
   * What the cache keeps true: every entry is the oracle's answer for its
   * name, the cached names are exactly the names asked about, and a name
   * whose answer was an object has been asked about exactly once.
   */
  ghost predicate CacheInvariant(c: Collaborators, s: CacheState) {
    && (forall k :: k in s.entries ==> s.entries[k] == c.fetchPeerDependencies(k))
    && (forall k :: k in s.entries <==> k in s.queries)
    && (forall k :: IsHit(s.entries, k) ==> multiset(s.queries)[k] == 1)
  }

  /** A lookup keeps the invariant, and the cache is transparent: it answers what the oracle would. */
  lemma LookupKeepsInvariant(c: Collaborators, s: CacheState, name: string)
    requires CacheInvariant(c, s)
    ensures CacheInvariant(c, Lookup(c, s, name).1)
    ensures Lookup(c, s, name).0 == c.fetchPeerDependencies(name)
  {
  }

  /** An object answer is final: asking again returns it and queries nothing. */
  lemma ObjectAnswerIsFinal(c: Collaborators, s: CacheState, name: string)
    ensures var (r, s1) := Lookup(c, s, name); r.Some? ==> Lookup(c, s1, name) == (r, s1)
  {
  }

  // ---------------------------------------------------------------------------
  // getModulesList, as specification functions
  // ---------------------------------------------------------------------------

  /** The plugin loop: `modules[normalize(plugin, "eslint-plugin")] = "latest"` for each plugin. */
  function PluginLog(c: Collaborators, plugins: seq<string>): (log: Log<string>)
    ensures |log| == |plugins|
    decreases |plugins|
  {
    if plugins == [] then []
    else PluginLog(c, plugins[..|plugins| - 1]) + [(PluginPackage(c, plugins[|plugins| - 1]), "latest")]
  }

  /** `Object.assign(modules, peers)`; a `null` answer assigns nothing. */
  function PeerLog(peers: Option<PeerMap>): Log<string> {
    if peers.Some? then Pairs(peers.value) else []
  }

  /**
   * The `extends` loop: for each preset that is not bundled, its package at
   * `"latest"`, then its peer dependencies with their own version ranges,
   * looked up through the cache.
   */
  function ResolvePresets(c: Collaborators, s: CacheState, presets: seq<string>): (res: (Log<string>, CacheState))
    ensures s.queries <= res.1.queries
    ensures s.entries.Keys <= res.1.entries.Keys
    decreases |presets|
  {
    if presets == [] then ([], s)
    else
      var (log, s1) := ResolvePresets(c, s, presets[..|presets| - 1]);
      var preset := presets[|presets| - 1];
      if IsBundledPreset(preset) then (log, s1)
      else
        var name := PresetPackage(c, preset);
        var (peers, s2) := Lookup(c, s1, PeerKey(name));
        (log + [(name, "latest")] + PeerLog(peers), s2)
  }

  /** Reference for the `extends` loop without a cache: every peer set straight from the oracle. */
  function PresetLog(c: Collaborators, presets: seq<string>): Log<string>
    decreases |presets|
  {
    if presets == [] then []
    else
      var log := PresetLog(c, presets[..|presets| - 1]);
      var preset := presets[|presets| - 1];
      if IsBundledPreset(preset) then log
      else
        var name := PresetPackage(c, preset);
        log + [(name, "latest")] + PeerLog(c.fetchPeerDependencies(PeerKey(name)))
  }

  /** `config.parser || (config.parserOptions && config.parserOptions.parser)`, when truthy. */
  function ParserOf(parser: Option<string>, parserOptions: JsObject<string>): (p: Option<string>)
    ensures p.Some? ==> p.value != ""
    ensures p.Some? <==> (parser.Some? && parser.value != "") || ("parser" in parserOptions.vals && parserOptions.vals["parser"] != "")
    ensures parser.Some? && parser.value != "" ==> p == parser
    ensures (!(parser.Some? && parser.value != "") && "parser" in parserOptions.vals && parserOptions.vals["parser"] != "")
      ==> p == Some(parserOptions.vals["parser"])
  {
    if parser.Some? && parser.value != "" then parser
    else if "parser" in parserOptions.vals && parserOptions.vals["parser"] != "" then Some(parserOptions.vals["parser"])
    else None
  }

  function ParserLog(p: Option<string>): Log<string> {
    if p.Some? then [(p.value, "latest")] else []
  }

  function PluginsOf(view: ConfigView): seq<string> {
    if view.plugins.Some? then view.plugins.value else []
  }

  /** Everything `getModulesList` assigns before its self-install step, in order, and the cache after it. */
  function PreInstallLog(c: Collaborators, s: CacheState, view: ConfigView): (res: (Log<string>, CacheState)) {
    var (presetLog, s1) := ResolvePresets(c, s, ExtendsList(view.presets));
    (PluginLog(c, PluginsOf(view)) + presetLog + ParserLog(ParserOf(view.parser, view.parserOptions)), s1)
  }

  /**
   * The self-install step. `installEc0Lint == false` deletes `ec0lint`.
   * Otherwise, only when `status` says `ec0lint` is exactly `false`, the
   * `ec0lint` entry keeps a truthy value it already has or becomes
   * `"latest"`, and the configuration is flagged (the second component).
   */
  function SelfInstall(modules: JsObject<string>, installEc0Lint: bool, status: map<string, bool>): (res: (JsObject<string>, bool))
    ensures !installEc0Lint ==> !res.1 && "ec0lint" !in res.0.vals && res.0.keys == Without(modules.keys, "ec0lint")
    ensures installEc0Lint ==> (res.1 <==> "ec0lint" in status && !status["ec0lint"])
    ensures installEc0Lint && !res.1 ==> res.0 == modules
    ensures res.1 ==> "ec0lint" in res.0.vals
    ensures res.1 ==> res.0.vals["ec0lint"] == if "ec0lint" in modules.vals && modules.vals["ec0lint"] != "" then modules.vals["ec0lint"] else "latest"
    ensures res.1 ==> res.0.keys == Extend(modules.keys, ["ec0lint"])
    ensures forall k :: k != "ec0lint" ==> (k in res.0.vals <==> k in modules.vals)
    ensures forall k :: k != "ec0lint" && k in modules.vals ==> res.0.vals[k] == modules.vals[k]
  {
    if !installEc0Lint then (Delete(modules, "ec0lint"), false)
    else if "ec0lint" in status && status["ec0lint"] == false then
      var version := if "ec0lint" in modules.vals && modules.vals["ec0lint"] != "" then modules.vals["ec0lint"] else "latest";
      (Assign(modules, "ec0lint", version), true)
    else (modules, false)
  }

  /**
   * The whole of `getModulesList(config, installEc0Lint)`: the final modules
   * object, the cache afterwards, and whether `config.installedEc0Lint` is set.
   * The self-install step asks `checkDevDeps(["eslint"])` but reads the
   * `ec0lint` entry of the answer, as the source does.
   */
  function Resolution(c: Collaborators, s: CacheState, view: ConfigView, installEc0Lint: bool): (res: (JsObject<string>, CacheState, bool)) {
    var (log, s1) := PreInstallLog(c, s, view);
    var (modules, flag) := SelfInstall(Apply(Empty(), log), installEc0Lint, c.checkDevDeps(["eslint"]));
    (modules, s1, flag)
  }

  /** One more plugin in the plugin loop. */
  lemma PluginStep(c: Collaborators, plugins: seq<string>, i: nat)
    requires i < |plugins|
    ensures Apply(Empty(), PluginLog(c, plugins[..i + 1])) == Assign(Apply(Empty(), PluginLog(c, plugins[..i])), PluginPackage(c, plugins[i]), "latest")
  {
    assert plugins[..i + 1][..i] == plugins[..i];
    assert PluginLog(c, plugins[..i + 1])[..i] == PluginLog(c, plugins[..i]);
  }

  /** One more preset in the `extends` loop. */
  lemma ResolvePresetsStep(c: Collaborators, s: CacheState, presets: seq<string>, j: nat)
    requires j < |presets|
    ensures IsBundledPreset(presets[j]) ==> ResolvePresets(c, s, presets[..j + 1]) == ResolvePresets(c, s, presets[..j])
    ensures !IsBundledPreset(presets[j]) ==>
              var before := ResolvePresets(c, s, presets[..j]);
              var name := PresetPackage(c, presets[j]);
              var looked := Lookup(c, before.1, PeerKey(name));
              ResolvePresets(c, s, presets[..j + 1]) == (before.0 + [(name, "latest")] + PeerLog(looked.0), looked.1)
  {
    assert presets[..j + 1][..j] == presets[..j];
  }

  /** The assignments of one preset, performed on the object built so far. */
  lemma ApplyPresetStep(base: Log<string>, log: Log<string>, name: string, peers: Option<PeerMap>)
    ensures Apply(Empty(), base + (log + [(name, "latest")] + PeerLog(peers))) ==
              var d := Assign(Apply(Empty(), base + log), name, "latest");
              if peers.Some? then AssignAll(d, peers.value) else d
  {
    var prefix := base + log + [(name, "latest")];
    assert base + (log + [(name, "latest")] + PeerLog(peers)) == prefix + PeerLog(peers);
    assert prefix[..|prefix| - 1] == base + log;
    ApplyConcat(Empty(), prefix, PeerLog(peers));
  }

  /** The parser assignment, performed on the object built so far. */
  lemma ApplyParserStep(log: Log<string>, parser: Option<string>)
    ensures Apply(Empty(), log + ParserLog(parser)) ==
              if parser.Some? then Assign(Apply(Empty(), log), parser.value, "latest") else Apply(Empty(), log)
  {
    assert (log + ParserLog(parser))[..|log|] == log;
    if parser.None? {
      assert log + ParserLog(parser) == log;
    }
  }

  /** The plugin loop of `getModulesList`, on a fresh object. */
  method AddPlugins(c: Collaborators, plugins: seq<string>) returns (dict: JsObject<string>)
    ensures dict == Apply(Empty(), PluginLog(c, plugins))
  {
    dict := Empty();
    var i := 0;
    while i < |plugins|
      invariant 0 <= i <= |plugins|
      invariant dict == Apply(Empty(), PluginLog(c, plugins[..i]))
    {
      PluginStep(c, plugins, i);
      dict := Assign(dict, PluginPackage(c, plugins[i]), "latest");
      i := i + 1;
    }
    assert plugins[..i] == plugins;
  }

  // ---------------------------------------------------------------------------
  // The resolver object
  // ---------------------------------------------------------------------------

  /**
   * The module's process-wide state: the `getPeerDependencies.cache` map,
   * with the collaborators it calls. `queries` is a ghost record of the
   * oracle calls.
   */
  class Resolver {
    const collaborators: Collaborators
    var cache: map<string, Option<PeerMap>>
    ghost var queries: seq<string>

    ghost function State(): CacheState
      reads this
    {
      CacheState(cache, queries)
    }

    ghost predicate Valid()
      reads this
    {
      CacheInvariant(collaborators, State())
    }

    /** `getPeerDependencies.cache = new Map()`. */
    constructor (collaborators: Collaborators)
      ensures Valid()
      ensures this.collaborators == collaborators
      ensures cache == map[] && queries == []
    {
      this.collaborators := collaborators;
      cache := map[];
      queries := [];
    }

    /** `getPeerDependencies(moduleName)`. */
    method GetPeerDependencies(moduleName: string) returns (result: Option<PeerMap>)
      requires Valid()
      modifies this
      ensures Valid()
      ensures result == Lookup(collaborators, old(State()), moduleName).0
      ensures State() == Lookup(collaborators, old(State()), moduleName).1
      ensures result == collaborators.fetchPeerDependencies(moduleName)
    {
      LookupKeepsInvariant(collaborators, State(), moduleName);
      result := if moduleName in cache then cache[moduleName] else None;
      if result.None? {
        result := collaborators.fetchPeerDependencies(moduleName);
        cache := cache[moduleName := result];
        queries := queries + [moduleName];
      }
    }

    /**
     * The `extends` loop of `getModulesList`, continuing the object built so
     * far (`dict`, the result of the assignments `base`): every assignment of
     * `ResolvePresets`, with the cache updated as it says.
     */
    method AddPresets(dict: JsObject<string>, ghost base: Log<string>, presets: seq<string>) returns (result: JsObject<string>)
      requires Valid()
      requires dict == Apply(Empty(), base)
      modifies this
      ensures Valid()
      ensures result == Apply(Empty(), base + ResolvePresets(collaborators, old(State()), presets).0)
      ensures State() == ResolvePresets(collaborators, old(State()), presets).1
    {
      var c := collaborators;
      result := dict;
      var j := 0;
      assert base + ResolvePresets(c, old(State()), presets[..0]).0 == base;
      while j < |presets|
        invariant 0 <= j <= |presets|
        invariant Valid()
        invariant result == Apply(Empty(), base + ResolvePresets(c, old(State()), presets[..j]).0)
        invariant State() == ResolvePresets(c, old(State()), presets[..j]).1
      {
        ResolvePresetsStep(c, old(State()), presets, j);
        ghost var before := ResolvePresets(c, old(State()), presets[..j]);
        var preset := presets[j];
        if !IsBundledPreset(preset) {
          var moduleName := PresetPackage(c, preset);
          ghost var looked := Lookup(c, before.1, PeerKey(moduleName));
          result := Assign(result, moduleName, "latest");
          var peers := GetPeerDependencies(PeerKey(moduleName));
          assert peers == looked.0 && State() == looked.1;
          ApplyPresetStep(base, before.0, moduleName, peers);
          if peers.Some? {
            result := AssignAll(result, peers.value);
          }
        }
        j := j + 1;
      }
      assert presets[..j] == presets;
    }

    /**
     * `getModulesList(config, installEc0Lint)`: the `name@version` list of
     * `Resolution`, with the cache and `config.installedEc0Lint` updated as
     * it says. `installEc0Lint` is `false` only when the caller passes a
     * literal `false`; an omitted argument behaves as `true`.
     */
    method GetModulesList(config: Config, installEc0Lint: bool) returns (modules: seq<string>)
      requires Valid()
      modifies this, config`installedEc0Lint
      ensures Valid()
      ensures modules == Render(Resolution(collaborators, old(State()), old(config.View()), installEc0Lint).0, "@")
      ensures State() == Resolution(collaborators, old(State()), old(config.View()), installEc0Lint).1
      ensures config.installedEc0Lint == (old(config.installedEc0Lint) || Resolution(collaborators, old(State()), old(config.View()), installEc0Lint).2)
    {
      var c := collaborators;
      ghost var view := config.View();
      var plugins := PluginsOf(config.View());
      var dict := AddPlugins(c, plugins);
      ghost var pluginLog := PluginLog(c, plugins);

      var presets := ExtendsList(config.extendsValue);
      dict := AddPresets(dict, pluginLog, presets);
      ghost var presetLog := ResolvePresets(c, old(State()), presets).0;

      var parser := ParserOf(config.parser, config.parserOptions);
      if parser.Some? {
        dict := Assign(dict, parser.value, "latest");
      }
      ApplyParserStep(pluginLog + presetLog, parser);
      ghost var preInstall := PreInstallLog(c, old(State()), view);
      assert dict == Apply(Empty(), preInstall.0);

      var installed := false;
      if installEc0Lint == false {
        dict := Delete(dict, "ec0lint");
      } else {
        var installStatus := c.checkDevDeps(["eslint"]);
        if "ec0lint" in installStatus && installStatus["ec0lint"] == false {
          var version := if "ec0lint" in dict.vals && dict.vals["ec0lint"] != "" then dict.vals["ec0lint"] else "latest";
          dict := Assign(dict, "ec0lint", version);
          installed := true;
        }
      }
      assert (dict, installed) == SelfInstall(Apply(Empty(), preInstall.0), installEc0Lint, c.checkDevDeps(["eslint"]));
      if installed {
        config.installedEc0Lint := true;
      }
      modules := Render(dict, "@");
    }
  }
}
