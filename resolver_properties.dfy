/**
 * What `getModulesList` and its peer-dependency cache guarantee, stated over
 * the specification functions of `ModuleResolver`.
 */
module ResolverProperties {
  import opened Wrappers
  import opened OrderedObject
  import opened ConfigObject
  import opened ModuleResolver

  // ---------------------------------------------------------------------------
  // The cache
  // ---------------------------------------------------------------------------

  /**
   * The cache is transparent: resolving presets through a cache that keeps
   * its invariant assigns exactly what asking the oracle directly would,
   * and the invariant still holds afterwards.
   */
  lemma {:induction false} ResolvePresetsTransparent(c: Collaborators, s: CacheState, presets: seq<string>)
    requires CacheInvariant(c, s)
    ensures ResolvePresets(c, s, presets).0 == PresetLog(c, presets)
    ensures CacheInvariant(c, ResolvePresets(c, s, presets).1)
    decreases |presets|
  {
    if presets != [] {
      var prefix := presets[..|presets| - 1];
      ResolvePresetsTransparent(c, s, prefix);
      var preset := presets[|presets| - 1];
      if !IsBundledPreset(preset) {
        LookupKeepsInvariant(c, ResolvePresets(c, s, prefix).1, PeerKey(PresetPackage(c, preset)));
      }
    }
  }

  /** Every preset that is not bundled has its `name@latest` key in the cache afterwards. */
  lemma {:induction false} ResolvedPresetsAreCached(c: Collaborators, s: CacheState, presets: seq<string>)
    ensures forall p :: p in presets && !IsBundledPreset(p) ==>
              PeerKey(PresetPackage(c, p)) in ResolvePresets(c, s, presets).1.entries
    decreases |presets|
  {
    if presets != [] {
      var prefix := presets[..|presets| - 1];
      ResolvedPresetsAreCached(c, s, prefix);
      forall p | p in presets && !IsBundledPreset(p)
        ensures PeerKey(PresetPackage(c, p)) in ResolvePresets(c, s, presets).1.entries
      {
        if p != presets[|presets| - 1] {
          assert p in prefix;
        }
      }
    }
  }

  /** A run of `getModulesList` keeps the cache invariant. */
  lemma ResolutionKeepsInvariant(c: Collaborators, s: CacheState, view: ConfigView, installEc0Lint: bool)
    requires CacheInvariant(c, s)
    ensures CacheInvariant(c, Resolution(c, s, view, installEc0Lint).1)
  {
    ResolvePresetsTransparent(c, s, ExtendsList(view.presets));
  }

  /**
   * A shareable config whose peer dependencies came back as an object is
   * asked about once per process: after any later run of `getModulesList`,
   * whatever it extends, its key has been sent to the oracle exactly once.
   */
  lemma ObjectAnswerAskedOnce(c: Collaborators, s: CacheState, first: ConfigView, later: ConfigView,
                              install1: bool, install2: bool, preset: string)
    requires CacheInvariant(c, s)
    requires preset in ExtendsList(first.presets) && !IsBundledPreset(preset)
    requires c.fetchPeerDependencies(PeerKey(PresetPackage(c, preset))).Some?
    ensures multiset(Resolution(c, Resolution(c, s, first, install1).1, later, install2).1.queries)[PeerKey(PresetPackage(c, preset))] == 1
  {
    var key := PeerKey(PresetPackage(c, preset));
    var s1 := Resolution(c, s, first, install1).1;
    ResolvedPresetsAreCached(c, s, ExtendsList(first.presets));
    ResolutionKeepsInvariant(c, s, first, install1);
    var s2 := Resolution(c, s1, later, install2).1;
    ResolutionKeepsInvariant(c, s1, later, install2);
    assert key in s1.entries;
    assert key in s2.entries;
    assert IsHit(s2.entries, key);
  }

  /**
   * A `null` answer is not cached as final (the cache test is `!result`):
   * a preset whose peer dependencies came back `null` is sent to the oracle
   * again by every run that extends it.
   */
  lemma {:induction false} NullAnswerAskedAgain(c: Collaborators, s: CacheState, presets: seq<string>, preset: string)
    requires CacheInvariant(c, s)
    requires preset in presets && !IsBundledPreset(preset)
    requires c.fetchPeerDependencies(PeerKey(PresetPackage(c, preset))).None?
    ensures multiset(ResolvePresets(c, s, presets).1.queries)[PeerKey(PresetPackage(c, preset))]
              > multiset(s.queries)[PeerKey(PresetPackage(c, preset))]
    decreases |presets|
  {
    var key := PeerKey(PresetPackage(c, preset));
    var prefix := presets[..|presets| - 1];
    var s1 := ResolvePresets(c, s, prefix).1;
    var s2 := ResolvePresets(c, s, presets).1;
    CountGrows(s.queries, s1.queries, key);
    if presets[|presets| - 1] == preset {
      ResolvePresetsTransparent(c, s, prefix);
      NullIsNeverHit(c, s1, key);
      assert s2.queries == s1.queries + [key];
      assert multiset(s2.queries)[key] == multiset(s1.queries)[key] + 1;
    } else {
      assert preset in prefix;
      NullAnswerAskedAgain(c, s, prefix, preset);
      CountGrows(s1.queries, s2.queries, key);
    }
  }

  /** Under the invariant, a name whose answer is `null` is never a hit. */
  lemma NullIsNeverHit(c: Collaborators, s: CacheState, key: string)
    requires CacheInvariant(c, s)
    requires c.fetchPeerDependencies(key).None?
    ensures !IsHit(s.entries, key)
  {
  }

  /** A longer record of queries counts every name at least as often. */
  lemma CountGrows(xs: seq<string>, ys: seq<string>, k: string)
    requires xs <= ys
    ensures multiset(ys)[k] >= multiset(xs)[k]
  {
    assert ys == xs + ys[|xs|..];
    assert multiset(ys) == multiset(xs) + multiset(ys[|xs|..]);
  }

  /** The same at the level of whole runs of `getModulesList`. */
  lemma NullAnswerAskedEveryRun(c: Collaborators, s: CacheState, view: ConfigView, installEc0Lint: bool, preset: string)
    requires CacheInvariant(c, s)
    requires preset in ExtendsList(view.presets) && !IsBundledPreset(preset)
    requires c.fetchPeerDependencies(PeerKey(PresetPackage(c, preset))).None?
    ensures multiset(Resolution(c, s, view, installEc0Lint).1.queries)[PeerKey(PresetPackage(c, preset))]
              > multiset(s.queries)[PeerKey(PresetPackage(c, preset))]
  {
    NullAnswerAskedAgain(c, s, ExtendsList(view.presets), preset);
  }

  // ---------------------------------------------------------------------------
  // The `extends` loop
  // ---------------------------------------------------------------------------

  /** The presets the `extends` loop does not skip, in order. */
  function Unbundled(presets: seq<string>): (r: seq<string>)
    ensures forall p :: p in r <==> p in presets && !IsBundledPreset(p)
    decreases |presets|
  {
    if presets == [] then []
    else
      var rest := Unbundled(presets[..|presets| - 1]);
      var last := presets[|presets| - 1];
      assert forall p :: p in presets <==> p in presets[..|presets| - 1] || p == last;
      if IsBundledPreset(last) then rest else rest + [last]
  }

  /** Core (`eslint:`) and plugin (`plugin:`) presets contribute nothing. */
  lemma {:induction false} BundledPresetsSkipped(c: Collaborators, presets: seq<string>)
    ensures PresetLog(c, presets) == PresetLog(c, Unbundled(presets))
    decreases |presets|
  {
    if presets != [] {
      var prefix := presets[..|presets| - 1];
      var last := presets[|presets| - 1];
      BundledPresetsSkipped(c, prefix);
      if !IsBundledPreset(last) {
        var u := Unbundled(prefix) + [last];
        assert u[..|u| - 1] == Unbundled(prefix);
      }
    }
  }

  /**
   * The preset the wizard adds is not bundled (its second letter is `c`,
   * not the `s` of `eslint:`), so its package is assigned `latest` and its
   * peer dependencies are looked up.
   */
  lemma RecommendedPresetIsLookedUp(c: Collaborators, s: CacheState)
    ensures !IsBundledPreset("ec0lint:recommended")
    ensures ResolvePresets(c, s, ["ec0lint:recommended"]).0 ==
              [(PresetPackage(c, "ec0lint:recommended"), "latest")]
              + PeerLog(Lookup(c, s, PeerKey(PresetPackage(c, "ec0lint:recommended"))).0)
  {
    var preset := "ec0lint:recommended";
    assert !IsBundledPreset(preset) by {
      assert preset[..7][1] != "eslint:"[1];
      assert preset[..7][0] != "plugin:"[0];
    }
    ResolveOne(c, s, preset);
  }

  /** The `extends` loop over one preset that is not bundled. */
  lemma ResolveOne(c: Collaborators, s: CacheState, preset: string)
    requires !IsBundledPreset(preset)
    ensures ResolvePresets(c, s, [preset]).0 ==
              [(PresetPackage(c, preset), "latest")] + PeerLog(Lookup(c, s, PeerKey(PresetPackage(c, preset))).0)
  {
    var one := [preset];
    assert one[..0] == [];
    assert [] + [(PresetPackage(c, preset), "latest")] == [(PresetPackage(c, preset), "latest")];
  }

  /**
   * A configuration as `processAnswers` leaves it (no plugins, no parser,
   * only `ecmaVersion` in `parserOptions`) needs nothing before the
   * self-install step except, unless the purpose is `"code"`, the
   * recommended preset's package and its peer dependencies.
   */
  lemma WizardConfigNeeds(c: Collaborators, s: CacheState, purpose: string)
    ensures PreInstallLog(c, s, WizardView(purpose)).0 ==
              if purpose == "code" then []
              else [(PresetPackage(c, "ec0lint:recommended"), "latest")]
                   + PeerLog(Lookup(c, s, PeerKey(PresetPackage(c, "ec0lint:recommended"))).0)
  {
    var view := WizardView(purpose);
    var presetLog := ResolvePresets(c, s, ExtendsList(view.presets)).0;
    assert PreInstallLog(c, s, view).0 == presetLog by {
      assert PluginLog(c, PluginsOf(view)) == [];
      assert ParserLog(ParserOf(view.parser, view.parserOptions)) == [];
      assert [] + presetLog + [] == presetLog;
    }
    if purpose != "code" {
      assert ExtendsList(view.presets) == ["ec0lint:recommended"];
      RecommendedPresetIsLookedUp(c, s);
    }
  }

  // ---------------------------------------------------------------------------
  // The modules object
  // ---------------------------------------------------------------------------

  /**
   * The modules object of a run: before the self-install step its keys are
   * the assigned names in order of first assignment, each holding the
   * version of its last assignment (so a peer range assigned after
   * `latest` replaces it, and the other way round). The self-install step
   * then only deletes or adds `ec0lint`.
   */
  lemma ModulesObjectContents(c: Collaborators, s: CacheState, view: ConfigView, installEc0Lint: bool)
    ensures var log := PreInstallLog(c, s, view).0;
            var m := Resolution(c, s, view, installEc0Lint).0;
            && (forall k :: k != "ec0lint" ==> (k in m.vals <==> k in KeysOf(log)))
            && (forall k :: k != "ec0lint" && k in m.vals ==> k in KeysOf(log) && m.vals[k] == LastValue(log, k))
            && (!installEc0Lint ==> m.keys == Without(Dedup(KeysOf(log)), "ec0lint") && "ec0lint" !in m.vals)
            && (installEc0Lint && !Resolution(c, s, view, installEc0Lint).2 ==> m.keys == Dedup(KeysOf(log)))
            && (Resolution(c, s, view, installEc0Lint).2 ==> m.keys == Extend(Dedup(KeysOf(log)), ["ec0lint"]))
  {
    var log := PreInstallLog(c, s, view).0;
    ApplyShape(Empty(), log);
  }

  /** The plugin loop assigns exactly the normalized name of each plugin. */
  lemma {:induction false} PluginLogKeys(c: Collaborators, plugins: seq<string>, k: string)
    ensures k in KeysOf(PluginLog(c, plugins)) <==> exists p :: p in plugins && PluginPackage(c, p) == k
    decreases |plugins|
  {
    if plugins != [] {
      var prefix := plugins[..|plugins| - 1];
      var last := plugins[|plugins| - 1];
      PluginLogKeys(c, prefix, k);
      var log := PluginLog(c, plugins);
      assert KeysOf(log) == KeysOf(PluginLog(c, prefix)) + [PluginPackage(c, last)] by {
        assert log[..|log| - 1] == PluginLog(c, prefix);
      }
      if k in KeysOf(log) {
        if k in KeysOf(PluginLog(c, prefix)) {
          var p :| p in prefix && PluginPackage(c, p) == k;
          assert p in plugins;
        } else {
          assert last in plugins && PluginPackage(c, last) == k;
        }
      }
      if exists p :: p in plugins && PluginPackage(c, p) == k {
        var p :| p in plugins && PluginPackage(c, p) == k;
        if p != last {
          assert p in prefix;
        }
      }
    }
  }

  /**
   * What one preset of the `extends` loop assigns: nothing when it is
   * bundled, otherwise its package and every peer in the oracle's answer.
   */
  predicate Contributes(c: Collaborators, preset: string, k: string) {
    && !IsBundledPreset(preset)
    && (|| k == PresetPackage(c, preset)
        || (var peers := c.fetchPeerDependencies(PeerKey(PresetPackage(c, preset)));
            peers.Some? && k in peers.value.vals))
  }

  /** The `extends` loop assigns exactly what its presets contribute. */
  lemma {:induction false} PresetLogKeys(c: Collaborators, presets: seq<string>, k: string)
    ensures k in KeysOf(PresetLog(c, presets)) <==> exists p :: p in presets && Contributes(c, p, k)
    decreases |presets|
  {
    if presets != [] {
      var prefix := presets[..|presets| - 1];
      var last := presets[|presets| - 1];
      PresetLogKeys(c, prefix, k);
      assert forall p :: p in presets <==> p in prefix || p == last;
      if !IsBundledPreset(last) {
        var name := PresetPackage(c, last);
        var peers := PeerLog(c.fetchPeerDependencies(PeerKey(name)));
        assert k in KeysOf(PresetLog(c, presets)) <==> k in KeysOf(PresetLog(c, prefix)) || k == name || k in KeysOf(peers) by {
          assert PresetLog(c, presets) == PresetLog(c, prefix) + [(name, "latest")] + peers;
          KeysOfConcat(PresetLog(c, prefix), [(name, "latest")]);
          KeysOfConcat(PresetLog(c, prefix) + [(name, "latest")], peers);
        }
        assert k == name || k in KeysOf(peers) <==> Contributes(c, last, k) by {
          PeerLogKeys(c.fetchPeerDependencies(PeerKey(name)), k);
        }
      }
    }
  }

  lemma PeerLogKeys(peers: Option<PeerMap>, k: string)
    ensures k in KeysOf(PeerLog(peers)) <==> peers.Some? && k in peers.value.vals
  {
  }

  /**
   * Which names the modules object holds (apart from `ec0lint`, which the
   * self-install step decides): the plugins' packages, what each preset
   * that is not bundled contributes, and the parser.
   */
  lemma ModulesNamed(c: Collaborators, s: CacheState, view: ConfigView, installEc0Lint: bool, k: string)
    requires CacheInvariant(c, s)
    requires k != "ec0lint"
    ensures k in Resolution(c, s, view, installEc0Lint).0.vals <==>
              || (exists p :: p in PluginsOf(view) && PluginPackage(c, p) == k)
              || (exists p :: p in ExtendsList(view.presets) && Contributes(c, p, k))
              || ParserOf(view.parser, view.parserOptions) == Some(k)
  {
    var plugins := PluginLog(c, PluginsOf(view));
    var presets := ResolvePresets(c, s, ExtendsList(view.presets)).0;
    var parserOf := ParserOf(view.parser, view.parserOptions);
    var parser := ParserLog(parserOf);
    var log := PreInstallLog(c, s, view).0;
    assert k in Resolution(c, s, view, installEc0Lint).0.vals <==> k in KeysOf(log) by {
      ModulesObjectContents(c, s, view, installEc0Lint);
    }
    assert k in KeysOf(log) <==> k in KeysOf(plugins) || k in KeysOf(presets) || k in KeysOf(parser) by {
      assert log == plugins + presets + parser;
      KeysOfConcat(plugins, presets);
      KeysOfConcat(plugins + presets, parser);
    }
    assert k in KeysOf(plugins) <==> exists p :: p in PluginsOf(view) && PluginPackage(c, p) == k by {
      PluginLogKeys(c, PluginsOf(view), k);
    }
    assert k in KeysOf(presets) <==> exists p :: p in ExtendsList(view.presets) && Contributes(c, p, k) by {
      ResolvePresetsTransparent(c, s, ExtendsList(view.presets));
      PresetLogKeys(c, ExtendsList(view.presets), k);
    }
    assert k in KeysOf(parser) <==> parserOf == Some(k);
  }

  /**
   * The output order: the plugins' packages come first, then what the
   * presets add, then the parser; later segments only append names that
   * are not there yet.
   */
  lemma SegmentOrder(c: Collaborators, s: CacheState, view: ConfigView)
    ensures var plugins := PluginLog(c, PluginsOf(view));
            var presets := ResolvePresets(c, s, ExtendsList(view.presets)).0;
            var all := Apply(Empty(), PreInstallLog(c, s, view).0).keys;
            && Dedup(KeysOf(plugins)) <= Dedup(KeysOf(plugins + presets))
            && Dedup(KeysOf(plugins + presets)) <= all
  {
    var plugins := PluginLog(c, PluginsOf(view));
    var presets := ResolvePresets(c, s, ExtendsList(view.presets)).0;
    var parser := ParserLog(ParserOf(view.parser, view.parserOptions));
    var log := PreInstallLog(c, s, view).0;
    assert log == (plugins + presets) + parser;
    ApplyShape(Empty(), log);
    KeysOfConcat(plugins, presets);
    KeysOfConcat(plugins + presets, parser);
    ExtendConcat([], KeysOf(plugins), KeysOf(presets));
    ExtendConcat([], KeysOf(plugins + presets), KeysOf(parser));
    ExtendKeepsPrefix(Dedup(KeysOf(plugins)), KeysOf(presets));
    ExtendKeepsPrefix(Dedup(KeysOf(plugins + presets)), KeysOf(parser));
  }

  /**
   * In a run of assignments that ends with one preset's package, then its
   * peers, then the parser, a peer that the parser does not write keeps
   * the peer range.
   */
  lemma {:induction false} PeerRangeIsLast(head: Log<string>, moduleName: string, peers: PeerMap,
                                           parser: Log<string>, name: string)
    requires name in peers.vals && name !in KeysOf(parser)
    ensures name in KeysOf(head + ([(moduleName, "latest")] + Pairs(peers)) + parser)
    ensures LastValue(head + ([(moduleName, "latest")] + Pairs(peers)) + parser, name) == peers.vals[name]
  {
    var tail := [(moduleName, "latest")] + Pairs(peers);
    AssignAllTakesSource(Empty(), peers, name);
    LastValueOfLater([(moduleName, "latest")], Pairs(peers), name);
    LastValueOfLater(head, tail, name);
    SkipUnrelated(head + tail, parser, name);
  }

  /** Assignments to other keys at the end leave a key's last value alone. */
  lemma {:induction false} SkipUnrelated(a: Log<string>, b: Log<string>, name: string)
    requires name in KeysOf(a) && name !in KeysOf(b)
    ensures name in KeysOf(a + b) && LastValue(a + b, name) == LastValue(a, name)
    decreases |b|
  {
    KeysOfConcat(a, b);
    if b != [] {
      var prefix := b[..|b| - 1];
      assert KeysOf(b) == KeysOf(prefix) + [b[|b| - 1].0];
      assert (a + b)[..|a + b| - 1] == a + prefix;
      SkipUnrelated(a, prefix, name);
    } else {
      assert a + b == a;
    }
  }

  /**
   * Peer dependencies keep their own version ranges: when the last preset
   * is looked up with an object answer, each of its peers ends up with the
   * range that answer gives, even over a `latest` set earlier for the same
   * name, unless the parser or the self-install step writes that name.
   */
  lemma LastPresetPeersWin(c: Collaborators, s: CacheState, view: ConfigView, installEc0Lint: bool, name: string)
    requires CacheInvariant(c, s)
    requires |ExtendsList(view.presets)| > 0
    requires !IsBundledPreset(Last(ExtendsList(view.presets)))
    requires LastPeers(c, view).Some? && name in LastPeers(c, view).value.vals
    requires ParserOf(view.parser, view.parserOptions) != Some(name) && name != "ec0lint"
    ensures name in Resolution(c, s, view, installEc0Lint).0.vals
    ensures Resolution(c, s, view, installEc0Lint).0.vals[name] == LastPeers(c, view).value.vals[name]
  {
    var presets := ExtendsList(view.presets);
    var moduleName := PresetPackage(c, Last(presets));
    var peers := LastPeers(c, view).value;
    var plugins := PluginLog(c, PluginsOf(view));
    var earlier := PresetLog(c, presets[..|presets| - 1]);
    var head := plugins + earlier;
    var parser := ParserLog(ParserOf(view.parser, view.parserOptions));
    assert PreInstallLog(c, s, view).0 == head + ([(moduleName, "latest")] + Pairs(peers)) + parser by {
      var resolved := ResolvePresets(c, s, presets).0;
      assert PreInstallLog(c, s, view).0 == plugins + resolved + parser;
      ResolvePresetsTransparent(c, s, presets);
      LastPresetLog(c, presets);
      assert resolved == earlier + [(moduleName, "latest")] + Pairs(peers);
      Regroup(plugins, earlier, [(moduleName, "latest")], Pairs(peers), parser);
    }
    PeerRangeIsLast(head, moduleName, peers, parser, name);
    ModulesObjectContents(c, s, view, installEc0Lint);
  }

  lemma Regroup(p: Log<string>, a: Log<string>, b: Log<string>, c: Log<string>, d: Log<string>)
    ensures p + (a + b + c) + d == (p + a) + (b + c) + d
  {
  }

  /** The reference log of the `extends` loop, with its last preset taken apart. */
  lemma LastPresetLog(c: Collaborators, presets: seq<string>)
    requires |presets| > 0 && !IsBundledPreset(Last(presets))
    ensures PresetLog(c, presets) ==
              PresetLog(c, presets[..|presets| - 1]) + [(PresetPackage(c, Last(presets)), "latest")]
              + PeerLog(c.fetchPeerDependencies(PeerKey(PresetPackage(c, Last(presets)))))
  {
  }

  function Last(xs: seq<string>): string
    requires |xs| > 0
  {
    xs[|xs| - 1]
  }

  /** The oracle's answer for the last preset of a configuration. */
  function LastPeers(c: Collaborators, view: ConfigView): Option<PeerMap>
    requires |ExtendsList(view.presets)| > 0
  {
    c.fetchPeerDependencies(PeerKey(PresetPackage(c, Last(ExtendsList(view.presets)))))
  }

  // ---------------------------------------------------------------------------
  // The self-install step
  // ---------------------------------------------------------------------------

  /**
   * The step asks about `eslint` and reads the answer for `ec0lint`: when
   * the status map only answers for the names asked about, the step never
   * installs, and with `installEc0Lint` it leaves the object as it was.
   */
  lemma SelfInstallNeedsAnswerForEc0Lint(c: Collaborators, s: CacheState, view: ConfigView, installEc0Lint: bool)
    requires forall names :: c.checkDevDeps(names).Keys <= set n | n in names
    ensures !Resolution(c, s, view, installEc0Lint).2
    ensures installEc0Lint ==> Resolution(c, s, view, installEc0Lint).0 == Apply(Empty(), PreInstallLog(c, s, view).0)
  {
    var status := c.checkDevDeps(["eslint"]);
    assert "ec0lint" != "eslint" by {
      assert "ec0lint"[1] != "eslint"[1];
    }
    assert "ec0lint" !in status;
  }
}
