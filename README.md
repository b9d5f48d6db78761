# ec0lint configuration wizard: answers, module list, peer cache, file extension

This project models the deterministic core of the ec0lint configuration
wizard (`lib/init/config-initializer.js`):

- `processAnswers` turns the user's answers into a configuration object. It
  sets `parserOptions.ecmaVersion` and `env.es2021` and every selected
  environment. It adds the `ec0lint:recommended` preset unless the purpose is
  `"code"`, then collapses `extends` to nothing, one name or a list.
- `getModulesList` builds an object from package name to version. It adds the
  plugins, then each shareable config that is not bundled together with its
  peer dependencies, then the parser. After that it deletes or adds
  `ec0lint` and flags the configuration. It returns the `name@version`
  strings in key order.
- `getPeerDependencies` is a process-wide cache in front of the oracle that
  fetches peer dependencies. An answer that is an object is kept; a `null`
  answer is asked for again.
- `writeFile` picks the extension from the format and the host
  `package.json`, and deletes `installedEc0Lint` before the configuration is
  serialized.

A JavaScript object with string keys is modelled as `OrderedObject.Obj`: keys
in insertion order, with a value map. For string keys that are not
integer-like (and not `__proto__`) this is the order of section 10.1.11.1 of
ECMA-262 (OrdinaryOwnPropertyKeys). Assigning to an existing key keeps its
place and replaces its value. A run of assignments is a `Log`. Its meaning is
given by independent reference definitions:

- `Extend`/`Dedup` give the key order, which is first-occurrence order;
- `LastValue` gives each key's value, which is the last one assigned.

The configuration and the resolver are classes updated in place:

- `ConfigObject.Config` holds the fields the code reads and writes.
- `ModuleResolver.Resolver` owns the cache. It also keeps a ghost record of
  every name sent to the oracle.

`getModulesList` is specified by the function `ModuleResolver.Resolution`.
`ModuleResolver.ResolvePresets` threads the cache through that function.
`ModuleResolver.PresetLog` is a reference definition for the presets, written
without any cache.

The injected collaborators are function-valued parameters
(`ModuleResolver.Collaborators`):

- `naming.normalizePackageName` is uninterpreted;
- `npmUtils.fetchPeerDependencies` is an oracle from name to an object or
  `null`;
- `npmUtils.checkDevDeps` is a function from the names asked about to a
  status map.

The `package.json` that `writeFile` reads is a parameter (`ConfigWriter.Manifest`).

In these places the code behaves differently from what one might expect; the model follows the code:

- Peer dependencies are merged with their own version ranges
  (`Object.assign`), not as `latest`. They overwrite earlier values for the
  same name.
- A name assigned twice keeps its first position but takes its last value.
  The first value is not the one kept.
- The recommended preset is added for every purpose except exactly `"code"`.
  It is not limited to a syntax-only purpose.
- `ec0lint:recommended` does not start with `eslint:`, so it is not skipped as
  a built-in preset. Its package is added and its peers are looked up.
- The cache's miss test is `!result`. A cached `null` is therefore asked for
  again on every lookup, so "at most one query per package" holds only for
  object answers.
- The self-install step asks `checkDevDeps(["eslint"])` but reads the answer's
  `ec0lint` entry.
- No filtering of already-installed packages happens before the install
  prompt.

## Model

| member | source | states |
|---|---|---|
| OrderedObject.ApplyShape | lib/init/config-initializer.js:88-119 | after a run of assignments, the keys are the old keys followed by new ones in order of first assignment, each assigned key holds its last assigned value, other keys are unchanged |
| OrderedObject.DedupIsFirstOccurrenceOrder | lib/init/config-initializer.js:134 | the key order has no repeats, holds exactly the assigned names, and orders two names exactly as their first assignments are ordered |
| OrderedObject.AssignAllTakesSource | lib/init/config-initializer.js:108-111 | `Object.assign(o, src)` leaves every key of `src` with the value it has in `src` |
| OrderedObject.Delete | lib/init/config-initializer.js:122 | `delete o[k]` removes `k` and keeps every other key with its value and in its relative order |
| OrderedObject.Render | lib/init/config-initializer.js:134 | the result has one string per key, in key order, each `key + "@" + value` |
| ConfigObject.Config.constructor | lib/init/config-initializer.js:143-148 | the literal has empty `rules`, `env` and `parserOptions` and an empty `extends` list |
| ConfigObject.BaselineSelectsNothing | lib/init/config-initializer.js:151 | `env` holding only `es2021: true` is the environment for no selected tag |
| ConfigObject.SelectStep | lib/init/config-initializer.js:154-156 | setting one more tag to `true` keeps the environment equal to first-occurrence order of `es2021` and the selected tags, all `true`, unselected tags absent |
| ConfigObject.BuildEnv | lib/init/config-initializer.js:151-156 | the environment object has `es2021` and every selected tag, each `true`, in first-selection order, and no other key |
| ConfigObject.CollapseExtends | lib/init/config-initializer.js:166-171 | an empty list is deleted, a one-element list becomes its element, a longer list stays a list |
| ConfigObject.CollapseThenRead | lib/init/config-initializer.js:99 | reading the collapsed `extends` back as a list gives the original list, except that a single empty name reads as no preset |
| ConfigObject.ProcessAnswers | lib/init/config-initializer.js:142-175 | the new configuration has empty rules, `parserOptions` exactly `{ecmaVersion: "latest"}`, the selected environment, `extends` absent for purpose `"code"` and otherwise exactly `"ec0lint:recommended"`, and no plugins, parser or install flag; so what the resolver reads of it is `WizardView(purpose)` |
| ConfigWriter.ConfigFileExtension | lib/init/config-initializer.js:33-50 | `.yml` iff YAML, `.json` iff JSON, `.cjs` iff JavaScript with a manifest whose `type` is `"module"`, `.js` in every other case |
| ConfigWriter.ExtensionIgnoresManifest | lib/init/config-initializer.js:36-40 | any format other than JavaScript gets the same extension whatever the manifest says |
| ConfigWriter.WriteFile | lib/init/config-initializer.js:31-54 | `installedEc0Lint` is removed and the target path is `./.ec0lintrc` followed by the chosen extension |
| ModuleResolver.Lookup | lib/init/config-initializer.js:67-79 | a name cached with an object is answered from the cache without a query; on a miss, including a cached `null`, the oracle is asked once and its answer stored and returned; no other entry changes |
| ModuleResolver.LookupKeepsInvariant | lib/init/config-initializer.js:67-79 | a lookup keeps the cache invariant (entries are the oracle's answers, cached names are the names asked about, object answers asked about once) and returns what the oracle would |
| ModuleResolver.ObjectAnswerIsFinal | lib/init/config-initializer.js:68-70 | once a lookup yields an object, looking the same name up again returns it and changes nothing |
| ModuleResolver.ResolvePresets | lib/init/config-initializer.js:98-112 | the `extends` loop only adds to the record of queries and to the cached names |
| ModuleResolver.ParserOf | lib/init/config-initializer.js:115 | the parser is `config.parser` when that is non-empty, otherwise `parserOptions.parser` when that is non-empty, otherwise none |
| ModuleResolver.SelfInstall | lib/init/config-initializer.js:121-132 | with a literal `false` `ec0lint` is deleted and nothing is flagged; otherwise the configuration is flagged iff the status says `ec0lint` is exactly `false`, and then `ec0lint` keeps a non-empty value or becomes `latest` and is placed last if new; no other key changes |
| ModuleResolver.AddPlugins | lib/init/config-initializer.js:91-97 | the plugin loop's object is the result of assigning `latest` to each normalized plugin name in order |
| ModuleResolver.Resolver.constructor | lib/init/config-initializer.js:79 | the cache starts empty, with no queries, and satisfies the cache invariant |
| ModuleResolver.Resolver.GetPeerDependencies | lib/init/config-initializer.js:67-78 | the method does what `Lookup` says to the cache and result, keeps the invariant, and returns the oracle's answer for the name |
| ModuleResolver.Resolver.AddPresets | lib/init/config-initializer.js:98-113 | the `extends` loop continues the object with the assignments of `ResolvePresets` and leaves the cache as it says, keeping the invariant |
| ModuleResolver.Resolver.GetModulesList | lib/init/config-initializer.js:87-135 | the returned strings render the modules object of `Resolution`; the cache and `installedEc0Lint` end as `Resolution` says, with the flag only ever set and the cache invariant kept |
| ResolverProperties.ResolvePresetsTransparent | lib/init/config-initializer.js:98-112 | under the cache invariant, the `extends` loop assigns exactly what it would assign if every lookup asked the oracle directly, and the invariant still holds afterwards |
| ResolverProperties.ResolvedPresetsAreCached | lib/init/config-initializer.js:105-111 | after the loop every preset that is not bundled has its `name@latest` key cached |
| ResolverProperties.ResolutionKeepsInvariant | lib/init/config-initializer.js:67-79 | a whole run of `getModulesList` keeps the cache invariant |
| ResolverProperties.ObjectAnswerAskedOnce | lib/init/config-initializer.js:67-79 | a preset whose peers come back as an object has been queried exactly once after two runs, whatever the second run extends |
| ResolverProperties.NullAnswerAskedAgain | lib/init/config-initializer.js:68-74 | a preset whose peers come back `null` is queried once more by every `extends` loop that includes it |
| ResolverProperties.NullAnswerAskedEveryRun | lib/init/config-initializer.js:68-74 | the same, for a whole run of `getModulesList` |
| ResolverProperties.BundledPresetsSkipped | lib/init/config-initializer.js:102-104 | presets starting with `eslint:` or `plugin:` add nothing: the loop assigns the same as over the other presets alone |
| ResolverProperties.RecommendedPresetIsLookedUp | lib/init/config-initializer.js:102-111 | `ec0lint:recommended` is not bundled; resolving it assigns its package `latest`, then its looked-up peers |
| ResolverProperties.WizardConfigNeeds | lib/init/config-initializer.js:142-175 | for a configuration as `processAnswers` leaves it (`WizardView`, which `ProcessAnswers` ensures), the modules before the self-install step are nothing for purpose `"code"` and otherwise the recommended preset's package and its peers |
| ResolverProperties.PluginLogKeys | lib/init/config-initializer.js:91-97 | the plugin loop assigns a name iff it is the normalized name of some plugin |
| ResolverProperties.PresetLogKeys | lib/init/config-initializer.js:98-112 | the `extends` loop assigns a name iff some preset that is not bundled has it as its package or among its peers |
| ResolverProperties.ModulesNamed | lib/init/config-initializer.js:87-132 | apart from `ec0lint`, a name is in the modules object iff it is a plugin's package, a preset's package or peer, or the parser |
| ResolverProperties.ModulesObjectContents | lib/init/config-initializer.js:88-134 | the modules object lists each name once, in first-assignment order, with its last assigned version; the self-install step only deletes `ec0lint` or appends it |
| ResolverProperties.SegmentOrder | lib/init/config-initializer.js:91-119 | the plugins' packages come first, then the names the presets add, then the parser |
| ResolverProperties.PeerRangeIsLast | lib/init/config-initializer.js:105-119 | a peer assigned after its preset's package keeps the peer's range unless the parser writes the same name |
| ResolverProperties.LastPresetPeersWin | lib/init/config-initializer.js:105-119 | each peer of the last preset ends up with the range the oracle gave, even over an earlier `latest`, unless it is the parser or `ec0lint` |
| ResolverProperties.SelfInstallNeedsAnswerForEc0Lint | lib/init/config-initializer.js:124-127 | when the status map only answers for the names asked about, the self-install step never flags the configuration and leaves the modules object unchanged |

## Left out

- `promptUser`, `askInstallModules` and `installModules` are not modelled. They are prompts, promise chaining and a subprocess call.
- The `npmUtils` functions are injected: `fetchPeerDependencies`, `checkDevDeps` and `findPackageJson`.
- `ConfigFile.write`, `fs.readFileSync` and `JSON.parse` of `package.json` are not part of this model, nor is the `info` logging. The written file and a read-back round trip cannot be stated from here.
- A `package.json` that fails to parse makes `writeFile` throw. The model only takes a parsed manifest or none.
- `naming.normalizePackageName` is an uninterpreted function. Its prefixing rules live in `@eslint/eslintrc`, which is not part of this model.
- `ConfigOps.normalizeToStrings` is treated as the identity. It only rewrites rule severities, and `rules` is always empty here.
- The oracle is a fixed function, so a repeated query for a `null` answer gets `null` again. An answer that changes over time (say, network recovery) is not modelled.
- ModuleResolver.Resolver.GetModulesList: `installEc0Lint` is a boolean. An omitted argument behaves like `true`, which is what the code does for anything but a literal `false`.
- ModuleResolver.ParserOf: `config.parserOptions` is always an object. Only an absent or empty `parser`/`parserOptions.parser` counts as falsy, and values other than strings are not modelled.
- ConfigObject.ProcessAnswers: `answers.env` is always an array, as the multiselect prompt gives it. A missing `env` makes `processAnswers` throw a `TypeError` at the `forEach`, and the model has no such error path.
- ConfigObject.Config: `installedEc0Lint == false` stands for the property being absent. The code only ever sets it to `true` or deletes it.
- JavaScript orders integer-like keys (such as `"1"`) before other string keys, and treats `__proto__` specially. The model assumes that no plugin, preset, peer, parser or environment-tag name is integer-like or `__proto__`, and keeps plain insertion order; if such a name did occur, `Object.keys` would list an integer-like one first, and `config.env["__proto__"] = true` would create no own property at all. The prompt's environment tags (`browser`, `node`) are neither.
- Peer dependencies are expanded one level only, as in the code. The peers of a peer are not looked up.
- The bin entry point, the test fixtures and the tests themselves are not modelled.
