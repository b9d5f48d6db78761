/**
 * `writeFile`: choosing the file extension from the requested format and the
 * host project's `package.json`, and stripping the transient install flag
 * before the configuration is handed to the serializer.
 */
module ConfigWriter {
  import opened Wrappers
  import opened ConfigObject

  /** The `type` field of a parsed `package.json`, if it has a string there. */
  datatype Manifest = Manifest(moduleType: Option<string>)

  /** The manifest declares the ECMAScript module system: `type === "module"`. */
  predicate DeclaresModule(manifest: Option<Manifest>) {
    manifest.Some? && manifest.value.moduleType == Some("module")
  }

  const ConfigBaseName := "./.ec0lintrc"

  /**
   * The extension of the written file. `manifest` is what `findPackageJson`
   * and `JSON.parse` would give (`None`: no `package.json` found); only the
   * `"JavaScript"` format consults it.
   */
  function ConfigFileExtension(format: string, manifest: Option<Manifest>): (ext: string)
    ensures ext == ".yml" <==> format == "YAML"
    ensures ext == ".json" <==> format == "JSON"
    ensures ext == ".cjs" <==> format == "JavaScript" && DeclaresModule(manifest)
    ensures ext == ".js" <==> format != "YAML" && format != "JSON" && !(format == "JavaScript" && DeclaresModule(manifest))
  {
    if format == "YAML" then ".yml"
    else if format == "JSON" then ".json"
    else if format == "JavaScript" && DeclaresModule(manifest) then ".cjs"
    else ".js"
  }

  /** Any format other than `"JavaScript"` picks its extension without looking at the manifest. */
  lemma ExtensionIgnoresManifest(format: string, m1: Option<Manifest>, m2: Option<Manifest>)
    requires format != "JavaScript"
    ensures ConfigFileExtension(format, m1) == ConfigFileExtension(format, m2)
  {
  }

  /**
   * `writeFile(config, format)`: deletes `installedEc0Lint` from the
   * configuration and returns the path it is written to, `./.ec0lintrc`
   * followed by the chosen extension. Everything else in the configuration
   * is left as it was.
   */
  method WriteFile(config: Config, format: string, manifest: Option<Manifest>) returns (path: string)
    modifies config`installedEc0Lint
    ensures !config.installedEc0Lint
    ensures path == ConfigBaseName + ConfigFileExtension(format, manifest)
  {
    var extname := ".js";
    if format == "YAML" {
      extname := ".yml";
    } else if format == "JSON" {
      extname := ".json";
    } else if format == "JavaScript" {
      if manifest.Some? {
        if manifest.value.moduleType == Some("module") {
          extname := ".cjs";
        }
      }
    }
    config.installedEc0Lint := false;
    path := ConfigBaseName + extname;
  }
}
