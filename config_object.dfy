/**
 * The configuration object the wizard builds from the user's answers
 * (`processAnswers`), and the shapes its `extends` field can take.
 */
module ConfigObject {
  import opened Wrappers
  import opened OrderedObject

  /** The answers that `processAnswers` reads: the chosen purpose and the selected environments. */
  datatype Answers = Answers(purpose: string, env: seq<string>)

  /**
   * The `extends` field: missing, one preset name, or an array of preset names.
   * An array may have any length; `processAnswers` only leaves one with two or more.
   */
  datatype Extends = Absent | Scalar(name: string) | List(names: seq<string>)

  /** The fields of a configuration that the module resolver reads. */
  datatype ConfigView = ConfigView(
    plugins: Option<seq<string>>,
    presets: Extends,
    parser: Option<string>,
    parserOptions: JsObject<string>)

  /**
   * A configuration object. The resolver sets `installedEc0Lint` on it and the
   * writer deletes it again, so it is an object updated in place.
   * `installedEc0Lint == false` stands for the property being absent: the
   * source only ever sets it to `true` or deletes it.
   */
  class Config {
    var rules: JsObject<string>
    var env: JsObject<bool>
    var parserOptions: JsObject<string>
    var extendsValue: Extends
    var plugins: Option<seq<string>>
    var parser: Option<string>
    var installedEc0Lint: bool

    /** The object literal `{ rules: {}, env: {}, parserOptions: {}, extends: [] }`. */
    constructor ()
      ensures rules == Empty() && env == Empty() && parserOptions == Empty()
      ensures extendsValue == List([])
      ensures plugins == None && parser == None && !installedEc0Lint
    {
      rules := Empty();
      env := Empty();
      parserOptions := Empty();
      extendsValue := List([]);
      plugins := None;
      parser := None;
      installedEc0Lint := false;
    }

    function View(): ConfigView
      reads this
    {
      ConfigView(plugins, extendsValue, parser, parserOptions)
    }
  }

  /**
   * The `extends` normalisation of `processAnswers`: no entry drops the
   * field, one entry becomes a plain string, two or more stay an array.
   */
  function CollapseExtends(list: seq<string>): (e: Extends)
    ensures e.Absent? <==> |list| == 0
    ensures e.Scalar? <==> |list| == 1
    ensures e.Scalar? ==> e.name == list[0]
    ensures e.List? ==> e.names == list && |list| >= 2
  {
    if |list| == 0 then Absent
    else if |list| == 1 then Scalar(list[0])
    else List(list)
  }

  /**
   * How the resolver reads `extends`: a missing field or an empty string
   * (both falsy) gives no entry, any other string one entry, an array itself.
   */
  function ExtendsList(e: Extends): (list: seq<string>)
    ensures e.Absent? ==> list == []
    ensures e.Scalar? ==> list == if e.name == "" then [] else [e.name]
    ensures e.List? ==> list == e.names
  {
    match e
    case Absent => []
    case Scalar(s) => if s == "" then [] else [s]
    case List(l) => l
  }

  /**
   * Collapsing loses nothing the resolver sees, except that a lone empty
   * string becomes a falsy scalar and so no entry at all.
   */
  lemma CollapseThenRead(list: seq<string>)
    ensures ExtendsList(CollapseExtends(list)) == if list == [""] then [] else list
  {
  }

  /** The environment object right after `config.env.es2021 = true`. */
  function BaselineEnv(): JsObject<bool> {
    Assign(Empty(), "es2021", true)
  }

  /**
   * The environment object for the selected `tags`: `es2021` first, then each
   * selected tag at its first selection; every entry is `true`, and a tag
   * that was not selected is absent rather than `false`.
   */
  ghost predicate SelectedEnv(env: JsObject<bool>, tags: seq<string>) {
    && env.keys == Dedup(["es2021"] + tags)
    && (forall t :: t in env.vals <==> t == "es2021" || t in tags)
    && (forall t :: t in env.vals ==> env.vals[t])
  }

  /** Before the `forEach`, the baseline object is the environment for no selected tag. */
  lemma BaselineSelectsNothing()
    ensures SelectedEnv(BaselineEnv(), [])
  {
    var env := BaselineEnv();
    assert env.keys == Dedup(["es2021"] + []) by {
      assert env.keys == ["es2021"];
      assert ["es2021"] + [] == ["es2021"];
      assert ["es2021"][..0] == [];
    }
    assert env.vals == map["es2021" := true];
  }

  /** One step of the `forEach`, `config.env[tag] = true`, selects one more tag. */
  lemma {:induction false} SelectStep(env: JsObject<bool>, tags: seq<string>, tag: string)
    requires SelectedEnv(env, tags)
    ensures SelectedEnv(Assign(env, tag, true), tags + [tag])
  {
    var next := Assign(env, tag, true);
    SelectStepOrder(env, tags, tag);
    assert forall t :: t in next.vals <==> t == "es2021" || t in tags + [tag] by {
      assert forall t :: t in tags + [tag] <==> t in tags || t == tag;
    }
  }

  /** The key order part of `SelectStep`: a tag not seen before goes last. */
  lemma SelectStepOrder(env: JsObject<bool>, tags: seq<string>, tag: string)
    requires env.keys == Dedup(["es2021"] + tags)
    requires forall t :: t in env.vals <==> t == "es2021" || t in tags
    ensures Assign(env, tag, true).keys == Dedup(["es2021"] + (tags + [tag]))
  {
    var all := ["es2021"] + tags;
    assert tag in env.vals <==> tag in Dedup(all) by {
      DedupSameElements(all);
    }
    assert ["es2021"] + (tags + [tag]) == all + [tag];
    assert (all + [tag])[..|all|] == all;
  }

  /**
   * `config.env.es2021 = true`, then the `forEach` that sets each selected
   * environment to `true` on the same object.
   */
  method BuildEnv(tags: seq<string>) returns (env: JsObject<bool>)
    ensures SelectedEnv(env, tags)
  {
    env := Assign(Empty(), "es2021", true);
    BaselineSelectsNothing();
    var i := 0;
    while i < |tags|
      invariant 0 <= i <= |tags|
      invariant SelectedEnv(env, tags[..i])
    {
      SelectStep(env, tags[..i], tags[i]);
      assert tags[..i + 1] == tags[..i] + [tags[i]];
      env := Assign(env, tags[i], true);
      i := i + 1;
    }
    assert tags[..i] == tags;
  }

  /** The fields of a `processAnswers` result that the resolver reads. */
  function WizardView(purpose: string): ConfigView {
    ConfigView(None, if purpose == "code" then Absent else Scalar("ec0lint:recommended"), None,
               Obj(["ecmaVersion"], map["ecmaVersion" := "latest"]))
  }

  /**
   * `processAnswers`: the baseline `env.es2021` and `parserOptions.ecmaVersion`,
   * every selected environment as `true`, and the `ec0lint:recommended`
   * preset unless the purpose is exactly `"code"`.
   * `ConfigOps.normalizeToStrings` only rewrites rule severities, and `rules`
   * is empty here, so it changes nothing.
   */
  method ProcessAnswers(answers: Answers) returns (config: Config)
    ensures fresh(config)
    ensures config.rules == Empty()
    ensures config.parserOptions.keys == ["ecmaVersion"]
    ensures config.parserOptions.vals == map["ecmaVersion" := "latest"]
    ensures SelectedEnv(config.env, answers.env)
    ensures config.extendsValue == if answers.purpose == "code" then Absent else Scalar("ec0lint:recommended")
    ensures config.plugins == None && config.parser == None && !config.installedEc0Lint
    ensures config.View() == WizardView(answers.purpose)
  {
    // The fields are built first and stored afterwards: nothing else can see
    // the new object in between, so the order of the stores does not matter.
    var parserOptions := Assign(Empty<string>(), "ecmaVersion", "latest");
    var env := BuildEnv(answers.env);
    var presets: seq<string> := [];
    if answers.purpose == "code" {
      // the rules for checking resources would be set up here
    } else {
      presets := ["ec0lint:recommended"] + presets;
    }
    var extendsValue := CollapseExtends(presets);
    config := new Config();
    config.parserOptions := parserOptions;
    config.env := env;
    config.extendsValue := extendsValue;
  }
}
