/** The CoffeeScript style guide: Coffeelint run with the repository's
    settings merged over the default ones, its findings turned into line
    messages for the common style-guide loop. */
module CoffeeScript {
  import opened StyleGuide
  import opened Violations

  /** The guide's language name, the key under which the repository
      configuration enables it and holds its settings. */
  const Name: string := "coffee_script"

  /** One Coffeelint finding, reduced to the two entries the guide reads:
      "lineNumber" and "message". */
  datatype Finding = Finding(lineNumber: int, message: string)

  /** CoffeeScript#config: Hash#merge of the repository's settings over the
      defaults. Only the top level is merged: a repository value replaces
      the default value of the same key whole, nested objects included. */
  function MergedConfig(defaults: Config, overrides: Config): (r: Config)
    ensures r.Keys == defaults.Keys + overrides.Keys
    ensures forall k :: k in overrides ==> r[k] == overrides[k]
    ensures forall k :: k in defaults && k !in overrides ==> r[k] == defaults[k]
  {
    defaults + overrides
  }

  /** The three properties of MergedConfig determine it: any configuration
      with the merged keys, the repository's values where it has them and
      the defaults elsewhere is the merge. */
  lemma MergedConfigUnique(defaults: Config, overrides: Config, r: Config)
    requires r.Keys == defaults.Keys + overrides.Keys
    requires forall k :: k in overrides ==> r[k] == overrides[k]
    requires forall k :: k in defaults && k !in overrides ==> r[k] == defaults[k]
    ensures r == MergedConfig(defaults, overrides)
  {
    var m := MergedConfig(defaults, overrides);
    assert forall k :: k in r ==> r[k] == m[k];
  }

  /** Merging is shallow: a nested default object is not combined with the
      repository's nested object of the same key; its other entries are lost. */
  lemma MergeIsShallow()
    ensures var defaults := map["indentation" := JObject(map["value" := JNumber(2), "level" := JString("error")])];
            var overrides := map["indentation" := JObject(map["value" := JNumber(4)])];
            MergedConfig(defaults, overrides)["indentation"] == JObject(map["value" := JNumber(4)])
  {
  }

  /** With no repository settings the defaults apply unchanged, and
      merging the same settings again changes nothing. */
  lemma MergeNeutralAndIdempotent(defaults: Config, overrides: Config)
    ensures MergedConfig(defaults, map[]) == defaults
    ensures MergedConfig(MergedConfig(defaults, overrides), overrides) == MergedConfig(defaults, overrides)
  {
    MergedConfigUnique(defaults, map[], defaults);
    var m := MergedConfig(defaults, overrides);
    MergedConfigUnique(m, overrides, m);
  }

  /** The `map` in CoffeeScript#violation_messages: one line message per
      finding, in the same order, with the finding's line number and
      message. */
  function ToLineMessages(findings: seq<Finding>): (r: seq<LineMessage>)
    ensures |r| == |findings|
    ensures forall i :: 0 <= i < |r| ==>
              r[i].lineNumber == findings[i].lineNumber && r[i].message == findings[i].message
  {
    if findings == [] then []
    else
      var last := findings[|findings| - 1];
      ToLineMessages(findings[..|findings| - 1]) + [LineMessage(last.lineNumber, last.message)]
  }

  /** CoffeeScript#violation_messages. `lint` stands for Coffeelint.lint and
      `defaults` for the parsed default configuration file: the findings of
      the engine for the file's content under the merged configuration,
      one line message each, in the engine's order. */
  function ViolationMessages(lint: (string, Config) -> seq<Finding>, defaults: Config, repoConfig: RepoConfig,
                             file: CommitFile): (r: seq<LineMessage>)
    ensures var findings := lint(file.content, MergedConfig(defaults, repoConfig.configFor(Name)));
            && |r| == |findings|
            && forall i :: 0 <= i < |r| ==>
                 r[i].lineNumber == findings[i].lineNumber && r[i].message == findings[i].message
  {
    ToLineMessages(lint(file.content, MergedConfig(defaults, repoConfig.configFor(Name))))
  }

  /** `violations_in_file` for CoffeeScript: the common loop over this
      guide's message source. `lintRuns` is how often that source was
      asked, that is, how often Coffeelint ran and the default and
      repository configurations were read. */
  method ViolationsInFile(lint: (string, Config) -> seq<Finding>, defaults: Config, repoConfig: RepoConfig,
                          file: CommitFile) returns (r: seq<Violation>, lintRuns: nat)
    ensures lintRuns == if repoConfig.enabledFor(Name) then 1 else 0
    ensures !repoConfig.enabledFor(Name) ==> r == []
    ensures repoConfig.enabledFor(Name)
            ==> Views(r) == FileReview(file.filename,
                                       ToLineMessages(lint(file.content, MergedConfig(defaults, repoConfig.configFor(Name)))),
                                       file.modifiedLines)
  {
    var source := new MessageSource(f => ViolationMessages(lint, defaults, repoConfig, f));
    r := StyleGuide.ViolationsInFile(repoConfig, Name, source, file);
    lintRuns := source.asked;
  }
}
