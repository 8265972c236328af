# Hound's violation pipeline, in Dafny

This project models the part of Hound that turns a linter's findings into
review comments:

- a `Violation` holds one file name, one modified line, and an append-only
  buffer of messages. Its `messages` reader returns that buffer deduplicated
  (Ruby's `Array#uniq`);
- `FileViolations` collects the violations of one file, at most one per line
  number, in the order their line numbers were first added (Ruby's `Hash`
  keeps insertion order);
- `StyleGuide::Base#violations_in_file` runs a language's message source
  only when the repository enables the language. It keeps the messages that
  fall on a modified line of the diff and feeds them into `FileViolations`;
- `StyleGuide::CoffeeScript` merges the repository's settings over the
  default ones and maps each Coffeelint finding onto a line message;
- `BuildReport#run` acts only on a completed build. It comments on the first
  `MAX_COMMENTS` violations, sets the commit status with the build's full
  violation count, and tracks the build for a subscribed repository.

Files and modules:

- `uniq.dfy` (`Uniq`): `Array#uniq` as `Dedup`. `IsUniqOf` is its
  specification: no duplicates, the same elements, and first-occurrence
  order. Lemmas prove that `Dedup` meets `IsUniqOf` and that `IsUniqOf`
  has only one solution.
- `violation.dfy` (`Violations`): the `Violation` class and its state as a
  value, `ViolationView`.
- `file_violations.dfy` (`FileViolationSet`): `AddTo` gives the effect of
  one `add` on the enumerated contents, and `Aggregate` the effect of a
  sequence of `add`s. The `FileViolations` class holds a `map` from line
  number to `Violation` plus the key order. `Add` and `ToSeq` are proved
  against `AddTo` and the snapshot.
- `style_guide_base.dfy` (`StyleGuide`): the enable gate, the modified-line
  filter and the aggregation loop, proved against `FileReview`. A guide's
  `violation_messages` is a `MessageSource` object that counts its calls,
  so the gate's promise that a disabled language is never linted is stated
  and proved.
- `coffee_script.dfy` (`CoffeeScript`): the configuration merge, the finding
  map, and the CoffeeScript instance of the loop.
- `build_report.dfy` (`BuildReports`): `Run` records its calls on the
  comment, commit-status and analytics collaborators in a `Sinks` log.
  `ReportCalls` is its specification, and lemmas state what those calls are.

Outside inputs become parameters:

- the lint engine is a function `(content, config) -> seq<Finding>`;
- the default configuration is a `Config` value;
- the repository configuration is a pair of functions, `enabledFor` and
  `configFor`;
- `modified_line_at` is a partial map from line number to modified line;
- `MAX_COMMENTS` is a `nat` argument.

## Model

| member | source | states |
|---|---|---|
| `Uniq.Dedup` | app/models/violation.rb:15-17 | the deduplicated messages contain no duplicates, hold exactly the elements of the buffer, and are never longer than it |
| `Uniq.DedupIsUniq` | app/models/violation.rb:15-17 | the deduplicated view lists each distinct message in the order of its first occurrence in the buffer, as `uniq` does |
| `Uniq.UniqIsUnique` | app/models/violation.rb:15-17 | any sequence that has no duplicates, holds the buffer's elements and keeps first-occurrence order is the deduplicated view, so the view is fully determined |
| `Uniq.DedupAppend` | app/models/violation.rb:11-17 | appending a message already present leaves the view unchanged; appending a new message puts it at the end of the view |
| `Uniq.DedupIdempotent` | app/models/violation.rb:15-17 | deduplicating twice gives the same result as deduplicating once |
| `Violations.Violation.constructor` | app/models/violation.rb:5 | a new violation has the given file name and line, and its buffer is the given messages |
| `Violations.Violation.PatchPosition` | app/models/violation.rb:7-9 | the patch position is the one of the violation's line, which is fixed at construction |
| `Violations.Violation.AddMessage` | app/models/violation.rb:11-13 | the buffer becomes the old buffer with the message appended; file name and line are constants, so the patch position (`line.patchPosition`) cannot change |
| `Violations.Violation.Messages` | app/models/violation.rb:15-17 | `messages` has no duplicates, holds exactly the messages given so far (at construction or by `add_message`), and lists them in first-arrival order |
| `Violations.AddMessageEffect` | app/models/violation.rb:11-17 | after `add_message(m)`, `messages` is unchanged if `m` was already given, and otherwise has `m` at the end |
| `Violations.MessagesIdempotent` | app/models/violation.rb:15-17 | deduplicating `messages` again changes nothing |
| `FileViolationSet.AddKeepsOnePerLine` | app/models/file_violations.rb:10-17 | `add` keeps at most one violation per line number |
| `FileViolationSet.AddNumbers` | app/models/file_violations.rb:10-23 | after `add`, the enumerated line numbers are unchanged when the number is known; otherwise the new number is enumerated last |
| `FileViolationSet.AddCount` | app/models/file_violations.rb:11-16 | `add` raises the count by exactly one when the line number is new, and leaves it unchanged otherwise |
| `FileViolationSet.AddFrame` | app/models/file_violations.rb:15 | `add` leaves every violation of another line number at its position and in its state |
| `FileViolationSet.AddToExisting` | app/models/file_violations.rb:11-15 | on a known line number, `add` keeps the stored file name and line (so a different line object with the same number does not replace it or its patch position) and appends the message to the buffer |
| `FileViolationSet.AddToNew` | app/models/file_violations.rb:11-13 | on a new line number, `add` creates a violation of the collection's file for that line, holding the single message |
| `FileViolationSet.AggregateSpec` | app/models/file_violations.rb:10-23 | after a sequence of `add`s, enumeration gives one violation per distinct line number in order of first addition; each has the file's name and the first line object given for its number, and holds every message added for that number, in call order |
| `FileViolationSet.FileViolations.constructor` | app/models/file_violations.rb:5-8 | a new collection belongs to the given file and is empty |
| `FileViolationSet.FileViolations.Snapshot` | app/models/file_violations.rb:5-23 | the enumerated line numbers are the insertion-ordered keys, and every stored violation carries the collection's file name |
| `FileViolationSet.FileViolations.Add` | app/models/file_violations.rb:10-17 | `add` keeps the table invariant and changes the enumerated contents exactly as `AddTo` says; any violation it creates is new |
| `FileViolationSet.FileViolations.ToSeq` | app/models/file_violations.rb:19-23 | `each` yields the stored violations in insertion order of their line numbers |
| `FileViolationSet.AddToEmpty` | spec/models/file_violations_spec.rb:7-17 | one `add` on an empty collection gives count 1, the line's patch position, and messages `[m]` |
| `FileViolationSet.AddTwiceOnOneLine` | spec/models/file_violations_spec.rb:20-31 | two `add`s on one line give count 1 and messages `[m1, m2]`, or `[m1]` when the two messages are equal |
| `StyleGuide.MessageSource.ViolationMessages` | app/models/style_guide/base.rb:25-27 | the hook each guide implements: it returns the guide's line messages for the file, and every call is counted |
| `StyleGuide.ViolationsInFile` | app/models/style_guide/base.rb:8-21 | the language's message source is asked exactly once when the repository enables the language and never otherwise; when disabled the result is empty; otherwise the result is the aggregation of the messages whose line number has a modified line, in stream order |
| `StyleGuide.AddOnModifiedLines` | app/models/style_guide/base.rb:12-17 | the loop adds exactly the messages whose line number has a modified line, on that line and in stream order, so the collection ends up as `FileReview` of the messages; any violation it creates is new |
| `StyleGuide.KeptConcat` | app/models/style_guide/base.rb:12-17 | the filter handles each message on its own: the kept additions of a concatenated stream are the concatenation of the kept additions of its parts |
| `StyleGuide.UnmodifiedLineIgnored` | app/models/style_guide/base.rb:13-16 | a message whose line number has no modified line contributes nothing to the result, wherever it stands in the stream |
| `StyleGuide.FileReviewByLine` | app/models/style_guide/base.rb:9-20 | the result has one violation per distinct modified line that received a message, ordered by each line's first message, and none for an untouched line; each violation has the file's name and the modified line, and its messages are the deduplicated messages emitted for that line |
| `CoffeeScript.MergedConfig` | app/models/style_guide/coffee_script.rb:14-16 | the merged keys are the union of the default and repository keys; every repository key keeps the repository's value, even when that value is a nested object; every other default key keeps its default value |
| `CoffeeScript.MergedConfigUnique` | app/models/style_guide/coffee_script.rb:15 | those three properties determine the merged configuration |
| `CoffeeScript.MergeIsShallow` | app/models/style_guide/coffee_script.rb:15 | an example, on one concrete configuration: a nested default object (`indentation`) is replaced whole by the repository's object for the same key, so its other entries are lost; the general statement is `CoffeeScript.MergedConfig`'s second clause |
| `CoffeeScript.MergeNeutralAndIdempotent` | app/models/style_guide/coffee_script.rb:15 | empty repository settings leave the defaults unchanged, and merging the same settings twice changes nothing |
| `CoffeeScript.ToLineMessages` | app/models/style_guide/coffee_script.rb:9-11 | exactly one line message per finding, in the same order, with the finding's line number and message |
| `CoffeeScript.ViolationMessages` | app/models/style_guide/coffee_script.rb:8-12 | one line message per finding that the engine returns for the file's content under the merged configuration (defaults overridden by the repository's `coffee_script` settings), in the engine's order, with the finding's line number and message |
| `CoffeeScript.ViolationsInFile` | app/models/style_guide/coffee_script.rb:8-16 | Coffeelint runs (and the configuration is read) exactly once when the repository enables CoffeeScript and never otherwise; the review is empty when disabled; otherwise it aggregates the line messages of the findings that the engine returns for the file's content under the merged configuration |
| `BuildReports.PriorityViolations` | app/services/build_report.rb:26-28 | the result is the first `min(MAX_COMMENTS, n)` violations of the build, in their order |
| `BuildReports.CommitStatusFor` | app/services/build_report.rb:38-44 | the commit status addresses the build's repository name and commit SHA, with the report's token |
| `BuildReports.TrackSubscribedBuildCompleted` | app/services/build_report.rb:30-36 | one analytics call, for the subscription's user and the build's repository, when the repository has a subscription; no call otherwise |
| `BuildReports.Run` | app/services/build_report.rb:14-20 | the calls made on the collaborators are exactly those `ReportCalls` lists, appended in that order |
| `BuildReports.NoCallsUnlessCompleted` | app/services/build_report.rb:15-19 | no comment, status or analytics call happens exactly when the build is not completed |
| `BuildReports.CallOrder` | app/services/build_report.rb:16-18 | a completed build causes one comment call, then one status call, and then only analytics calls |
| `BuildReports.CommentsAreBoundedPrefixes` | app/services/build_report.rb:16-27 | the commenter gets the report's pull request and at most `MAX_COMMENTS` violations, which are a prefix of the build's violations (all of them when there are few enough) |
| `BuildReports.StatusCarriesFullCount` | app/services/build_report.rb:17-44 | `set_success` receives the build's `violation_count`, not the size of the truncated list, and the status addresses the build's repository name, commit SHA and the report's token |
| `BuildReports.AnalyticsOnlyWhenSubscribed` | app/services/build_report.rb:18-35 | analytics is called exactly when the build is completed and its repository has a subscription, and then for that subscription's user and the build's repository |

## Left out

- The language name comes from `demodulize.underscore` (app/models/style_guide/base.rb:29-31). Here it is a given string, `CoffeeScript.Name`.
- The Ruby style guide (app/models/style_guide/ruby.rb) is not modelled. It wraps RuboCop, and its fallbacks depend on exceptions raised inside that library.
- The JavaScript and Unsupported style guides are not modelled; this leaves out glob-based `file_included?`, skipping `nil` findings, `CannotReviewUnsupportedFile` and the choice of configuration.
- The lint engines (Coffeelint) and the loading of the default configuration file (`File.read`, `JSON.parse`) are parameters. The model does not say what they compute.
- A Coffeelint finding is a hash. Here it is reduced to the two entries the guide reads (`"lineNumber"`, `"message"`). A finding that lacks one of them, which would give `nil`, is not modelled.
- `RepoConfig#enabled_for?` and `RepoConfig#for` are not part of this model. They are the two functions of `StyleGuide.RepoConfig`.
- Commenter, CommitStatus and Analytics are network calls. They are modelled only as records in `Sinks.calls`. Their failures, which propagate to the caller, are not modelled.
- `MAX_COMMENTS` is read from the environment when the class loads (app/services/build_report.rb:2). A negative value makes `take` raise. Here it is a `nat` argument.
- `FileViolations` includes `Enumerable`. Only `each` is modelled (as `ToSeq`), since `to_a` and the spec's `count` and `first` are built on it.
- `ToSeq` returns the stored `Violation` objects themselves, as Ruby does. The model does not follow what a caller could do to them after that.
- StyleGuide.FileReviewByLine: it assumes the diff's index gives, at line number `n`, a line whose own number is `n` (`IndexConsistent`). Without that assumption, `FileViolationSet.AggregateSpec` describes the result, keyed by the number of the looked-up line, which is what the code uses.
- `CoffeeScript#config` is a shallow `Hash#merge` with no rescue (app/models/style_guide/coffee_script.rb:15): a nested repository object replaces the default one whole, and nothing falls back to the defaults on a malformed override.
- `Base#violations_in_file` does not skip `nil` messages (app/models/style_guide/base.rb:12-16), and it returns only the violation list, with no completed flag (app/models/style_guide/base.rb:20).
- `StyleGuide.MessageSource.asked` counts the calls of a guide's `violation_messages`. One call of `CoffeeScript.ViolationMessages` stands for one run of Coffeelint, one read of the default configuration file and one `repo_config.for`; the model does not count those three separately.
