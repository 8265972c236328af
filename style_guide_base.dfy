/** The part common to every style guide: ask the language's message source
    for line messages, keep those that fall on modified lines of the diff,
    and collect them per line. */
module StyleGuide {
  import opened Uniq
  import opened Violations
  import opened FileViolationSet

  /** A JSON value, as the configuration files hold them. */
  datatype Json =
    | JNull
    | JBool(b: bool)
    | JNumber(n: int)
    | JString(s: string)
    | JArray(items: seq<Json>)
    | JObject(fields: map<string, Json>)

  /** A parsed configuration: a JSON object's members. */
  type Config = map<string, Json>

  /** The repository's configuration, as far as style guides read it:
      whether a language's guide is enabled, and the settings the
      repository gives for it. */
  datatype RepoConfig = RepoConfig(enabledFor: string -> bool, configFor: string -> Config)

  /** A finding reduced to a line number and a message. */
  datatype LineMessage = LineMessage(lineNumber: int, message: string)

  /** A file of the change. `modifiedLines` answers `modified_line_at`: the
      modified line at a line number, or no entry when the diff does not
      touch that line. */
  datatype CommitFile = CommitFile(filename: string, content: string, modifiedLines: map<int, ModifiedLine>)

  /** The `add` calls the loop makes: for each message, in stream order,
      whose line number has a modified line, that line and the message. */
  function KeptAdditions(messages: seq<LineMessage>, modifiedLines: map<int, ModifiedLine>): seq<Addition>
  {
    if messages == [] then []
    else
      var last := messages[|messages| - 1];
      KeptAdditions(messages[..|messages| - 1], modifiedLines)
      + (if last.lineNumber in modifiedLines then [Addition(modifiedLines[last.lineNumber], last.message)] else [])
  }

  /** The violations an enabled style guide reports for a file whose lint
      source produced `messages`. */
  function FileReview(filename: string, messages: seq<LineMessage>, modifiedLines: map<int, ModifiedLine>): seq<ViolationView>
  {
    Aggregate(filename, KeptAdditions(messages, modifiedLines))
  }

  /** A language's `violation_messages`, with a count of how often it has
      been asked. Asking it stands for running the language's lint engine
      on the file, with whatever configuration it reads. */
  class MessageSource {
    const messagesFor: CommitFile -> seq<LineMessage>
    var asked: nat

    constructor (messagesFor: CommitFile -> seq<LineMessage>)
      ensures this.messagesFor == messagesFor && asked == 0
    {
      this.messagesFor := messagesFor;
      asked := 0;
    }

    /** The line messages of one file; each call is counted. */
    method ViolationMessages(file: CommitFile) returns (messages: seq<LineMessage>)
      modifies this
      ensures messages == messagesFor(file)
      ensures asked == old(asked) + 1
    {
      messages := messagesFor(file);
      asked := asked + 1;
    }
  }

  /** Base#violations_in_file. `name` is the guide's language name and
      `source` the language's own message source, which is asked exactly
      once when the repository enables the language and not at all
      otherwise. */
  method ViolationsInFile(repoConfig: RepoConfig, name: string, source: MessageSource, file: CommitFile)
    returns (r: seq<Violation>)
    modifies source
    ensures source.asked == old(source.asked) + (if repoConfig.enabledFor(name) then 1 else 0)
    ensures !repoConfig.enabledFor(name) ==> r == []
    ensures repoConfig.enabledFor(name)
            ==> Views(r) == FileReview(file.filename, source.messagesFor(file), file.modifiedLines)
  {
    var violations := new FileViolations(file.filename);
    if repoConfig.enabledFor(name) {
      var messages := source.ViolationMessages(file);
      AddOnModifiedLines(violations, messages, file.modifiedLines);
    }
    r := violations.ToSeq();
  }

  /** The loop of Base#violations_in_file: every message whose line number
      has a modified line is added to `violations` on that line. */
  method AddOnModifiedLines(violations: FileViolations, messages: seq<LineMessage>, modifiedLines: map<int, ModifiedLine>)
    requires violations.Valid() && violations.Snapshot() == []
    modifies violations, violations.table.Values
    ensures violations.Valid()
    ensures violations.Snapshot() == FileReview(violations.filename, messages, modifiedLines)
    ensures fresh(violations.table.Values - old(violations.table.Values))
  {
    var i := 0;
    while i < |messages|
      invariant 0 <= i <= |messages|
      invariant violations.Valid()
      invariant fresh(violations.table.Values - old(violations.table.Values))
      invariant violations.Snapshot() == FileReview(violations.filename, messages[..i], modifiedLines)
    {
      var lineMessage := messages[i];
      assert messages[..i + 1] == messages[..i] + [lineMessage];
      ghost var kept := KeptAdditions(messages[..i], modifiedLines);
      if lineMessage.lineNumber in modifiedLines {
        var line := modifiedLines[lineMessage.lineNumber];
        violations.Add(line, lineMessage.message);
        AggregateAppend(violations.filename, kept, Addition(line, lineMessage.message));
      } else {
        assert kept + [] == kept;
      }
      i := i + 1;
    }
    assert messages[..i] == messages;
  }

  /** KeptAdditions works message by message. */
  lemma {:induction false} KeptConcat(a: seq<LineMessage>, b: seq<LineMessage>, modifiedLines: map<int, ModifiedLine>)
    ensures KeptAdditions(a + b, modifiedLines) == KeptAdditions(a, modifiedLines) + KeptAdditions(b, modifiedLines)
  {
    if b != [] {
      var b' := b[..|b| - 1];
      assert a + b == (a + b') + [b[|b| - 1]];
      assert (a + b)[..|a + b| - 1] == a + b';
      KeptConcat(a, b', modifiedLines);
    } else {
      assert a + b == a;
    }
  }

  /** A message on a line number without a modified line contributes
      nothing, wherever it stands in the message stream. */
  lemma UnmodifiedLineIgnored(filename: string, before: seq<LineMessage>, m: LineMessage, after: seq<LineMessage>,
                              modifiedLines: map<int, ModifiedLine>)
    requires m.lineNumber !in modifiedLines
    ensures FileReview(filename, before + [m] + after, modifiedLines) == FileReview(filename, before + after, modifiedLines)
  {
    KeptConcat(before + [m], after, modifiedLines);
    KeptConcat(before, [m], modifiedLines);
    KeptConcat(before, after, modifiedLines);
    assert [m][..0] == [];
    assert KeptAdditions([m], modifiedLines) == [];
    var k := KeptAdditions(before, modifiedLines);
    assert KeptAdditions(before + [m], modifiedLines) == k + [] == k;
    assert KeptAdditions(before + [m] + after, modifiedLines) == KeptAdditions(before + after, modifiedLines);
  }

  /** The diff's index is consistent: the modified line found at a line
      number carries that number. */
  predicate IndexConsistent(modifiedLines: map<int, ModifiedLine>) {
    forall n :: n in modifiedLines ==> modifiedLines[n].number == n
  }

  /** The line numbers of the messages that fall on modified lines, in
      stream order, repetitions included. */
  function ModifiedLineNumbers(messages: seq<LineMessage>, modifiedLines: map<int, ModifiedLine>): seq<int>
  {
    if messages == [] then []
    else
      var last := messages[|messages| - 1];
      ModifiedLineNumbers(messages[..|messages| - 1], modifiedLines)
      + (if last.lineNumber in modifiedLines then [last.lineNumber] else [])
  }

  /** The messages emitted for line number `n`, in stream order. */
  function MessagesOnLine(messages: seq<LineMessage>, n: int): seq<string>
  {
    if messages == [] then []
    else
      var last := messages[|messages| - 1];
      MessagesOnLine(messages[..|messages| - 1], n) + (if last.lineNumber == n then [last.message] else [])
  }

  lemma {:induction false} KeptAdditionsByLine(messages: seq<LineMessage>, modifiedLines: map<int, ModifiedLine>)
    requires IndexConsistent(modifiedLines)
    ensures AddedNumbers(KeptAdditions(messages, modifiedLines)) == ModifiedLineNumbers(messages, modifiedLines)
    ensures forall n :: n in modifiedLines ==>
              MessagesFor(KeptAdditions(messages, modifiedLines), n) == MessagesOnLine(messages, n)
  {
    if messages != [] {
      var p, last := messages[..|messages| - 1], messages[|messages| - 1];
      KeptAdditionsByLine(p, modifiedLines);
      var kept := KeptAdditions(p, modifiedLines);
      if last.lineNumber in modifiedLines {
        var a := Addition(modifiedLines[last.lineNumber], last.message);
        AddedNumbersAppend(kept, a);
        forall n | n in modifiedLines
          ensures MessagesFor(kept + [a], n) == MessagesOnLine(messages, n)
        {
          MessagesForAppend(kept, a, n);
        }
      } else {
        assert kept + [] == kept;
      }
    }
  }

  lemma {:induction false} ModifiedLineNumbersAreModified(messages: seq<LineMessage>, modifiedLines: map<int, ModifiedLine>)
    ensures forall n :: n in ModifiedLineNumbers(messages, modifiedLines) ==> n in modifiedLines
  {
    if messages != [] {
      ModifiedLineNumbersAreModified(messages[..|messages| - 1], modifiedLines);
    }
  }

  /** What a file review reports, line by line, when the diff's index is
      consistent: one violation per distinct modified line that received a
      message, in the order of the line's first message; no violation for
      a line the diff does not touch; each on the modified line itself, of
      this file, whose messages are the deduplicated messages emitted for
      that line. */
  lemma FileReviewByLine(filename: string, messages: seq<LineMessage>, modifiedLines: map<int, ModifiedLine>)
    requires IndexConsistent(modifiedLines)
    ensures var r := FileReview(filename, messages, modifiedLines);
            && Numbers(r) == Dedup(ModifiedLineNumbers(messages, modifiedLines))
            && forall i :: 0 <= i < |r| ==>
                 && r[i].line.number in modifiedLines
                 && r[i].line == modifiedLines[r[i].line.number]
                 && r[i].filename == filename
                 && r[i].Messages() == Dedup(MessagesOnLine(messages, r[i].line.number))
  {
    var kept := KeptAdditions(messages, modifiedLines);
    var r := FileReview(filename, messages, modifiedLines);
    AggregateSpec(filename, kept);
    KeptAdditionsByLine(messages, modifiedLines);
    ModifiedLineNumbersAreModified(messages, modifiedLines);
    forall i | 0 <= i < |r|
      ensures r[i].line.number in modifiedLines && r[i].line == modifiedLines[r[i].line.number]
    {
      var n := r[i].line.number;
      var k := FirstIndex(AddedNumbers(kept), n);
      KeptLinesFromIndex(messages, modifiedLines, k);
    }
  }

  /** Every kept addition carries the modified line of its own number. */
  lemma {:induction false} KeptLinesFromIndex(messages: seq<LineMessage>, modifiedLines: map<int, ModifiedLine>, k: nat)
    requires IndexConsistent(modifiedLines)
    requires k < |KeptAdditions(messages, modifiedLines)|
    ensures var a := KeptAdditions(messages, modifiedLines)[k];
            a.line.number in modifiedLines && a.line == modifiedLines[a.line.number]
  {
    var p := messages[..|messages| - 1];
    if k < |KeptAdditions(p, modifiedLines)| {
      KeptLinesFromIndex(p, modifiedLines, k);
    }
  }
}
