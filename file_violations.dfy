/** The violations of one file, at most one per line number, enumerated in
    the order their line numbers were first added (Ruby's Hash keeps
    insertion order). */
module FileViolationSet {
  import opened Uniq
  import opened Violations

  /** One call `add(line, message)`. */
  datatype Addition = Addition(line: ModifiedLine, message: string)

  /** The line numbers of a sequence of violation states. */
  function Numbers(vs: seq<ViolationView>): (ns: seq<int>)
    ensures |ns| == |vs| && forall i :: 0 <= i < |vs| ==> ns[i] == vs[i].line.number
  {
    seq(|vs|, i requires 0 <= i < |vs| => vs[i].line.number)
  }

  /** The enumerated contents after `add(line, message)` on contents `vs`:
      the violation stored under `line.number` gets the message appended, or
      a new violation for `line` goes to the end. */
  function AddTo(vs: seq<ViolationView>, filename: string, line: ModifiedLine, message: string): seq<ViolationView>
  {
    var ns := Numbers(vs);
    if line.number in ns then
      var k := FirstIndex(ns, line.number);
      vs[k := vs[k].(buffer := vs[k].buffer + [message])]
    else
      vs + [ViolationView(filename, line, [message])]
  }

  /** `add` keeps one violation per line number. */
  lemma AddKeepsOnePerLine(vs: seq<ViolationView>, filename: string, line: ModifiedLine, message: string)
    requires NoDuplicates(Numbers(vs))
    ensures NoDuplicates(Numbers(AddTo(vs, filename, line, message)))
  {
    AddNumbers(vs, filename, line, message);
  }

  /** The line numbers after `add`: unchanged when the line number is known,
      otherwise the new one is enumerated last. */
  lemma AddNumbers(vs: seq<ViolationView>, filename: string, line: ModifiedLine, message: string)
    ensures Numbers(AddTo(vs, filename, line, message))
         == if line.number in Numbers(vs) then Numbers(vs) else Numbers(vs) + [line.number]
  {
  }

  /** `add` raises the count by one exactly when the line number is new. */
  lemma AddCount(vs: seq<ViolationView>, filename: string, line: ModifiedLine, message: string)
    ensures |AddTo(vs, filename, line, message)|
         == if line.number in Numbers(vs) then |vs| else |vs| + 1
  {
  }

  /** `add` touches only the violation of its own line number: every other
      entry keeps its position and its state. */
  lemma AddFrame(vs: seq<ViolationView>, filename: string, line: ModifiedLine, message: string)
    ensures forall i :: 0 <= i < |vs| && vs[i].line.number != line.number
                        ==> AddTo(vs, filename, line, message)[i] == vs[i]
  {
  }

  /** On a known line number, `add` keeps the stored file name and line (and
      so its patch position) and only appends the message to its buffer,
      even when the new line object differs from the stored one. */
  lemma AddToExisting(vs: seq<ViolationView>, filename: string, line: ModifiedLine, message: string, i: nat)
    requires NoDuplicates(Numbers(vs))
    requires i < |vs| && vs[i].line.number == line.number
    ensures AddTo(vs, filename, line, message)[i]
         == ViolationView(vs[i].filename, vs[i].line, vs[i].buffer + [message])
  {
    FirstIndexUnique(Numbers(vs), line.number, i);
  }

  /** On a new line number, `add` creates a violation of this file for
      `line` with the single message. */
  lemma AddToNew(vs: seq<ViolationView>, filename: string, line: ModifiedLine, message: string)
    requires line.number !in Numbers(vs)
    ensures AddTo(vs, filename, line, message)[|vs|] == ViolationView(filename, line, [message])
  {
  }

  /** The contents after feeding `adds` into a new, empty collection. */
  function Aggregate(filename: string, adds: seq<Addition>): seq<ViolationView>
  {
    if adds == [] then []
    else
      var n := |adds| - 1;
      AddTo(Aggregate(filename, adds[..n]), filename, adds[n].line, adds[n].message)
  }

  /** Aggregate extended by one more `add`. */
  lemma AggregateAppend(filename: string, adds: seq<Addition>, a: Addition)
    ensures Aggregate(filename, adds + [a]) == AddTo(Aggregate(filename, adds), filename, a.line, a.message)
  {
    assert (adds + [a])[..|adds|] == adds;
  }

  /** The line numbers of a sequence of additions, in call order. */
  function AddedNumbers(adds: seq<Addition>): (ns: seq<int>)
    ensures |ns| == |adds| && forall i :: 0 <= i < |adds| ==> ns[i] == adds[i].line.number
  {
    seq(|adds|, i requires 0 <= i < |adds| => adds[i].line.number)
  }

  /** The messages added for line number `n`, in call order. */
  function MessagesFor(adds: seq<Addition>, n: int): seq<string>
  {
    if adds == [] then []
    else
      var last := adds[|adds| - 1];
      MessagesFor(adds[..|adds| - 1], n) + (if last.line.number == n then [last.message] else [])
  }

  /** The line object of the first addition for line number `n`. */
  function FirstLine(adds: seq<Addition>, n: int): ModifiedLine
    requires n in AddedNumbers(adds)
  {
    adds[FirstIndex(AddedNumbers(adds), n)].line
  }

  lemma {:induction false} MessagesForAbsent(adds: seq<Addition>, n: int)
    requires n !in AddedNumbers(adds)
    ensures MessagesFor(adds, n) == []
  {
    if adds != [] {
      var p := adds[..|adds| - 1];
      assert AddedNumbers(p) == AddedNumbers(adds)[..|adds| - 1];
      MessagesForAbsent(p, n);
    }
  }

  /** What a sequence of `add` calls builds: one violation per distinct line
      number, in the order of first occurrence, each belonging to the file,
      keeping the first line object given for its number, and holding every
      message added for that number in call order. */
  predicate Aggregates(filename: string, adds: seq<Addition>, r: seq<ViolationView>) {
    && Numbers(r) == Dedup(AddedNumbers(adds))
    && forall i :: 0 <= i < |r| ==>
         && r[i].filename == filename
         && r[i].line.number in AddedNumbers(adds)
         && r[i].line == FirstLine(adds, r[i].line.number)
         && r[i].buffer == MessagesFor(adds, r[i].line.number)
  }

  lemma AddedNumbersAppend(p: seq<Addition>, a: Addition)
    ensures AddedNumbers(p + [a]) == AddedNumbers(p) + [a.line.number]
  {
  }

  lemma MessagesForAppend(p: seq<Addition>, a: Addition, n: int)
    ensures MessagesFor(p + [a], n) == MessagesFor(p, n) + (if a.line.number == n then [a.message] else [])
  {
    assert (p + [a])[..|p|] == p;
  }

  lemma FirstLineAppend(p: seq<Addition>, a: Addition, n: int)
    requires n in AddedNumbers(p) || n == a.line.number
    ensures n in AddedNumbers(p + [a])
    ensures FirstLine(p + [a], n) == if n in AddedNumbers(p) then FirstLine(p, n) else a.line
  {
    AddedNumbersAppend(p, a);
    if n in AddedNumbers(p) {
      FirstIndexAppend(AddedNumbers(p), a.line.number, n);
    } else {
      FirstIndexUnique(AddedNumbers(p + [a]), n, |p|);
    }
  }

  /** One more `add` keeps the entry at position `i` described by
      Aggregates. */
  lemma AggregateStepAt(filename: string, p: seq<Addition>, a: Addition, vs: seq<ViolationView>, i: nat)
    requires Aggregates(filename, p, vs)
    requires i < |AddTo(vs, filename, a.line, a.message)|
    ensures var r := AddTo(vs, filename, a.line, a.message);
            && r[i].filename == filename
            && r[i].line.number in AddedNumbers(p + [a])
            && r[i].line == FirstLine(p + [a], r[i].line.number)
            && r[i].buffer == MessagesFor(p + [a], r[i].line.number)
  {
    var r := AddTo(vs, filename, a.line, a.message);
    DedupIsUniq(AddedNumbers(p));
    if i < |vs| {
      var x := vs[i].line.number;
      FirstLineAppend(p, a, x);
      MessagesForAppend(p, a, x);
      if x == a.line.number {
        AddToExisting(vs, filename, a.line, a.message, i);
      } else {
        AddFrame(vs, filename, a.line, a.message);
      }
    } else {
      AddCount(vs, filename, a.line, a.message);
      assert a.line.number !in AddedNumbers(p);
      AddToNew(vs, filename, a.line, a.message);
      MessagesForAbsent(p, a.line.number);
      MessagesForAppend(p, a, a.line.number);
      FirstLineAppend(p, a, a.line.number);
    }
  }

  /** One more `add` keeps Aggregates. */
  lemma AggregateStep(filename: string, p: seq<Addition>, a: Addition, vs: seq<ViolationView>)
    requires Aggregates(filename, p, vs)
    ensures Aggregates(filename, p + [a], AddTo(vs, filename, a.line, a.message))
  {
    var ns := AddedNumbers(p + [a]);
    AddedNumbersAppend(p, a);
    AddNumbers(vs, filename, a.line, a.message);
    DedupAppend(AddedNumbers(p), a.line.number);
    var r := AddTo(vs, filename, a.line, a.message);
    forall i | 0 <= i < |r|
      ensures && r[i].filename == filename
              && r[i].line.number in ns
              && r[i].line == FirstLine(p + [a], r[i].line.number)
              && r[i].buffer == MessagesFor(p + [a], r[i].line.number)
    {
      AggregateStepAt(filename, p, a, vs, i);
    }
  }

  /** Aggregate builds what Aggregates describes. */
  lemma {:induction false} AggregateSpec(filename: string, adds: seq<Addition>)
    ensures Aggregates(filename, adds, Aggregate(filename, adds))
  {
    if adds != [] {
      var n := |adds| - 1;
      assert adds == adds[..n] + [adds[n]];
      AggregateSpec(filename, adds[..n]);
      AggregateStep(filename, adds[..n], adds[n], Aggregate(filename, adds[..n]));
    }
  }

  class FileViolations {
    const filename: string
    /** Violations keyed by line number. */
    var table: map<int, Violation>
    /** The keys of `table` in insertion order. */
    var order: seq<int>

    ghost predicate Valid()
      reads this
    {
      && NoDuplicates(order)
      && (forall i :: 0 <= i < |order| ==> order[i] in table)
      && (forall n :: n in table ==> n in order)
      && (forall n :: n in table ==> table[n].line.number == n && table[n].filename == filename)
    }

    /** The violations in enumeration order. */
    function Snapshot(): (r: seq<ViolationView>)
      reads this, table.Values
      requires Valid()
      ensures Numbers(r) == order
      ensures forall i :: 0 <= i < |r| ==> r[i].filename == filename
    {
      var r := seq(|order|, i requires 0 <= i < |order| && order[i] in table reads this, table.Values
                              => table[order[i]].View());
      assert forall i :: 0 <= i < |r| ==> Numbers(r)[i] == table[order[i]].line.number == order[i];
      r
    }

    constructor (filename: string)
      ensures Valid() && this.filename == filename
      ensures table == map[] && Snapshot() == []
    {
      this.filename := filename;
      table := map[];
      order := [];
    }

    /** FileViolations#add: create the line's violation or append to it. */
    method Add(line: ModifiedLine, message: string)
      requires Valid()
      modifies this, table.Values
      ensures Valid()
      ensures Snapshot() == AddTo(old(Snapshot()), filename, line, message)
      ensures fresh(table.Values - old(table.Values))
    {
      ghost var before := Snapshot();
      if line.number !in table {
        var v := new Violation(filename, line, [message]);
        table := table[line.number := v];
        order := order + [line.number];
      } else {
        var v := table[line.number];
        ghost var k := FirstIndex(order, line.number);
        v.AddMessage(message);
        forall i | 0 <= i < |order| && i != k ensures table[order[i]] != v {
          assert table[order[i]].line.number == order[i];
        }
      }
    }

    /** FileViolations#each: the stored violations in insertion order. */
    method ToSeq() returns (r: seq<Violation>)
      requires Valid()
      ensures Views(r) == Snapshot()
    {
      r := [];
      var i := 0;
      while i < |order|
        invariant 0 <= i <= |order|
        invariant |r| == i && forall j :: 0 <= j < i ==> r[j] == table[order[j]]
      {
        r := r + [table[order[i]]];
        i := i + 1;
      }
    }
  }

  /** An `add` on an empty collection gives one violation, with the line's
      patch position and the single message. */
  method AddToEmpty(line: ModifiedLine, message: string) returns (count: nat, patchPosition: int, messages: seq<string>)
    ensures count == 1 && patchPosition == line.patchPosition && messages == [message]
  {
    var violations := new FileViolations("foo.rb");
    violations.Add(line, message);
    var all := violations.ToSeq();
    count := |all|;
    patchPosition := all[0].PatchPosition();
    messages := all[0].Messages();
    assert Dedup([message]) == Dedup([] + [message]);
  }

  /** Two `add`s on the same line give one violation holding both messages
      in order (one, when they are equal). */
  method AddTwiceOnOneLine(line: ModifiedLine, first: string, second: string) returns (count: nat, messages: seq<string>)
    ensures count == 1
    ensures messages == if first == second then [first] else [first, second]
  {
    var violations := new FileViolations("foo.rb");
    violations.Add(line, first);
    ghost var once := [ViolationView("foo.rb", line, [first])];
    assert violations.Snapshot() == once;
    violations.Add(line, second);
    assert Numbers(once)[0] == line.number;
    AddToExisting(once, "foo.rb", line, second, 0);
    AddCount(once, "foo.rb", line, second);
    ghost var twice := AddTo(once, "foo.rb", line, second);
    assert |twice| == 1 && twice[0] == ViolationView("foo.rb", line, [first, second]);
    assert violations.Snapshot() == [ViolationView("foo.rb", line, [first, second])];
    var all := violations.ToSeq();
    count := |all|;
    messages := all[0].Messages();
    assert all[0].buffer == [first, second];
    DedupAppend([first], second);
    DedupAppend([], first);
  }
}
