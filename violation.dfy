/** A per-line violation: the file it belongs to, the modified line it sits
    on, and an append-only buffer of messages read back deduplicated. */
module Violations {
  import opened Uniq

  /** A line of the new version of a file that the diff touches: its line
      number and the diff position that comments are anchored to. */
  datatype ModifiedLine = ModifiedLine(number: int, patchPosition: int)

  /** The state of one Violation object at one moment. */
  datatype ViolationView = ViolationView(filename: string, line: ModifiedLine, buffer: seq<string>)
  {
    /** What Violation#messages returns in this state. */
    function Messages(): (r: seq<string>)
      ensures IsUniqOf(buffer, r)
    {
      DedupIsUniq(buffer);
      Dedup(buffer)
    }
  }

  class Violation {
    /** The file name and the line are fixed at construction: the class
        offers no way to change them. */
    const filename: string
    const line: ModifiedLine
    /** Every message ever given, in arrival order, duplicates included. */
    var buffer: seq<string>

    constructor (filename: string, line: ModifiedLine, messages: seq<string>)
      ensures this.filename == filename && this.line == line
      ensures buffer == messages
    {
      this.filename := filename;
      this.line := line;
      buffer := messages;
    }

    /** The diff position of the violation, taken from its line; the line
        is fixed at construction, so the position never changes. */
    function PatchPosition(): (p: int)
      ensures p == line.patchPosition
    {
      line.patchPosition
    }

    /** Append one message; the buffer only grows. */
    method AddMessage(message: string)
      modifies this
      ensures buffer == old(buffer) + [message]
    {
      buffer := buffer + [message];
    }

    /** Every message given so far exactly once, in order of first arrival. */
    function Messages(): (r: seq<string>)
      reads this
      ensures NoDuplicates(r)
      ensures SameElements(r, buffer)
      ensures forall i, j :: 0 <= i < j < |r| ==> FirstIndex(buffer, r[i]) < FirstIndex(buffer, r[j])
    {
      View().Messages()
    }

    function View(): (v: ViolationView)
      reads this
    {
      ViolationView(filename, line, buffer)
    }
  }

  /** The states of a sequence of Violation objects. */
  function Views(vs: seq<Violation>): (r: seq<ViolationView>)
    reads set v | v in vs
    ensures |r| == |vs| && forall i :: 0 <= i < |vs| ==> r[i] == vs[i].View()
  {
    if vs == [] then [] else [vs[0].View()] + Views(vs[1..])
  }

  /** After AddMessage, `messages` has the new message at the end if it was
      new and is unchanged if it was already there. */
  lemma AddMessageEffect(v: ViolationView, message: string)
    ensures v.(buffer := v.buffer + [message]).Messages()
         == if message in v.buffer then v.Messages() else v.Messages() + [message]
  {
    DedupAppend(v.buffer, message);
  }

  /** Reading `messages` is idempotent: deduplicating the deduplicated
      messages changes nothing. */
  lemma MessagesIdempotent(v: ViolationView)
    ensures Dedup(v.Messages()) == v.Messages()
  {
    DedupIdempotent(v.buffer);
  }
}
