/** Unpacking one archive member onto a path that another process may have mapped: identical
    files stay in place, others are replaced in one step (`extract_file`). */
module ExtractFile {
  type Bytes = string

  /** A file as a process may hold it open: its identity and its bytes. */
  datatype File = File(id: nat, content: Bytes)

  type Files = map<string, File>

  /** How the replacement may go wrong: the copy fails after some bytes, the rename fails, or
      the process is killed during the copy. */
  datatype Fault = NoFault | CopyFails(written: nat) | RenameFails | Killed(written: nat)

  datatype Outcome = Kept | Replaced | Raised | Dead

  const CHUNK: nat := 1024 * 1024

  /** The comparison loop, from position `i` on: chunks of the member against equal stretches
      of the file. */
  predicate ChunksAgree(content: Bytes, member: Bytes, i: nat)
    requires |content| == |member| && i <= |member|
    decreases |member| - i
  {
    if i == |member| then true else
      var end := if i + CHUNK <= |member| then i + CHUNK else |member|;
      content[i..end] == member[i..end] && ChunksAgree(content, member, end)
  }

  /** Files of one size agree chunk by chunk exactly when they are equal. */
  lemma {:induction false} ChunksDecide(content: Bytes, member: Bytes, i: nat)
    requires |content| == |member| && i <= |member|
    ensures ChunksAgree(content, member, i) <==> content[i..] == member[i..]
    decreases |member| - i
  {
    if i < |member| {
      var end := if i + CHUNK <= |member| then i + CHUNK else |member|;
      ChunksDecide(content, member, end);
      assert content[i..] == content[i..end] + content[end..];
      assert member[i..] == member[i..end] + member[end..];
    }
  }

  class Directory {
    var files: Files
    var nextId: nat

    ghost predicate Valid()
      reads this
    {
      forall name :: name in files ==> files[name].id < nextId
    }

    constructor ()
      ensures Valid() && files == map[]
    {
      files, nextId := map[], 0;
    }

    /** Read both files chunk by chunk until one differs. */
    method SameBytes(target: string, member: Bytes) returns (same: bool)
      requires target in files && |files[target].content| == |member|
      ensures same <==> files[target].content == member
    {
      var content, i := files[target].content, 0;
      ChunksDecide(content, member, 0);
      while i < |member|
        invariant i <= |member| && (ChunksAgree(content, member, 0) <==> ChunksAgree(content, member, i))
      {
        var end := if i + CHUNK <= |member| then i + CHUNK else |member|;
        if content[i..end] != member[i..end] {
          return false;
        }
        i := end;
      }
      return true;
    }

    /** Write the member to a temporary file, rename it over the target, and unlink whatever is
        left under the temporary name. */
    method Replace(target: string, member: Bytes, temporary: string, fault: Fault)
      returns (outcome: Outcome, ghost history: seq<Files>)
      requires Valid() && temporary !in files && temporary != target
      modifies this
      ensures Valid()
      ensures outcome == (match fault case NoFault => Replaced case Killed(_) => Dead case _ => Raised)
      ensures outcome == Replaced ==> files == old(files)[target := File(old(nextId), member)]
      ensures outcome == Raised ==> files == old(files)
      ensures outcome == Dead ==> files - {temporary} == old(files)
      ensures Shows(history, temporary, old(files), files)
    {
      ghost var before := files;
      var id := nextId;
      nextId := nextId + 1;
      files := files[temporary := File(id, "")];
      assert files - {temporary} == before;
      history := [files];
      var written := Written(fault, |member|);
      files := files[temporary := File(id, member[..written])];
      assert files - {temporary} == before;
      history := history + [files];
      if fault.Killed? {
        return Dead, history;
      }
      if fault == NoFault {
        assert member[..written] == member;
        files := (files - {temporary})[target := files[temporary]];
        assert files == before[target := File(id, member)] && files - {temporary} == files;
        history := history + [files];
        outcome := Replaced;
      } else {
        outcome := Raised;
      }
      files := files - {temporary};
      history := history + [files];
    }

    /** `mkstemp` gives a name not in use. `history` lists the states the directory goes through. */
    method ExtractFile(target: string, member: Bytes, temporary: string, fault: Fault)
      returns (outcome: Outcome, ghost history: seq<Files>)
      requires Valid() && temporary !in files && temporary != target
      modifies this
      ensures Valid()
      ensures outcome == Kept <==> target in old(files) && old(files)[target].content == member
      ensures outcome == Replaced <==> outcome != Kept && fault == NoFault
      ensures outcome == Dead <==> outcome != Kept && fault.Killed?
      ensures outcome == Kept || outcome == Raised ==> files == old(files)
      ensures outcome == Replaced ==> files == old(files)[target := File(old(nextId), member)]
      ensures outcome == Dead ==> files - {temporary} == old(files)
      ensures Shows(history, temporary, old(files), files)
    {
      if target in files && |files[target].content| == |member| {
        var same := SameBytes(target, member);
        if same {
          return Kept, [];
        }
      }
      outcome, history := Replace(target, member, temporary, fault);
    }
  }

  function Written(fault: Fault, size: nat): (k: nat)
    ensures k <= size
    ensures fault == NoFault || fault == RenameFails ==> k == size
  {
    match fault
    case CopyFails(k) => if k < size then k else size
    case Killed(k) => if k < size then k else size
    case _ => size
  }

  /** Apart from the temporary file, every state shows the files as before or as after. */
  ghost predicate Shows(history: seq<Files>, temporary: string, before: Files, after: Files) {
    forall i :: 0 <= i < |history| ==>
      history[i] - {temporary} == before - {temporary} || history[i] - {temporary} == after - {temporary}
  }
}
