/**
  The report writer: a temporary file in the target's directory, then a
  rename.  Any step may fail; every state the disk passes through is kept.
*/
module ReportWriter {

  /** `mode` as permission bits; the text stands for its UTF-8 bytes. */
  datatype File = File(text: string, mode: nat)

  type Files = map<string, File>

  const PRIVATE := 0x180 // 0600
  const DOCUMENT := 0x1A4 // 0644

  /** How a step ends; only OSError reaches the cleanup branch. */
  datatype Fault = Done | OsError | OtherError

  /** What each step meets. `spills` are the sizes the temporary file passes through while it is written. */
  datatype Script = Script(
    mkstemp: Fault, open: Fault, spills: seq<nat>, write: Fault, replace: Fault, unlinks: bool, chmod: Fault)

  /** What the call comes to: the fault it raises, Done for none, and the states the disk went through. */
  datatype Outcome = Outcome(raised: Fault, states: seq<Files>)

  function Cut(content: string, n: nat): string { if n <= |content| then content[..n] else content }

  function Spilled(files: Files, temp: string, content: string, spills: seq<nat>): seq<Files> {
    seq(|spills|, i requires 0 <= i < |spills| => files[temp := File(Cut(content, spills[i]), PRIVATE)])
  }

  function Last(files: Files, states: seq<Files>): Files { if states == [] then files else states[|states|-1] }

  /** The except branch. */
  function Cleanup(files: Files, states: seq<Files>, temp: string, fault: Fault, unlinks: bool): Outcome {
    if fault == OsError && unlinks then Outcome(fault, states + [Last(files, states) - {temp}])
    else Outcome(fault, states)
  }

  /** The states of the temporary file while it is written and closed. */
  function Filled(files: Files, temp: string, content: string, sc: Script): seq<Files> {
    if sc.open != Done then []
    else Spilled(files, temp, content, sc.spills) + if sc.write == Done then [files[temp := File(content, PRIVATE)]]
        else []
  }

  function Draft(files: Files, temp: string, content: string, sc: Script): seq<Files> {
    [files[temp := File("", PRIVATE)]] + Filled(files, temp, content, sc)
  }

  /** write() as a function of what its steps meet. */
  function Writing(files: Files, temp: string, path: string, content: string, sc: Script): Outcome {
    var draft := Draft(files, temp, content, sc);
    if sc.mkstemp != Done then Outcome(sc.mkstemp, [])
    else if sc.open != Done then Cleanup(files, draft, temp, sc.open, sc.unlinks)
    else if sc.write != Done then Cleanup(files, draft, temp, sc.write, sc.unlinks)
    else if sc.replace != Done then Cleanup(files, draft, temp, sc.replace, sc.unlinks)
    else
      var renamed := (files - {temp})[path := File(content, PRIVATE)];
      if sc.chmod != Done then Outcome(sc.chmod, draft + [renamed])
      else Outcome(Done, draft + [renamed] + [renamed[path := File(content, DOCUMENT)]])
  }

  /** The disk, with every state it went through. */
  class Disk {
    var files: Files
    ghost var states: seq<Files>

    constructor (files: Files)
      ensures this.files == files && states == []
    {
      this.files, states := files, [];
    }

    method Put(name: string, file: File)
      modifies this
      ensures files == old(files)[name := file] && states == old(states) + [files]
    {
      files := files[name := file];
      states := states + [files];
    }

    method Unlink(name: string)
      modifies this
      ensures files == old(files) - {name} && states == old(states) + [files]
    {
      files := files - {name};
      states := states + [files];
    }

    /** One step: the old name is gone and the new one is there, at once. */
    method Rename(from: string, to: string)
      requires from in files && from != to
      modifies this
      ensures files == (old(files) - {from})[to := old(files)[from]] && states == old(states) + [files]
    {
      files := (files - {from})[to := files[from]];
      states := states + [files];
    }
  }

  class TextReportWriter {
    constructor () {}

    /** The with block: open, write, close. `files` is the disk without the temporary file. */
    method FillTemp(disk: Disk, temp: string, content: string, sc: Script, ghost files: Files) returns (fault: Fault)
      requires disk.files == files[temp := File("", PRIVATE)]
      modifies disk
      ensures fault == if sc.open != Done then sc.open else sc.write
      ensures disk.states == old(disk.states) + Filled(files, temp, content, sc)
      ensures disk.files == Last(old(disk.files), Filled(files, temp, content, sc))
    {
      if sc.open != Done { return sc.open; }
      ghost var spilled := Spilled(files, temp, content, sc.spills);
      for i := 0 to |sc.spills|
        invariant disk.states == old(disk.states) + spilled[..i]
        invariant disk.files == Last(old(disk.files), spilled[..i])
      {
        LastOverwritten(files, temp, spilled[..i], File(Cut(content, sc.spills[i]), PRIVATE));
        disk.Put(temp, File(Cut(content, sc.spills[i]), PRIVATE));
        assert disk.files == spilled[i] && spilled[..i+1] == spilled[..i] + [spilled[i]];
      }
      assert spilled[..|sc.spills|] == spilled;
      if sc.write == Done {
        LastOverwritten(files, temp, spilled, File(content, PRIVATE));
        disk.Put(temp, File(content, PRIVATE));
      }
      fault := sc.write;
    }

    method Write(disk: Disk, temp: string, path: string, content: string, sc: Script) returns (raised: Fault)
      requires temp !in disk.files && temp != path
      modifies disk
      ensures var outcome := Writing(old(disk.files), temp, path, content, sc);
              && raised == outcome.raised && disk.states == old(disk.states) + outcome.states
              && disk.files == Last(old(disk.files), outcome.states)
    {
      ghost var before, files := disk.states, disk.files;
      ghost var draft := Draft(files, temp, content, sc);
      if sc.mkstemp != Done { return sc.mkstemp; }
      disk.Put(temp, File("", PRIVATE));
      var fault := FillTemp(disk, temp, content, sc, files);
      assert disk.states == before + draft && disk.files == Last(files, draft);
      DraftEnds(files, temp, content, sc);
      hide Filled, Draft, Spilled;
      if fault == Done {
        if sc.replace == Done {
          disk.Rename(temp, path);
          assert disk.files == (files - {temp})[path := File(content, PRIVATE)];
        } else {
          fault := sc.replace;
        }
      }
      if fault != Done {
        if fault == OsError && sc.unlinks {
          disk.Unlink(temp);
        }
        return fault;
      }
      if sc.chmod != Done { return sc.chmod; }
      disk.Put(path, File(content, DOCUMENT));
      return Done;
    }
  }

  /** States that differ from `files` in the temporary file only. */
  ghost predicate OnlyTemp(files: Files, temp: string, states: seq<Files>) {
    forall s | s in states :: temp in s && s == files[temp := s[temp]]
  }

  lemma LastOverwritten(files: Files, temp: string, states: seq<Files>, f: File)
    requires OnlyTemp(files, temp, states)
    ensures Last(files[temp := File("", PRIVATE)], states)[temp := f] == files[temp := f]
  {
    if states != [] {
      var last := states[|states|-1];
      assert last in states && last[temp := f] == files[temp := f];
    }
  }

  lemma DraftEnds(files: Files, temp: string, content: string, sc: Script)
    ensures sc.open == sc.write == Done ==>
              Last(files, Draft(files, temp, content, sc)) == files[temp := File(content, PRIVATE)]
    ensures Draft(files, temp, content, sc) != []
  {
  }

  // -- main results ---------------------------------------------------------

  /** The target holds what it held before, or the whole new text. */
  ghost predicate Whole(files: Files, s: Files, path: string, content: string) {
    || ((path in s <==> path in files) && (path in s ==> s[path] == files[path]))
    || (path in s && s[path].text == content)
  }

  ghost predicate SameElsewhere(files: Files, s: Files, temp: string, path: string) {
    forall name | name != temp && name != path :: (name in s <==> name in files)
        && (name in s ==> s[name] == files[name])
  }

  lemma DraftIsTemp(files: Files, temp: string, content: string, sc: Script)
    ensures OnlyTemp(files, temp, Draft(files, temp, content, sc))
  {
  }

  lemma TempStateIsSafe(files: Files, s: Files, temp: string, path: string, content: string)
    requires temp !in files && temp != path
            && (s == files || (temp in s && s == files[temp := s[temp]]) || s == files - {temp})
    ensures Whole(files, s, path, content) && SameElsewhere(files, s, temp, path)
  {
  }

  /**
    In every state the disk goes through, whatever fails, the target is as it was or holds the whole new text,
    and no file but the target and the temporary one is touched.
  */
  lemma TargetIsWhole(files: Files, temp: string, path: string, content: string, sc: Script, s: Files)
    requires temp !in files && temp != path && s in Writing(files, temp, path, content, sc).states
    ensures Whole(files, s, path, content) && SameElsewhere(files, s, temp, path)
  {
    var draft := Draft(files, temp, content, sc);
    DraftIsTemp(files, temp, content, sc);
    DraftEnds(files, temp, content, sc);
    hide Draft;
    assert draft[|draft|-1] in draft;
    if s in draft {
      TempStateIsSafe(files, s, temp, path, content);
    } else if s == Last(files, draft) - {temp} {
      assert s == files - {temp};
      TempStateIsSafe(files, s, temp, path, content);
    }
  }

  /** The first fault before the rename is done. */
  function FaultBeforeRename(sc: Script): Fault {
    if sc.mkstemp != Done then sc.mkstemp
    else if sc.open != Done then sc.open
    else if sc.write != Done then sc.write
    else sc.replace
  }

  /**
    How the disk is left. A call whose rename was not done leaves it exactly as it was, unless the temporary
    file was made and then not unlinked: the unlink failed, or the error was not an OSError.
  */
  lemma HowTheDiskIsLeft(files: Files, temp: string, path: string, content: string, sc: Script)
    requires temp !in files && temp != path
    ensures var outcome, fault := Writing(files, temp, path, content, sc), FaultBeforeRename(sc);
            var left := Last(files, outcome.states);
            && (outcome.raised == Done <==> fault == sc.chmod == Done)
            && (outcome.raised == Done ==> left == files[path := File(content, 0x1A4)]) // 0644
            && (fault == Done && sc.chmod != Done ==> left == files[path := File(content, 0x180)]) // 0600
            && (fault != Done ==> outcome.raised == fault)
            && (fault != Done ==> (temp in left <==> sc.mkstemp == Done && (fault == OtherError || !sc.unlinks)))
            && (fault != Done && temp !in left ==> left == files)
  {
    var draft := Draft(files, temp, content, sc);
    DraftIsTemp(files, temp, content, sc);
    DraftEnds(files, temp, content, sc);
    hide Draft;
    assert draft[|draft|-1] in draft;
    var last := Last(files, draft);
    assert last == files[temp := last[temp]] && last - {temp} == files && files - {temp} == files;
  }

  /** While it is there, only its owner can read the temporary file, and it holds a beginning of the text. */
  lemma TempIsPrivate(files: Files, temp: string, path: string, content: string, sc: Script, s: Files)
    requires temp !in files && temp != path
    requires s in Writing(files, temp, path, content, sc).states && temp in s
    ensures s[temp].mode == 0x180 && s[temp].text <= content
  {
    var draft := Draft(files, temp, content, sc);
    DraftIsBeginning(files, temp, content, sc);
    DraftEnds(files, temp, content, sc);
    hide Draft;
    assert s in draft;
  }

  lemma DraftIsBeginning(files: Files, temp: string, content: string, sc: Script)
    ensures forall s: Files | s in Draft(files, temp, content, sc) ::
              temp in s && s[temp].mode == 0x180 && s[temp].text <= content
  {
    forall i | 0 <= i < |sc.spills| ensures Cut(content, sc.spills[i]) <= content {
    }
  }
}
