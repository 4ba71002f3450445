/** scripts/bulkRenameMovies.py: renames the entries of a movie folder by an
    instruction file whose every line is `old name; new name`. */
module BulkRenameMovies {
  import opened Wrappers
  import opened PyStr

  // ---------------------------------------------------------------- the instruction file

  /** The length of the line starting at i: up to and including the next
      '\n', or to the end of the text. */
  function LineEnd(text: string, i: int): (r: int)
    requires 0 <= i < |text|
    ensures i < r <= |text|
    ensures forall k :: i <= k < r - 1 ==> text[k] != '\n'
    ensures r < |text| ==> text[r - 1] == '\n'
    decreases |text| - i
  {
    if text[i] == '\n' || i == |text| - 1 then i + 1 else LineEnd(text, i + 1)
  }

  /** The lines `for l in f` yields: each keeps its '\n', and only the last
      may lack one. */
  function FileLines(text: string): (r: seq<string>)
    ensures forall k :: 0 <= k < |r| ==> |r[k]| > 0 && '\n' !in r[k][..|r[k]| - 1]
    ensures forall k :: 0 <= k < |r| - 1 ==> r[k][|r[k]| - 1] == '\n'
    decreases |text|
  {
    if text == [] then []
    else
      var n := LineEnd(text, 0);
      assert forall k :: 0 <= k < n - 1 ==> text[..n][..n - 1][k] == text[k];
      [text[..n]] + FileLines(text[n..])
  }

  function Concat(lines: seq<string>): string
    decreases |lines|
  {
    if lines == [] then "" else lines[0] + Concat(lines[1..])
  }

  /** The lines put back together are the file. */
  lemma {:induction false} FileLinesConcat(text: string)
    ensures Concat(FileLines(text)) == text
    decreases |text|
  {
    if text != [] {
      var n := LineEnd(text, 0);
      FileLinesConcat(text[n..]);
      assert ([text[..n]] + FileLines(text[n..]))[1..] == FileLines(text[n..]);
      assert text[..n] + text[n..] == text;
    }
  }

  /** One instruction line: split on ';', exactly two parts, each stripped
      of surrounding whitespace and the newline. */
  function Instruction(line: string): Result<(string, string)>
  {
    var parts := Split(line, ';');
    if |parts| != 2 then Err("Improperly formatted movie_rename_instruction_file.  Each line should be of the format: oldname; newname")
    else Ok((Strip(parts[0]), Strip(parts[1])))
  }

  /** A line is an instruction exactly when it holds one semicolon. */
  lemma InstructionIff(line: string)
    ensures Instruction(line).Ok? <==> multiset(line)[';'] == 1
  {
    SplitCount(line, ';');
  }

  /** The first error among the results, or all their values in order. */
  function Collect<T>(rs: seq<Result<T>>): Result<seq<T>>
    decreases |rs|
  {
    if rs == [] then Ok([])
    else if rs[0].Err? then Err(rs[0].error)
    else
      var rest := Collect(rs[1..]);
      if rest.Err? then rest else Ok([rs[0].value] + rest.value)
  }

  /** Collecting succeeds exactly when every result does, and then gives
      their values one for one, in order. */
  lemma {:induction false} CollectInOrder<T>(rs: seq<Result<T>>)
    ensures Collect(rs).Ok? <==> forall k :: 0 <= k < |rs| ==> rs[k].Ok?
    ensures Collect(rs).Ok? ==>
      |Collect(rs).value| == |rs| && forall k :: 0 <= k < |rs| ==> rs[k].Ok? && Collect(rs).value[k] == rs[k].value
    decreases |rs|
  {
    if rs != [] {
      CollectInOrder(rs[1..]);
      assert forall k :: 1 <= k < |rs| ==> rs[1..][k - 1] == rs[k];
    }
  }

  /** Each line read as an instruction. */
  function Parsed(lines: seq<string>): (r: seq<Result<(string, string)>>)
    ensures |r| == |lines| && forall k :: 0 <= k < |lines| ==> r[k] == Instruction(lines[k])
  {
    seq(|lines|, k requires 0 <= k < |lines| => Instruction(lines[k]))
  }

  /** `read_instructions` on the lines of the file: the loop raises at the
      first line that is not an instruction. */
  function Instructions(lines: seq<string>): Result<seq<(string, string)>>
  {
    Collect(Parsed(lines))
  }

  /** Reading succeeds exactly when every line is an instruction, and then
      gives one instruction per line, in file order. */
  lemma InstructionsInOrder(lines: seq<string>)
    ensures Instructions(lines).Ok? <==> forall k :: 0 <= k < |lines| ==> Instruction(lines[k]).Ok?
    ensures Instructions(lines).Ok? ==>
      |Instructions(lines).value| == |lines|
      && forall k :: 0 <= k < |lines| ==> Instruction(lines[k]).Ok? && Instructions(lines).value[k] == Instruction(lines[k]).value
  {
    CollectInOrder(Parsed(lines));
  }

  /** Reading succeeds exactly when every line holds one semicolon. */
  lemma InstructionsOkIff(lines: seq<string>)
    ensures Instructions(lines).Ok? <==> forall k :: 0 <= k < |lines| ==> multiset(lines[k])[';'] == 1
  {
    InstructionsInOrder(lines);
    forall k | 0 <= k < |lines| {
      InstructionIff(lines[k]);
    }
  }

  /** `read_instructions(instruction_file)`, given the file's text. */
  method ReadInstructions(text: string) returns (r: Result<seq<(string, string)>>)
    ensures r == Instructions(FileLines(text))
  {
    var lines := FileLines(text);
    ghost var parsed := Parsed(lines);
    var toReturn: seq<(string, string)> := [];
    assert Prepend(toReturn, Collect(parsed)) == Collect(parsed) by {
      if Collect(parsed).Ok? {
        assert toReturn + Collect(parsed).value == Collect(parsed).value;
      }
    }
    for k := 0 to |lines|
      invariant Collect(parsed) == Prepend(toReturn, Collect(parsed[k..]))
    {
      assert parsed[k..][1..] == parsed[k + 1..];
      var splitLine := Instruction(lines[k]);
      assert parsed[k..][0] == splitLine;
      if splitLine.Err? {
        return Err(splitLine.error);
      }
      PrependAppend(toReturn, splitLine.value, Collect(parsed[k + 1..]));
      toReturn := toReturn + [splitLine.value];
    }
    assert parsed[|lines|..] == [];
    assert toReturn + [] == toReturn;
    r := Ok(toReturn);
  }

  /** What the loop has read, before what is still to be read. */
  function Prepend(done: seq<(string, string)>, rest: Result<seq<(string, string)>>): Result<seq<(string, string)>>
  {
    if rest.Err? then rest else Ok(done + rest.value)
  }

  lemma PrependAppend(done: seq<(string, string)>, x: (string, string), rest: Result<seq<(string, string)>>)
    ensures Prepend(done, if rest.Err? then rest else Ok([x] + rest.value)) == Prepend(done + [x], rest)
  {
    if rest.Ok? {
      assert done + ([x] + rest.value) == (done + [x]) + rest.value;
    }
  }

  // ---------------------------------------------------------------- process_args

  /** `process_args(args)`: the instruction file and the movie folder when
      there are exactly two arguments after the script name, the first a
      file and the second a directory. */
  function ProcessArgs(args: seq<string>, isFile: string -> bool, isDir: string -> bool): (r: Option<(string, string)>)
    ensures r.Some? <==> |args| == 3 && isFile(args[1]) && isDir(args[2])
    ensures r.Some? ==> r.value == (args[1], args[2])
  {
    if |args| != 3 then None
    else if !isFile(args[1]) then None
    else if !isDir(args[2]) then None
    else Some((args[1], args[2]))
  }

  // ---------------------------------------------------------------- main

  /** The movie folder: the names it holds. */
  class MovieDirectory {
    var entries: set<string>

    constructor(entries: set<string>)
      ensures this.entries == entries
    {
      this.entries := entries;
    }

    /** `shutil.move(src, dst)` inside the folder: it fails when there is no
        `src`. */
    method Move(src: string, dst: string) returns (ok: bool)
      modifies this
      ensures (entries, ok) == Moved(old(entries), src, dst)
    {
      if src !in entries {
        return false;
      }
      entries := entries - {src} + {dst};
      ok := true;
    }
  }

  function Moved(entries: set<string>, src: string, dst: string): (set<string>, bool)
  {
    if src !in entries then (entries, false) else (entries - {src} + {dst}, true)
  }

  /** The rename loop over the first instructions: the folder after them,
      and whether all of them succeeded. A failure does not stop the loop. */
  function Renamed(entries: set<string>, ins: seq<(string, string)>): (set<string>, bool)
    decreases |ins|
  {
    if ins == [] then (entries, true)
    else
      var before := Renamed(entries, ins[..|ins| - 1]);
      var after := Moved(before.0, ins[|ins| - 1].0, ins[|ins| - 1].1);
      (after.0, before.1 && after.1)
  }

  /** Every instruction is attempted: the renames of a list are those of
      its first part and then those of the rest, from where the first part
      left the folder, whether or not the first part had a failure. */
  lemma {:induction false} RenamedCompose(entries: set<string>, a: seq<(string, string)>, b: seq<(string, string)>)
    ensures var first := Renamed(entries, a);
      var second := Renamed(first.0, b);
      Renamed(entries, a + b) == (second.0, first.1 && second.1)
    decreases |b|
  {
    if b == [] {
      assert a + b == a;
    } else {
      var init := b[..|b| - 1];
      RenamedCompose(entries, a, init);
      assert (a + b)[..|a + b| - 1] == a + init;
      assert (a + b)[|a + b| - 1] == b[|b| - 1];
    }
  }

  /** Renames of names that are there, to names not used by any other
      instruction, all succeed, and the folder then holds the new names in
      place of the old. */
  lemma {:induction false} RenamedAllPresent(entries: set<string>, ins: seq<(string, string)>)
    requires forall k :: 0 <= k < |ins| ==> ins[k].0 in entries
    requires forall j, k :: 0 <= j < |ins| && 0 <= k < |ins| ==> ins[j].1 != ins[k].0
    requires forall j, k :: 0 <= j < k < |ins| ==> ins[j].0 != ins[k].0
    ensures Renamed(entries, ins).1
    ensures Renamed(entries, ins).0 == (entries - (set k | 0 <= k < |ins| :: ins[k].0))
                                       + (set k | 0 <= k < |ins| :: ins[k].1)
    decreases |ins|
  {
    if ins != [] {
      var init := ins[..|ins| - 1];
      var x := ins[|ins| - 1];
      RenamedAllPresent(entries, init);
      var before := Renamed(entries, init).0;
      var olds := set k | 0 <= k < |init| :: init[k].0;
      var news := set k | 0 <= k < |init| :: init[k].1;
      assert x.0 !in olds && x.0 !in news by {
        assert forall k :: 0 <= k < |init| ==> init[k].0 != x.0 && init[k].1 != x.0;
      }
      RenameStepSets(entries, olds, news, x.0, x.1);
      SnocSets(ins);
    }
  }

  /** One more rename, of a name that is neither among the old names nor the
      new ones so far. */
  lemma RenameStepSets(entries: set<string>, olds: set<string>, news: set<string>, src: string, dst: string)
    requires src in entries && src !in olds && src !in news
    ensures src in (entries - olds) + news
    ensures (entries - olds) + news - {src} + {dst} == (entries - (olds + {src})) + (news + {dst})
  {
  }

  /** The old and the new names of a list are those of its first part and
      of its last instruction. */
  lemma SnocSets(ins: seq<(string, string)>)
    requires ins != []
    ensures var init := ins[..|ins| - 1];
      && (set k | 0 <= k < |ins| :: ins[k].0) == (set k | 0 <= k < |init| :: init[k].0) + {ins[|ins| - 1].0}
      && (set k | 0 <= k < |ins| :: ins[k].1) == (set k | 0 <= k < |init| :: init[k].1) + {ins[|ins| - 1].1}
  {
  }

  /** The rename loop of `main`. */
  method RenameAll(dir: MovieDirectory, ins: seq<(string, string)>) returns (allRenamesSucceeded: bool)
    modifies dir
    ensures (dir.entries, allRenamesSucceeded) == Renamed(old(dir.entries), ins)
  {
    allRenamesSucceeded := true;
    for k := 0 to |ins|
      invariant (dir.entries, allRenamesSucceeded) == Renamed(old(dir.entries), ins[..k])
    {
      assert ins[..k + 1][..k] == ins[..k];
      var (src, dst) := ins[k];
      var ok := dir.Move(src, dst);
      if !ok {
        allRenamesSucceeded := false;
      }
    }
    assert ins[..|ins|] == ins;
  }

  /** How `main` ends: an exit code, or the exception reading the
      instructions raises. */
  datatype Exit = Code(code: int) | Raised(message: string)

  /** `main(args)`, given the file and directory tests, the instruction
      file's text and the movie folder: 1 for bad arguments, 0 when every
      rename succeeded and 2 otherwise. */
  method BulkRename(args: seq<string>, isFile: string -> bool, isDir: string -> bool, text: string, dir: MovieDirectory)
    returns (r: Exit)
    modifies dir
    ensures ProcessArgs(args, isFile, isDir).None? ==> r == Code(1) && dir.entries == old(dir.entries)
    ensures ProcessArgs(args, isFile, isDir).Some? && Instructions(FileLines(text)).Err? ==>
      r == Raised(Instructions(FileLines(text)).error) && dir.entries == old(dir.entries)
    ensures ProcessArgs(args, isFile, isDir).Some? && Instructions(FileLines(text)).Ok? ==>
      var (entries, all) := Renamed(old(dir.entries), Instructions(FileLines(text)).value);
      dir.entries == entries && r == Code(if all then 0 else 2)
  {
    var files := ProcessArgs(args, isFile, isDir);
    if files.None? {
      return Code(1);
    }
    var instructions := ReadInstructions(text);
    if instructions.Err? {
      return Raised(instructions.error);
    }
    var allRenamesSucceeded := RenameAll(dir, instructions.value);
    if allRenamesSucceeded {
      return Code(0);
    }
    return Code(2);
  }
}
