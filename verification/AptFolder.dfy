/** The directory converter, files/apt-srctools/apt-src-convert-dir.ts: every source file is
    parsed, printed in the other format, read back, compared, and only then replaced. */
module AptFolder {
  import opened Wrappers
  import opened Text
  import opened AptModel
  import AptConvert
  import AptList
  import opened FolderRun

  // ---------------------------------------------------------------- one conversion

  function ParseSource(t: Target, text: string): Parsed {
    if t.Deb822? then ClassicEntries(text) else Deb822Entries(text)
  }

  function ParseTarget(t: Target, text: string): Parsed {
    if t.Deb822? then Deb822Entries(text) else ClassicEntries(text)
  }

  function Emit(t: Target, json: seq<Entry>): Result<string, EmitError> {
    if t.Deb822? then Deb822Text(json) else ClassicText(json)
  }

  /** Both texts parse, and apt makes the same of them. */
  predicate Equivalent(t: Target, source: string, printed: string) {
    && ParseSource(t, source).Ok? && ParseTarget(t, printed).Ok?
    && SameUnits(ParseSource(t, source).value, ParseTarget(t, printed).value)
  }

  /** The emitted text, once it is known to read back with the same meaning. */
  function Convert(t: Target, text: string): (out: Option<string>)
    ensures out.Some? ==> Equivalent(t, text, out.value)
  {
    var json := ParseSource(t, text);
    if json.Err? then None
    else
      match Emit(t, json.value)
      case Err(_) => None
      case Ok(printed) =>
        var again := ParseTarget(t, printed);
        if again.Ok? && SameUnits(json.value, again.value) then Some(printed) else None
  }

  /** The gate is that of AptConvert towards deb822, and that of AptList towards classic. */
  lemma ConvertGate(text: string)
    ensures Convert(Deb822, text).Some? <==> ClassicEntries(text).Ok? && AptConvert.GateAccepts(ClassicEntries(text).value)
    ensures Convert(Classic, text).Some? <==> Deb822Entries(text).Ok? && AptList.ListAccepts(Deb822Entries(text).value)
  {
    hide ClassicEntries; hide Deb822Text; hide Deb822Entries; hide ClassicText; hide SameUnits;
  }

  // ------------------------------------------------------------------- the program

  datatype Options = Options(target: Target, dir: string, out: Option<string>, dryRun: bool, force: bool)

  /** An empty `--out` counts as none. */
  function GivenOut(out: Option<string>): Option<string> {
    if out == Some("") then None else out
  }

  /** The run that the options ask for. */
  function JobOf(o: Options): Job {
    Job(o.target, o.dir, GivenOut(o.out), o.dryRun, o.force, text => Convert(o.target, text), (a, b) => Equivalent(o.target, a, b))
  }

  /** The program, with the disk as its state. */
  class Converter {
    var tree: Tree
    const options: Options

    constructor (tree: Tree, options: Options)
      ensures this.tree == tree && this.options == options
    {
      this.tree := tree;
      this.options := options;
    }

    /** The body of the loop. */
    method ConvertEntry(name: string, calls: Calls) returns (failed: bool, stopped: bool)
      modifies this`tree
      ensures Outcome(tree, failed, stopped) == Visit(old(tree), JobOf(options), name, calls)
    {
      hide Convert; hide WriteFile; hide ReadFile;
      failed, stopped := false, false;
      var job := JobOf(options);
      if !EndsWith(name, SourceExt(options.target)) {
        return;
      }
      var path := Path(job, name);
      if !calls.lstat || path !in tree {
        return true, false;
      }
      if tree[path].Link? {
        return;
      }
      if !calls.read || !tree[path].Plain? {
        return true, false;
      }
      var out := Convert(options.target, tree[path].text);
      if out.None? {
        return true, false;
      }
      var dest := Dest(job, name);
      if calls.readDest {
        var existing := ReadFile(tree, dest);
        if existing.Some? {
          if existing.value != out.value && !options.force {
            return true, false;
          }
          if existing.value == out.value && job.out.None? {
            if !options.dryRun {
              var removed := Remove(path, calls.rm);
              return !removed, !removed;
            }
            return;
          }
        }
      }
      if options.dryRun {
        return;
      }
      if job.out.Some? && !calls.mkdir {
        return true, false;
      }
      var (next, done) := WriteFile(tree, dest, out.value, calls.write);
      tree := next;
      if !done {
        return true, false;
      }
      if job.out.None? {
        var removed := Remove(path, calls.rm);
        return !removed, false;
      }
    }

    method Remove(path: string, granted: bool) returns (removed: bool)
      modifies this`tree
      ensures removed == (granted && path in old(tree))
      ensures tree == if removed then old(tree) - {path} else old(tree)
    {
      removed := granted && path in tree;
      if removed {
        tree := tree - {path};
      }
    }

    /** `main`: the exit code is 1 when any entry failed. */
    method ConvertAll(names: seq<string>, calls: seq<Calls>) returns (code: nat)
      requires |calls| == |names|
      modifies this`tree
      ensures tree == VisitAll(old(tree), JobOf(options), names, calls).0
      ensures code == if VisitAll(old(tree), JobOf(options), names, calls).1 > 0 then 1 else 0
    {
      hide Visit;
      var failures := 0;
      var i := 0;
      assert names[0..] == names && calls[0..] == calls;
      while i < |names|
        invariant 0 <= i <= |names|
        invariant VisitAll(old(tree), JobOf(options), names, calls).0 == VisitAll(tree, JobOf(options), names[i..], calls[i..]).0
        invariant VisitAll(old(tree), JobOf(options), names, calls).1 == failures + VisitAll(tree, JobOf(options), names[i..], calls[i..]).1
      {
        assert names[i..][1..] == names[i + 1..] && calls[i..][1..] == calls[i + 1..];
        var failed, stopped := ConvertEntry(names[i], calls[i]);
        if stopped {
          return 1;
        }
        if failed {
          failures := failures + 1;
        }
        i := i + 1;
      }
      return if failures > 0 then 1 else 0;
    }
  }

  // ------------------------------------------------------------ nothing gets lost

  lemma JobSound(o: Options)
    ensures Sound(JobOf(o))
  {
    hide Equivalent; hide Convert;
    forall text | JobOf(o).convert(text).Some? ensures Convert(o.target, text).Some? && Equivalent(o.target, text, Convert(o.target, text).value) {
    }
  }

  /** Whatever fails, forced or not, in place or not: in a directory whose destinations are apart,
      every listed source file stands unchanged at the end, or its destination reads as a text
      apt takes alike. */
  lemma NothingLost(tree: Tree, o: Options, names: seq<string>, calls: seq<Calls>, name: string)
    requires |calls| == |names| && Apart(tree, JobOf(o), names) && Source(tree, JobOf(o), name) && name in names
    ensures Secure(tree, VisitAll(tree, JobOf(o), names, calls).0, JobOf(o), name)
  {
    hide Apart; hide Source; hide VisitAll; hide Secure; hide Convert; hide Equivalent; hide Sound;
    JobSound(o);
    FolderRun.NothingLost(tree, JobOf(o), names, calls, name);
  }

  /** The converter is done with the directory when it exits with 0: every listed source that is
      a plain file is gone, and its destination reads as a text apt takes alike. */
  lemma ExitZeroConverts(tree: Tree, o: Options, names: seq<string>, calls: seq<Calls>, name: string)
    requires |calls| == |names| && Apart(tree, JobOf(o), names) && Distinct(names) && !o.dryRun && (o.out.None? || o.out == Some(""))
    requires Source(tree, JobOf(o), name) && name in names && VisitAll(tree, JobOf(o), names, calls).1 == 0
    ensures Converted(tree, VisitAll(tree, JobOf(o), names, calls).0, JobOf(o), name)
  {
    hide Apart; hide Source; hide VisitAll; hide Converted; hide Distinct; hide Convert; hide Equivalent; hide Sound;
    JobSound(o);
    FolderRun.ExitZeroConverts(tree, JobOf(o), names, calls, name);
  }

  /** No text means the same as an open bracket: neither parser takes it. */
  lemma JunkRefused(o: Options)
    ensures Meaningless(JobOf(o), "[")
  {
    hide ParseTarget; hide ParseSource; hide Convert; hide SameUnits;
    OpenBracket(o.target);
    forall text ensures !Equivalent(o.target, text, "[") {
    }
  }

  lemma OpenBracket(t: Target)
    ensures ParseTarget(t, "[").Err?
  {
    hide ParseStanzas; hide ParseClassicLines; hide Split;
    SplitWhole("[", '\n');
    match t {
      case Deb822 => OpenStanza();
      case Classic => OpenLine();
    }
  }

  lemma OpenStanza()
    ensures ParseStanzas(["["], [], 1, 0).Err?
  {
    hide Flush; hide OneLine;
    assert "["[0] == '[' && KeyLength("[") == 0;
  }

  lemma OpenLine()
    ensures ParseClassicLines(["["], 1).Err?
  {
    hide ParseActive; hide Active;
    assert "["[0] == '[' && Find("[", ']') == 1;
    assert ParseClassicLine("[").Err?;
  }

  /** A run can lose nothing, whatever fails, exactly when the destinations are apart; and where no
      file means what an empty one does, writes that only empty a file are enough to lose one. */
  lemma LossExactly(tree: Tree, o: Options, names: seq<string>)
    requires Listing(tree, JobOf(o), names)
    ensures Apart(tree, JobOf(o), names) <==> AlwaysSafe(tree, JobOf(o), names, false)
    ensures Telling(tree, JobOf(o), names) ==> (Apart(tree, JobOf(o), names) <==> AlwaysSafe(tree, JobOf(o), names, true))
  {
    hide Apart; hide Listing; hide AlwaysSafe; hide Telling; hide Convert; hide Equivalent; hide Sound; hide Meaningless;
    JobSound(o);
    JunkRefused(o);
    FolderRun.LossExactly(tree, JobOf(o), names, "[");
  }
}
