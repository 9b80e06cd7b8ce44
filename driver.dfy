/** The command-line driver: argument parsing, the per-file run-or-skip
    decision, and the batch over every file the pattern lists. The file system
    is a map from path to the lines of that file; a path exists when it is a
    key. */
module Driver {
  import opened Wrappers
  import Scanner
  import Paths
  import opened Processor

  /** The outcome of parsing the arguments. */
  datatype CommandLine = SyntaxError | FilePattern(pattern: string)

  /** Exactly one argument is the file pattern; any other count is a syntax error. */
  function Parse(args: seq<string>): (c: CommandLine)
    ensures c.SyntaxError? <==> |args| != 1
    ensures c.FilePattern? ==> [c.pattern] == args
  {
    if |args| != 1 then SyntaxError else FilePattern(args[0])
  }

  /** What the batch did with one listed file. */
  datatype Action = Skipped(input: string) | Processed(input: string)

  /** The file system after a batch, what it did with each file it reached,
      and the message of the error that stopped it, if any. */
  datatype Batch = Batch(disk: map<string, seq<string>>, log: seq<Action>, error: Option<string>)

  /** The message of the exception FileProcessor's constructor throws. */
  function MissingMessage(filename: string): string
  {
    "File does not exist: " + filename
  }

  /** One file: a missing input stops the batch; an existing output skips
      the file; otherwise ffmpeg runs and its CSV is written. */
  function Step(b: Batch, filename: string, outputOf: string -> string,
                tool: string -> seq<Option<string>>): Batch
    requires b.error.None?
  {
    if filename !in b.disk then
      Batch(b.disk, b.log, Some(MissingMessage(filename)))
    else if outputOf(filename) in b.disk then
      Batch(b.disk, b.log + [Skipped(filename)], None)
    else
      Batch(b.disk[outputOf(filename) := Csv(tool(filename))], b.log + [Processed(filename)], None)
  }

  /** The batch over `inputs` in listing order, starting from `disk`.
      `outputOf` names the CSV of an input (the program uses Paths.OutputPath;
      the lemmas below hold for any naming), and `tool` gives the diagnostic
      lines ffmpeg writes for an input. */
  function RunFiles(disk: map<string, seq<string>>, inputs: seq<string>,
                    outputOf: string -> string, tool: string -> seq<Option<string>>): Batch
    decreases |inputs|
  {
    if inputs == [] then Batch(disk, [], None)
    else
      var prev := RunFiles(disk, inputs[..|inputs| - 1], outputOf, tool);
      if prev.error.Some? then prev else Step(prev, inputs[|inputs| - 1], outputOf, tool)
  }

  /** Once a prefix of the listing has failed, the whole batch ends as that prefix did. */
  lemma {:induction false} ErrorIsFinal(disk: map<string, seq<string>>, inputs: seq<string>, k: nat,
                                         outputOf: string -> string, tool: string -> seq<Option<string>>)
    requires k <= |inputs|
    requires RunFiles(disk, inputs[..k], outputOf, tool).error.Some?
    ensures RunFiles(disk, inputs, outputOf, tool) == RunFiles(disk, inputs[..k], outputOf, tool)
    decreases |inputs|
  {
    if k < |inputs| {
      var init := inputs[..|inputs| - 1];
      assert init[..k] == inputs[..k];
      ErrorIsFinal(disk, init, k, outputOf, tool);
    } else {
      assert inputs[..k] == inputs;
    }
  }

  /** The log names the listed files in order; a batch without error reached
      every file, and one with error stopped at an input that did not exist
      before the batch, with the constructor's message. */
  lemma {:induction false} RunLog(disk: map<string, seq<string>>, inputs: seq<string>,
                                  outputOf: string -> string, tool: string -> seq<Option<string>>)
    ensures var r := RunFiles(disk, inputs, outputOf, tool);
            |r.log| <= |inputs| &&
            (forall i :: 0 <= i < |r.log| ==> r.log[i].input == inputs[i]) &&
            (r.error.None? ==> |r.log| == |inputs|) &&
            (r.error.Some? ==> |r.log| < |inputs| && inputs[|r.log|] !in disk &&
                               r.error == Some(MissingMessage(inputs[|r.log|])))
    decreases |inputs|
  {
    if inputs != [] {
      var init := inputs[..|inputs| - 1];
      RunLog(disk, init, outputOf, tool);
      RunKeepsExisting(disk, init, outputOf, tool);
      assert forall i :: 0 <= i < |init| ==> init[i] == inputs[i];
    }
  }

  /** The file system as the batch finds it when it reaches file i of the listing. */
  function DiskBefore(disk: map<string, seq<string>>, inputs: seq<string>, i: nat,
                      outputOf: string -> string, tool: string -> seq<Option<string>>): map<string, seq<string>>
    requires i <= |inputs|
  {
    RunFiles(disk, inputs[..i], outputOf, tool).disk
  }

  /** The log has one entry per file reached: all the files when there is no error. */
  lemma {:induction false} RunLogLength(disk: map<string, seq<string>>, inputs: seq<string>,
                                        outputOf: string -> string, tool: string -> seq<Option<string>>)
    ensures var r := RunFiles(disk, inputs, outputOf, tool);
            |r.log| <= |inputs| && (r.error.None? ==> |r.log| == |inputs|)
    decreases |inputs|
  {
    if inputs != [] {
      RunLogLength(disk, inputs[..|inputs| - 1], outputOf, tool);
    }
  }

  /** Every file the batch handled existed when the batch reached it. */
  lemma {:induction false} RunReachedExisting(disk: map<string, seq<string>>, inputs: seq<string>,
                                              outputOf: string -> string, tool: string -> seq<Option<string>>,
                                              i: nat)
    requires i < |RunFiles(disk, inputs, outputOf, tool).log|
    ensures i < |inputs| && inputs[i] in DiskBefore(disk, inputs, i, outputOf, tool)
    decreases |inputs|
  {
    var last := |inputs| - 1;
    var init := inputs[..last];
    var prev := RunFiles(disk, init, outputOf, tool);
    RunLogLength(disk, init, outputOf, tool);
    assert inputs[..last] == init;
    if i < |prev.log| {
      RunReachedExisting(disk, init, outputOf, tool, i);
      assert inputs[..i] == init[..i];
      assert init[i] == inputs[i];
    }
  }

  /** A batch with error stopped at the first file that was missing when the
      batch reached it: the constructor throws for every missing input. */
  lemma {:induction false} RunStopsAtFirstMissing(disk: map<string, seq<string>>, inputs: seq<string>,
                                                  outputOf: string -> string, tool: string -> seq<Option<string>>)
    requires RunFiles(disk, inputs, outputOf, tool).error.Some?
    ensures var n := |RunFiles(disk, inputs, outputOf, tool).log|;
            n < |inputs| && inputs[n] !in DiskBefore(disk, inputs, n, outputOf, tool)
    decreases |inputs|
  {
    var last := |inputs| - 1;
    var init := inputs[..last];
    var prev := RunFiles(disk, init, outputOf, tool);
    RunLogLength(disk, init, outputOf, tool);
    assert inputs[..last] == init;
    if prev.error.Some? {
      RunStopsAtFirstMissing(disk, init, outputOf, tool);
      var n := |prev.log|;
      assert inputs[..n] == init[..n];
      assert init[n] == inputs[n];
    }
  }

  /** No file that existed before the batch is changed or removed: neither an
      input nor an output that was already there is ever rewritten. */
  lemma {:induction false} RunKeepsExisting(disk: map<string, seq<string>>, inputs: seq<string>,
                                            outputOf: string -> string, tool: string -> seq<Option<string>>)
    ensures var r := RunFiles(disk, inputs, outputOf, tool);
            forall p :: p in disk ==> p in r.disk && r.disk[p] == disk[p]
    decreases |inputs|
  {
    if inputs != [] {
      RunKeepsExisting(disk, inputs[..|inputs| - 1], outputOf, tool);
    }
  }

  /** After a batch without error a path exists exactly when it existed
      before or is the output path of a listed input. */
  lemma {:induction false} RunKeys(disk: map<string, seq<string>>, inputs: seq<string>,
                                   outputOf: string -> string, tool: string -> seq<Option<string>>, p: string)
    requires RunFiles(disk, inputs, outputOf, tool).error.None?
    ensures p in RunFiles(disk, inputs, outputOf, tool).disk <==>
            p in disk || exists i :: 0 <= i < |inputs| && outputOf(inputs[i]) == p
    decreases |inputs|
  {
    if inputs != [] {
      var last := |inputs| - 1;
      var init := inputs[..last];
      var prev, r := RunFiles(disk, init, outputOf, tool), RunFiles(disk, inputs, outputOf, tool);
      assert prev.error.None?;
      assert p in r.disk <==> p in prev.disk || p == outputOf(inputs[last]);
      RunKeys(disk, init, outputOf, tool, p);
      ListedSnoc(inputs, outputOf, p);
    }
  }

  /** p is the output of some listed input exactly when it is the output of an
      input before the last one, or of the last one. */
  lemma ListedSnoc(inputs: seq<string>, outputOf: string -> string, p: string)
    requires inputs != []
    ensures var init, last := inputs[..|inputs| - 1], inputs[|inputs| - 1];
            (exists i :: 0 <= i < |inputs| && outputOf(inputs[i]) == p) <==>
            (exists i :: 0 <= i < |init| && outputOf(init[i]) == p) || outputOf(last) == p
  {
    var init := inputs[..|inputs| - 1];
    if i :| 0 <= i < |init| && outputOf(init[i]) == p {
      assert outputOf(inputs[i]) == p;
    }
    if i :| 0 <= i < |inputs| - 1 && outputOf(inputs[i]) == p {
      assert outputOf(init[i]) == p;
    }
  }

  /** Every file the batch creates is the output of a listed input it
      processed, and holds the header followed by the rows extracted from that
      input's diagnostic lines, in order. */
  lemma {:induction false} RunWritesOutputs(disk: map<string, seq<string>>, inputs: seq<string>,
                                            outputOf: string -> string, tool: string -> seq<Option<string>>,
                                            p: string)
    requires p in RunFiles(disk, inputs, outputOf, tool).disk && p !in disk
    ensures var r := RunFiles(disk, inputs, outputOf, tool);
            exists i :: 0 <= i < |r.log| && i < |inputs| && r.log[i] == Processed(inputs[i]) &&
                        p == outputOf(inputs[i]) && r.disk[p] == Csv(tool(inputs[i]))
    decreases |inputs|
  {
    var last := |inputs| - 1;
    var init := inputs[..last];
    var prev := RunFiles(disk, init, outputOf, tool);
    var r := RunFiles(disk, inputs, outputOf, tool);
    if p in prev.disk {
      RunWritesOutputs(disk, init, outputOf, tool, p);
      var i :| 0 <= i < |prev.log| && i < |init| && prev.log[i] == Processed(init[i]) &&
               p == outputOf(init[i]) && prev.disk[p] == Csv(tool(init[i]));
      if prev.error.None? {
        RunLog(disk, init, outputOf, tool);
        assert r.log[i] == prev.log[i];
      }
      assert init[i] == inputs[i];
    } else {
      RunLog(disk, init, outputOf, tool);
      assert r.log[last] == Processed(inputs[last]);
    }
  }

  /** File i of the listing finds its output present: it existed before the
      batch, or an earlier file of the listing has the same output path. */
  predicate OutputDue(disk: map<string, seq<string>>, inputs: seq<string>,
                      outputOf: string -> string, i: nat)
    requires i < |inputs|
  {
    outputOf(inputs[i]) in disk || exists j :: 0 <= j < i && outputOf(inputs[j]) == outputOf(inputs[i])
  }

  /** OutputDue depends only on the files up to i. */
  lemma OutputDuePrefix(disk: map<string, seq<string>>, inputs: seq<string>, n: nat,
                        outputOf: string -> string, i: nat)
    requires i < n <= |inputs|
    ensures OutputDue(disk, inputs[..n], outputOf, i) == OutputDue(disk, inputs, outputOf, i)
  {
    var pre := inputs[..n];
    assert forall j :: 0 <= j <= i ==> pre[j] == inputs[j];
    if exists j :: 0 <= j < i && outputOf(inputs[j]) == outputOf(inputs[i]) {
      var j :| 0 <= j < i && outputOf(inputs[j]) == outputOf(inputs[i]);
      assert outputOf(pre[j]) == outputOf(pre[i]);
    }
  }

  /** The decision for the last file of a batch whose prefix ran without
      error and whose last input exists. */
  lemma LastDecision(disk: map<string, seq<string>>, inputs: seq<string>,
                     outputOf: string -> string, tool: string -> seq<Option<string>>)
    requires inputs != [] && inputs[|inputs| - 1] in disk
    requires RunFiles(disk, inputs[..|inputs| - 1], outputOf, tool).error.None?
    ensures var r, last := RunFiles(disk, inputs, outputOf, tool), |inputs| - 1;
            r.error.None? &&
            r.log == RunFiles(disk, inputs[..last], outputOf, tool).log +
                     [if OutputDue(disk, inputs, outputOf, last) then Skipped(inputs[last]) else Processed(inputs[last])]
  {
    var last := |inputs| - 1;
    var init := inputs[..last];
    var o := outputOf(inputs[last]);
    var prev := RunFiles(disk, init, outputOf, tool);
    RunKeepsExisting(disk, init, outputOf, tool);
    RunKeys(disk, init, outputOf, tool, o);
    if o in prev.disk && o !in disk {
      var j :| 0 <= j < |init| && outputOf(init[j]) == o;
      assert outputOf(inputs[j]) == o;
    }
    if j :| 0 <= j < last && outputOf(inputs[j]) == o {
      assert outputOf(init[j]) == o;
    }
  }

  /** When every listed input exists, the batch has no error, and file i is
      skipped exactly when its output existed before the batch or an earlier
      file of the listing has the same output path (and so created it);
      otherwise its CSV is written. */
  lemma {:induction false} RunDecisions(disk: map<string, seq<string>>, inputs: seq<string>,
                                        outputOf: string -> string, tool: string -> seq<Option<string>>)
    requires forall i :: 0 <= i < |inputs| ==> inputs[i] in disk
    ensures var r := RunFiles(disk, inputs, outputOf, tool);
            r.error.None? && |r.log| == |inputs| &&
            forall i :: 0 <= i < |inputs| ==>
              r.log[i] == (if OutputDue(disk, inputs, outputOf, i) then Skipped(inputs[i]) else Processed(inputs[i]))
    decreases |inputs|
  {
    if inputs != [] {
      var last := |inputs| - 1;
      var init := inputs[..last];
      forall i | 0 <= i < |init| ensures init[i] in disk {
        assert init[i] == inputs[i];
      }
      RunDecisions(disk, init, outputOf, tool);
      LastDecision(disk, inputs, outputOf, tool);
      var prev, r := RunFiles(disk, init, outputOf, tool), RunFiles(disk, inputs, outputOf, tool);
      assert r.log == prev.log + [r.log[last]];
      forall i | 0 <= i < last
        ensures r.log[i] == (if OutputDue(disk, inputs, outputOf, i) then Skipped(inputs[i]) else Processed(inputs[i]))
      {
        OutputDuePrefix(disk, inputs, last, outputOf, i);
        assert r.log[i] == prev.log[i];
      }
    }
  }

  /** After a batch without error every listed input has its CSV beside it. */
  lemma OutputsAfterRun(disk: map<string, seq<string>>, inputs: seq<string>,
                        outputOf: string -> string, tool: string -> seq<Option<string>>)
    requires forall i :: 0 <= i < |inputs| ==> inputs[i] in disk
    ensures forall i :: 0 <= i < |inputs| ==> outputOf(inputs[i]) in RunFiles(disk, inputs, outputOf, tool).disk
  {
    RunDecisions(disk, inputs, outputOf, tool);
    forall i | 0 <= i < |inputs| ensures outputOf(inputs[i]) in RunFiles(disk, inputs, outputOf, tool).disk {
      RunKeys(disk, inputs, outputOf, tool, outputOf(inputs[i]));
    }
  }

  /** The file system the program runs against. */
  class FileSystem {
    var files: map<string, seq<string>>

    constructor (files: map<string, seq<string>>)
      ensures this.files == files
    {
      this.files := files;
    }
  }

  /** What Main ends with: the usage text, a completed batch, or the printed
      message of the exception that stopped it. */
  datatype Outcome = ShowedSyntax | Completed | Failed(message: string)

  /** The program's command-line state, held in static fields by the source. */
  class Program {
    var syntaxError: bool
    var filePattern: string

    constructor ()
      ensures !syntaxError && filePattern == ""
    {
      syntaxError := false;
      filePattern := "";
    }

    /** Any argument count other than one sets the syntax-error flag and keeps
        the pattern; one argument becomes the pattern. */
    method ParseCommandLine(args: seq<string>)
      modifies this
      ensures Parse(args).SyntaxError? ==> syntaxError && filePattern == old(filePattern)
      ensures Parse(args).FilePattern? ==>
                syntaxError == old(syntaxError) && filePattern == Parse(args).pattern
    {
      if |args| != 1 {
        syntaxError := true;
        return;
      }
      filePattern := args[0];
    }

    /** Handles every listed file in order, as RunFiles describes: skips the
        ones whose output exists, runs ffmpeg and writes the CSV for the
        others, and stops at the first input that does not exist. */
    method ProcessFiles(fsys: FileSystem, inputs: seq<string>, tool: string -> seq<Option<string>>)
      returns (log: seq<Action>, error: Option<string>)
      modifies fsys
      ensures RunFiles(old(fsys.files), inputs, Paths.OutputPath, tool) == Batch(fsys.files, log, error)
    {
      ghost var disk := fsys.files;
      log, error := [], None;
      var n := 0;
      while n < |inputs|
        invariant 0 <= n <= |inputs|
        invariant RunFiles(disk, inputs[..n], Paths.OutputPath, tool) == Batch(fsys.files, log, None)
      {
        var filename := inputs[n];
        assert inputs[..n + 1][..n] == inputs[..n];
        if filename !in fsys.files {
          error := Some(MissingMessage(filename));
          ErrorIsFinal(disk, inputs, n + 1, Paths.OutputPath, tool);
          return;
        }
        var processor := new FileProcessor(filename);
        if processor.OutputExists(fsys.files) {
          log := log + [Skipped(filename)];
        } else {
          processor.ProcessFile(tool(filename));
          fsys.files := fsys.files[processor.outputFilename := processor.output];
          log := log + [Processed(filename)];
        }
        n := n + 1;
      }
      assert inputs[..n] == inputs;
    }

    /** Main: parse the arguments; on a syntax error show the usage text and
        touch nothing, otherwise run the batch over the files `listing` gives
        for the pattern. An exception ends the run with its message. */
    method Run(args: seq<string>, fsys: FileSystem, listing: string -> seq<string>,
               tool: string -> seq<Option<string>>)
      returns (log: seq<Action>, outcome: Outcome)
      modifies this, fsys
      ensures syntaxError == (old(syntaxError) || Parse(args).SyntaxError?)
      ensures syntaxError ==> outcome == ShowedSyntax && log == [] && fsys.files == old(fsys.files)
      ensures !syntaxError ==> [filePattern] == args
      ensures !syntaxError ==>
                var b := RunFiles(old(fsys.files), listing(filePattern), Paths.OutputPath, tool);
                fsys.files == b.disk && log == b.log &&
                outcome == (if b.error.None? then Completed else Failed(b.error.value))
    {
      ParseCommandLine(args);
      if syntaxError {
        log, outcome := [], ShowedSyntax;
      } else {
        var error;
        log, error := ProcessFiles(fsys, listing(filePattern), tool);
        outcome := if error.None? then Completed else Failed(error.value);
      }
    }
  }
}
