# FVDetectScenes, modelled in Dafny

FVDetectScenes is a command-line tool. It takes a file pattern, and for every
matching video file it runs ffmpeg with a scene-change filter. It writes the
presentation timestamps of the detected scene changes to a one-column CSV
named `<name> scenes.csv` beside the video. A video whose CSV already exists
is skipped.

This project models that program and proves properties of it:

- `wrappers.dfy`: `Option`. It stands for a C# string that may be null (a
  diagnostic line), and for an error message that may be absent (`Batch.error`).
- `scanner.dfy` (module `Scanner`): the diagnostic-line handler as pure
  functions.
  - `IndexOf` is the first occurrence of a substring.
  - `NumberEnd` is the maximal run of digits and dots.
  - `Extract` is the timestamp of one line, and `Rows` the rows of a whole
    stream of lines.
  - Lemmas characterise when a line yields a row and what that row is. This
    includes the quirk that a `pts_time:` at index 0 is ignored, together
    with every later marker on that line.
  - `Producing` aids the ordering proofs: it lists the lines that produce
    rows.
- `paths.dfy` (module `Paths`): the derivation of the output path from the
  input path.
  - `FileName`, `DirectoryName`, `FileNameWithoutExtension` and `Combine` are
    modelled on a simple path model.
  - `OutputPath` is the output-path expression of FileProcessor's
    constructor: the input's directory combined with its file name without
    extension plus `" scenes.csv"`.
  - Lemmas prove that the output's file name is the input's stem followed by
    `" scenes.csv"`, that it lies in the input's directory, and that it never
    equals the input.
- `processor.dfy` (module `Processor`): class `FileProcessor`.
  - Its `output` field is the sequence of lines written to the CSV writer.
  - `OutputExists` is the `OutputExists` property: the output path is a key
    of the file system map.
  - `ErrorDataReceived` is the handler with its scan loop, proved against
    `Scanner.RowOf`.
  - `ProcessFile` writes the header and feeds every line to the handler. It
    is proved to produce `Csv(lines)`, which is `"seconds"` followed by
    `Scanner.Rows(lines)`.
- `driver.dfy` (module `Driver`): the command line and the batch.
  - `Parse` and `Program.ParseCommandLine` handle the command line.
  - `RunFiles` specifies the batch over a file system given as a map from
    path to lines, where a path exists when it is a key.
  - `Step` is the decision for one file. A missing input raises the
    constructor's error. An existing output skips the file. Otherwise the
    file's CSV is written.
  - `Program.ProcessFiles` is the loop, proved equal to `RunFiles`, and
    `Program.Run` is `Main`.
  - Lemmas about `RunFiles` state that:
    - the batch stops at the first file that is missing when the batch
      reaches it, with the constructor's message;
    - existing files are never changed;
    - the set of paths after the batch is known;
    - every new file is the CSV of a processed input;
    - a file is skipped exactly when its output existed before, or an earlier
      file of the listing has the same output.

The running of ffmpeg is a function parameter, `tool`, which gives the
diagnostic lines ffmpeg writes for an input. The listing of the files that
match a pattern is also a parameter, `listing`.

The program's command line and its timestamp scan are narrower than one might expect:

- No help flags exist.
- No `-sceneThreshold` option exists: the threshold is the constant "0.4".
- Any count other than exactly one argument is a syntax error.
- The timestamp scan accepts any run of digits and dots. It does not look for
  a number with at most one decimal point: "1.2.3" and the empty string are
  both written as rows.

## Model

| member | source | states |
|---|---|---|
| Scanner.IndexFrom | Program.cs:139 | the result is -1 exactly when the pattern does not occur at or after `from`; otherwise it is an occurrence, and no earlier occurrence from `from` exists |
| Scanner.IndexOf | Program.cs:139 | -1 exactly when the marker occurs nowhere; otherwise the index of its first occurrence |
| Scanner.NumberEnd | Program.cs:143-145 | the scan from `anchor` stops at the end of the line or at the first character that is neither a digit nor '.', and every character passed over is a digit or '.' |
| Scanner.NumberEndUnique | Program.cs:144 | any index that ends a maximal digit-or-dot run from `from` is that run's end, so the loop's stopping point is determined |
| Scanner.Extract | Program.cs:133-145 | a null or empty line gives no row, and any row is made only of digits and dots |
| Scanner.ExtractYieldsRow | Program.cs:139-140 | a line yields a row if and only if the marker occurs in it and not at index 0 |
| Scanner.ExtractRow | Program.cs:139-145 | with the first marker at k > 0, the row is the text right after the marker, made of digits and dots, and ending at the end of the line or before a character that is neither |
| Scanner.MarkerAtStartIgnored | Program.cs:139-140 | a marker at index 0 means no row, whatever markers follow |
| Scanner.FirstMarkerAt | Program.cs:139 | a marker with no 'p' before it is the one IndexOf finds |
| Scanner.ExtractShowinfoExample | Program.cs:139-145 | "n:3 pts_time:12.345 pos:9" yields the row "12.345" |
| Scanner.ExtractEmptyRowExample | Program.cs:144-145 | "x pts_time:N/A" yields an empty row |
| Scanner.MarkerAtStartExample | Program.cs:139-140 | "pts_time:1.5 pts_time:2.5" yields no row |
| Scanner.Rows | Program.cs:144-146 | a stream yields at most one row per line, and every row consists of digits and dots |
| Scanner.RowsAppend | Program.cs:146 | the rows of two consecutive batches of lines are the rows of the first followed by those of the second |
| Scanner.ProducingMatchesRows | Program.cs:146 | the m-th row is the timestamp of the m-th line that yields one |
| Scanner.ProducingInOrder | Program.cs:146 | the lines that yield rows are listed in strictly increasing order, and every such line is listed, so rows keep arrival order and none is dropped |
| Paths.LastSeparatorBefore | Program.cs:93 | the index of the last '\' or '/' before n, or -1 when there is none |
| Paths.LastDotBefore | Program.cs:94 | the index of the last '.' before n, or -1 when there is none |
| Paths.SplitPath | Program.cs:93-94 | a path is its directory, one separator and its file name; the file name has no separator; a path without separator has an empty directory |
| Paths.ExtensionSplit | Program.cs:94 | the name without extension is a prefix of the file name; it is the whole name when the name has no '.', otherwise it ends at the last '.' |
| Paths.NoSeparatorConcat | Program.cs:94 | joining two separator-free strings gives a separator-free string |
| Paths.CombineSplits | Program.cs:92-94 | the file name of a combined path is the joined name, and its directory is the given directory when that does not end in a separator |
| Paths.OutputNameHasNoSeparator | Program.cs:80-94 | the stem plus " scenes.csv" has no separator |
| Paths.OutputFileName | Program.cs:80-94 | the output's file name is the input's name without extension followed by " scenes.csv", so the output path ends in " scenes.csv" |
| Paths.OutputBesideInput | Program.cs:92-94 | the output lies in the input's directory |
| Paths.OutputIsNotInput | Program.cs:80-94 | the output path, and even its file name, differ from the input's, so no input is overwritten by its own CSV |
| Processor.FileProcessor.constructor | Program.cs:86-95 | records the input and sets the output path to the combination of the input's directory and its stem plus " scenes.csv" |
| Processor.FileProcessor.ProcessFile | Program.cs:105-131 | the writer ends holding the header "seconds" followed by the rows of the diagnostic lines, in order |
| Processor.FileProcessor.ErrorDataReceived | Program.cs:133-153 | the handler appends exactly the row Scanner.RowOf gives for the line (none, or the scanned timestamp) and nothing else |
| Driver.Parse | Program.cs:43-52 | a syntax error if and only if the argument count is not one; otherwise the single argument is the pattern |
| Driver.ErrorIsFinal | Program.cs:61-90 | once a file's constructor throws, the rest of the listing is not reached |
| Driver.RunLog | Program.cs:61-90 | the files handled are a prefix of the listing, in order; without error every listed file is handled; an error stops the batch at a file that did not exist before the batch, with the message "File does not exist: <file>" |
| Driver.RunLogLength | Program.cs:61-72 | the log has at most one entry per listed file, and one for every file when there is no error |
| Driver.RunReachedExisting | Program.cs:61-90 | every file the batch handled existed when the batch reached it |
| Driver.RunStopsAtFirstMissing | Program.cs:61-90 | a batch with error stopped at the first file missing when the batch reached it: the file after the last one handled |
| Driver.RunKeepsExisting | Program.cs:64-101 | every file present before the batch is still present with its contents unchanged |
| Driver.RunKeys | Program.cs:61-110 | after a batch without error a path exists if and only if it existed before or is the output of a listed input |
| Driver.ListedSnoc | Program.cs:61 | a path is the output of a listed input if and only if it is the output of an earlier input or of the last one |
| Driver.RunWritesOutputs | Program.cs:63-112 | every path the batch creates is the output of an input it processed, and holds the header followed by that input's rows |
| Driver.OutputDuePrefix | Program.cs:64 | whether file i finds its output present depends only on the files up to i |
| Driver.LastDecision | Program.cs:63-70 | the last file is skipped exactly when its output existed before or was made by an earlier file, and processed otherwise |
| Driver.RunDecisions | Program.cs:61-72 | when every listed input exists, no error occurs, and each file is skipped exactly when its output existed before or an earlier file has the same output path, and processed otherwise |
| Driver.OutputsAfterRun | Program.cs:61-72 | when every listed input exists, every listed input has its CSV afterwards, written now or found already present |
| Driver.FileSystem.constructor | Program.cs:89 | the file system holds the given files |
| Driver.Program.constructor | Program.cs:18-19 | the syntax-error flag starts false and the pattern empty |
| Driver.Program.ParseCommandLine | Program.cs:43-52 | a wrong argument count sets the syntax-error flag and leaves the pattern; one argument becomes the pattern and the flag is left as it was |
| Driver.Program.ProcessFiles | Program.cs:54-73 | the batch loop ends with the file system, log and error that RunFiles specifies for the listing |
| Driver.Program.Run | Program.cs:21-41 | a syntax error shows the usage and touches nothing; otherwise the file system and log are those of RunFiles over the listed files, and the outcome is completion or the exception's message |

## Left out

- Launching ffmpeg (Program.cs:114-128) is left out. Its command line, the
  threshold "0.4" (Program.cs:79) and any failure to start it are not
  modelled. What it writes to standard error is the parameter `tool`, a
  function from the input path to the sequence of lines.
- Asynchronous delivery of the lines (Program.cs:124-127) is modelled as
  handling the lines one after another in arrival order.
- The directory and pattern computation and the listing (Program.cs:56-61)
  are left out: `Path.GetFullPath`, `Environment.CurrentDirectory` and
  `Directory.GetFiles` with wildcards. The listing is the parameter
  `listing`, from the pattern to the file paths.
- Console output and the final prompt (Program.cs:28, 37, 40, 66, 107-108,
  136-137, 149-151) are not modelled. `Run` returns an `Outcome` that records
  whether the usage text was shown, the batch completed, or an exception's
  message was printed.
- The writer's encoding, `Flush`, and the line terminators (Program.cs:110,
  147) are not modelled: a file is the sequence of its lines. Truncation on
  open is not observable either, because a file is only written when its
  output did not exist.
- `char.IsDigit` (Program.cs:144) is modelled as the ASCII digits '0' to '9'.
  The source also accepts other Unicode decimal digits.
- `String.IndexOf(string)` (Program.cs:139) is culture-sensitive in .NET. It
  is modelled as an ordinal, character-by-character search. For the ASCII
  marker this makes a difference only for special characters such as
  ignorable code points.
- The path functions follow a simple model with '\' and '/' as separators.
  It has no drive letters, UNC or rooted paths, no separator normalisation,
  and no null result of `Path.GetDirectoryName` for a root. Path.Combine's
  special case of a rooted second argument is also left out. It cannot
  arise here. That argument is the stem of a listed file's name followed by
  " scenes.csv": it has no separator, and it has no ':', because Windows file
  names cannot contain one, so it has no drive prefix either.
- Paths.OutputBesideInput: stated only for inputs whose directory does not
  end in a separator itself. In this model such a directory comes from a
  doubled separator: `d\\m.mp4` has the directory `d\`. .NET would collapse
  the repeated separator, and that normalisation is not modelled.
- Paths are compared as exact strings. The file system is a map keyed by
  the path string, so "the file exists" (`File.Exists`, Program.cs:89 and
  101) means the string is a key. On Windows, paths are compared
  case-insensitively and up to repeated separators. For example, after
  `d\M.mp4` is processed, the source skips `d\m.mkv`, because
  `d\m scenes.csv` names the same file as `d\M scenes.csv`. The model
  processes both and writes two CSVs.
- Driver.RunDecisions: "an earlier file has the same output path" means the
  same string, not the same Windows file, and likewise "the output existed
  before".
- Driver.LastDecision: the same exact-string reading of "the output exists".
- Driver.RunKeys: a path exists afterwards when its exact string existed
  before or is an exact output string.
- Driver.OutputsAfterRun: the CSV found afterwards is the one keyed by the
  exact output string.
- The static fields `s_clSyntaxError` and `s_clFilePattern` are modelled as
  fields of a `Program` object. The initial null pattern is modelled as "".
- Driver.Program.ProcessFiles: the check that FileProcessor's constructor
  makes, and the exception it throws for a missing input, are made just
  before the object is created. The observable effect is the same: the batch
  stops with that message, and files handled earlier keep their CSVs.
- Exceptions other than the missing-input one are left out, for example I/O
  errors while writing the CSV.
