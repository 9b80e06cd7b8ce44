/** FileProcessor: one input video, the CSV derived from it, and the handler
    that turns ffmpeg's diagnostic lines into CSV rows. */
module Processor {
  import opened Wrappers
  import Scanner
  import Paths

  /** The CSV's one-column header line. */
  const Header: string := "seconds"

  /** The lines of the CSV written for a file whose diagnostic stream was `lines`. */
  function Csv(lines: seq<Option<string>>): seq<string>
  {
    [Header] + Scanner.Rows(lines)
  }

  class FileProcessor {
    const inputFilename: string
    const outputFilename: string
    /** The lines written so far through the output writer. */
    var output: seq<string>

    /** Records the input and derives the output path. The check that the
        input exists is made by the caller, ProcessFiles, before construction. */
    constructor (filename: string)
      ensures inputFilename == filename
      ensures outputFilename == Paths.OutputPath(filename)
      ensures output == []
    {
      inputFilename := filename;
      outputFilename := Paths.OutputPath(filename);
      output := [];
    }

    /** File.Exists on the output path, against a file system given as a map
        from path to contents. */
    predicate OutputExists(disk: map<string, seq<string>>)
    {
      outputFilename in disk
    }

    /** Writes the header, then feeds every diagnostic line, in arrival order,
        to the handler. The CSV is the header followed by the extracted rows. */
    method ProcessFile(lines: seq<Option<string>>)
      modifies this
      ensures output == Csv(lines)
    {
      output := [Header];
      var n := 0;
      while n < |lines|
        invariant 0 <= n <= |lines|
        invariant output == [Header] + Scanner.Rows(lines[..n])
      {
        ErrorDataReceived(lines[n]);
        assert lines[..n + 1][..n] == lines[..n];
        n := n + 1;
      }
      assert lines[..n] == lines;
    }

    /** The diagnostic-line handler: a null or empty line, a line without the
        marker, or one whose first marker is at index 0 writes nothing; any
        other line writes the run of digits and dots after its first marker as
        one row. The scan stops at the end of the line. */
    method ErrorDataReceived(data: Option<string>)
      modifies this
      ensures output == old(output) + Scanner.RowOf(data)
    {
      if data.None? || data.value == "" {
        return;
      }
      var s := data.value;
      var i := Scanner.IndexOf(s, Scanner.Marker);
      if i > 0 {
        i := i + |Scanner.Marker|;
        var anchor := i;
        while i < |s| && Scanner.IsDigitOrDot(s[i])
          invariant anchor <= i <= |s|
          invariant forall k :: anchor <= k < i ==> Scanner.IsDigitOrDot(s[k])
        {
          i := i + 1;
        }
        Scanner.NumberEndUnique(s, anchor, i);
        var seconds := s[anchor..i];
        output := output + [seconds];
      }
    }
  }
}
