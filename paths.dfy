/** The output-path derivation of FileProcessor's constructor, over a simple
    path model: a path is split at its last directory separator ('\' or '/'),
    and a file name at its last '.'. */
module Paths {

  /** The separator Path.Combine inserts. */
  const DirectorySeparator: char := '\\'

  /** What replaces the input's extension in the output's file name. */
  const OutputSuffix: string := " scenes.csv"

  predicate IsSeparator(c: char)
  {
    c == '\\' || c == '/'
  }

  /** No character of `s` is a separator. */
  predicate HasNoSeparator(s: string)
  {
    forall k :: 0 <= k < |s| ==> !IsSeparator(s[k])
  }

  /** String.LastIndexOfAny over the separators, among the first n characters:
      the index of the last separator before n, or -1. */
  function LastSeparatorBefore(p: string, n: nat): (r: int)
    requires n <= |p|
    ensures -1 <= r < n
    ensures r >= 0 ==> IsSeparator(p[r])
    ensures forall k :: r < k < n ==> !IsSeparator(p[k])
  {
    if n == 0 then -1
    else if IsSeparator(p[n - 1]) then n - 1
    else LastSeparatorBefore(p, n - 1)
  }

  /** String.LastIndexOf('.') among the first n characters, or -1. */
  function LastDotBefore(s: string, n: nat): (r: int)
    requires n <= |s|
    ensures -1 <= r < n
    ensures r >= 0 ==> s[r] == '.'
    ensures forall k :: r < k < n ==> s[k] != '.'
  {
    if n == 0 then -1
    else if s[n - 1] == '.' then n - 1
    else LastDotBefore(s, n - 1)
  }

  /** Path.GetFileName: the text after the last separator. */
  function FileName(p: string): string
  {
    p[LastSeparatorBefore(p, |p|) + 1..]
  }

  /** Path.GetDirectoryName: the text before the last separator, or "" when
      the path has none. */
  function DirectoryName(p: string): string
  {
    var k := LastSeparatorBefore(p, |p|);
    if k < 0 then "" else p[..k]
  }

  /** Path.GetFileNameWithoutExtension: the file name up to its last '.', or
      the whole file name when it has no '.'. */
  function FileNameWithoutExtension(p: string): string
  {
    var name := FileName(p);
    var d := LastDotBefore(name, |name|);
    if d < 0 then name else name[..d]
  }

  /** Path.Combine for a file name without separators: the name alone when the
      directory is empty, otherwise joined with a '\' unless the directory
      already ends in a separator. */
  function Combine(dir: string, name: string): string
  {
    if dir == "" then name
    else if IsSeparator(dir[|dir| - 1]) then dir + name
    else dir + [DirectorySeparator] + name
  }

  /** The path of the CSV written for input `p`: its directory combined with
      its file name without extension plus " scenes.csv". */
  function OutputPath(p: string): string
  {
    Combine(DirectoryName(p), FileNameWithoutExtension(p) + OutputSuffix)
  }

  /** A path is its directory, the separator after it, and its file name; the
      file name is the longest separator-free tail of the path. */
  lemma SplitPath(p: string)
    ensures HasNoSeparator(FileName(p))
    ensures |FileName(p)| <= |p| && p[|p| - |FileName(p)|..] == FileName(p)
    ensures |FileName(p)| == |p| ==> DirectoryName(p) == ""
    ensures |FileName(p)| < |p| ==>
              IsSeparator(p[|DirectoryName(p)|]) &&
              p == DirectoryName(p) + [p[|DirectoryName(p)|]] + FileName(p)
  {
    var k := LastSeparatorBefore(p, |p|);
    if k >= 0 {
      assert p == p[..k] + [p[k]] + p[k + 1..];
    }
  }

  /** The file name without extension is a prefix of the file name; either
      they are equal and the name has no '.', or the rest is a '.' followed by
      an extension without '.'. */
  lemma ExtensionSplit(p: string)
    ensures var name, stem := FileName(p), FileNameWithoutExtension(p);
            |stem| <= |name| && name[..|stem|] == stem &&
            (stem == name ==> forall k :: 0 <= k < |name| ==> name[k] != '.') &&
            (stem != name ==> name[|stem|] == '.' && forall k :: |stem| < k < |name| ==> name[k] != '.')
    ensures HasNoSeparator(FileNameWithoutExtension(p))
  {
    SplitPath(p);
  }

  lemma NoSeparatorConcat(a: string, b: string)
    requires HasNoSeparator(a) && HasNoSeparator(b)
    ensures HasNoSeparator(a + b)
  {
    assert forall k :: |a| <= k < |a + b| ==> (a + b)[k] == b[k - |a|];
  }

  /** Splitting a combined path gives back its parts: the file name always, the
      directory whenever it does not end in a separator. */
  lemma CombineSplits(dir: string, name: string)
    requires HasNoSeparator(name)
    ensures FileName(Combine(dir, name)) == name
    ensures dir == "" || !IsSeparator(dir[|dir| - 1]) ==> DirectoryName(Combine(dir, name)) == dir
  {
    var o := Combine(dir, name);
    var n := |o| - |name|;
    assert o[n..] == name;
    assert forall k :: n <= k < |o| ==> o[k] == name[k - n];
    var r := LastSeparatorBefore(o, |o|);
    if dir == "" {
      assert r == -1;
    } else {
      assert r == n - 1 by {
        assert IsSeparator(o[n - 1]);
      }
      assert o[..n - 1] == dir || (IsSeparator(dir[|dir| - 1]) && o[..n - 1] == dir[..|dir| - 1]);
    }
  }

  lemma OutputNameHasNoSeparator(p: string)
    ensures HasNoSeparator(FileNameWithoutExtension(p) + OutputSuffix)
  {
    ExtensionSplit(p);
    assert HasNoSeparator(OutputSuffix);
    NoSeparatorConcat(FileNameWithoutExtension(p), OutputSuffix);
  }

  /** The output's file name is the input's file name without its extension,
      followed by " scenes.csv"; so the output path ends in " scenes.csv". */
  lemma OutputFileName(p: string)
    ensures FileName(OutputPath(p)) == FileNameWithoutExtension(p) + OutputSuffix
    ensures |OutputSuffix| <= |OutputPath(p)| &&
            OutputPath(p)[|OutputPath(p)| - |OutputSuffix|..] == OutputSuffix
  {
    OutputNameHasNoSeparator(p);
    CombineSplits(DirectoryName(p), FileNameWithoutExtension(p) + OutputSuffix);
    SplitPath(OutputPath(p));
  }

  /** The output lies in the input's directory (read back by GetDirectoryName)
      whenever that directory does not end in a separator of its own. */
  lemma OutputBesideInput(p: string)
    requires DirectoryName(p) == "" || !IsSeparator(DirectoryName(p)[|DirectoryName(p)| - 1])
    ensures DirectoryName(OutputPath(p)) == DirectoryName(p)
  {
    OutputNameHasNoSeparator(p);
    CombineSplits(DirectoryName(p), FileNameWithoutExtension(p) + OutputSuffix);
  }

  /** The output never overwrites its own input: their file names already differ. */
  lemma OutputIsNotInput(p: string)
    ensures FileName(OutputPath(p)) != FileName(p)
    ensures OutputPath(p) != p
  {
    OutputFileName(p);
    ExtensionSplit(p);
    var stem, name := FileNameWithoutExtension(p), FileName(p);
    var out := stem + OutputSuffix;
    if stem != name {
      assert out[|stem|] == ' ' && name[|stem|] == '.';
    } else {
      assert |out| > |name|;
    }
  }
}
