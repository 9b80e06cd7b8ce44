/** The diagnostic-line scanner of FileProcessor: finds the "pts_time:" field in
    one line of ffmpeg's showinfo output and takes the number that follows it. */
module Scanner {
  import opened Wrappers

  /** The literal that precedes the presentation timestamp in a showinfo line. */
  const Marker: string := "pts_time:"

  /** True when `pat` occurs in `s` starting at index `k`. */
  predicate OccursAt(s: string, pat: string, k: int)
  {
    0 <= k && k + |pat| <= |s| && s[k..k + |pat|] == pat
  }

  /** The first index at or after `from` where `pat` occurs, or -1 when there is none. */
  function IndexFrom(s: string, pat: string, from: nat): (r: int)
    ensures r == -1 || (from <= r && OccursAt(s, pat, r))
    ensures r == -1 ==> forall k :: from <= k ==> !OccursAt(s, pat, k)
    ensures r != -1 ==> forall k :: from <= k < r ==> !OccursAt(s, pat, k)
    decreases |s| - from
  {
    if from + |pat| > |s| then -1
    else if s[from..from + |pat|] == pat then from
    else IndexFrom(s, pat, from + 1)
  }

  /** String.IndexOf(string), compared character by character: the first
      occurrence of `pat` in `s`, or -1. */
  function IndexOf(s: string, pat: string): (r: int)
    ensures r == -1 <==> forall k :: !OccursAt(s, pat, k)
    ensures r != -1 ==> OccursAt(s, pat, r) && forall k :: 0 <= k < r ==> !OccursAt(s, pat, k)
  {
    IndexFrom(s, pat, 0)
  }

  /** The characters the scan loop accepts after the marker: ASCII digits and '.'. */
  predicate IsDigitOrDot(c: char)
  {
    ('0' <= c <= '9') || c == '.'
  }

  /** All characters of `t` are digits or dots. */
  predicate IsNumeral(t: string)
  {
    forall k :: 0 <= k < |t| ==> IsDigitOrDot(t[k])
  }

  /** The end of the maximal run of digits and dots that starts at `from`. */
  function NumberEnd(s: string, from: nat): (j: nat)
    requires from <= |s|
    ensures from <= j <= |s|
    ensures forall k :: from <= k < j ==> IsDigitOrDot(s[k])
    ensures j == |s| || !IsDigitOrDot(s[j])
    decreases |s| - from
  {
    if from < |s| && IsDigitOrDot(s[from]) then NumberEnd(s, from + 1) else from
  }

  /** Any index that ends a maximal run of digits and dots from `from` is NumberEnd(s, from). */
  lemma NumberEndUnique(s: string, from: nat, j: nat)
    requires from <= j <= |s|
    requires forall k :: from <= k < j ==> IsDigitOrDot(s[k])
    requires j == |s| || !IsDigitOrDot(s[j])
    ensures j == NumberEnd(s, from)
  {
  }

  /** The timestamp one diagnostic line contributes, or None. A null or empty
      line, a line without the marker and a line whose first marker stands at
      index 0 contribute nothing; otherwise the result is the run of digits
      and dots that follows the first marker, which may be empty. */
  function Extract(data: Option<string>): (r: Option<string>)
    ensures data.None? || data == Some("") ==> r == None
    ensures r.Some? ==> IsNumeral(r.value)
  {
    match data
    case None => None
    case Some(s) =>
      if s == "" then None
      else
        var i := IndexOf(s, Marker);
        if i > 0 then Some(s[i + |Marker|..NumberEnd(s, i + |Marker|)]) else None
  }

  /** A line yields a row exactly when the marker occurs in it but not at index 0. */
  lemma ExtractYieldsRow(s: string)
    ensures Extract(Some(s)).Some? <==> !OccursAt(s, Marker, 0) && exists k :: OccursAt(s, Marker, k)
  {
    var i := IndexOf(s, Marker);
    if i > 0 {
      assert OccursAt(s, Marker, i);
    }
  }

  /** When the first marker is at index k > 0, the row is the maximal run of
      digits and dots that starts right after it: a prefix of the text after
      the marker, ending at the end of the line or at the first other character. */
  lemma ExtractRow(s: string, k: nat)
    requires 0 < k && OccursAt(s, Marker, k)
    requires forall j :: 0 <= j < k ==> !OccursAt(s, Marker, j)
    ensures Extract(Some(s)).Some?
    ensures var t := Extract(Some(s)).value; var a := k + |Marker|;
            a + |t| <= |s| && s[a..a + |t|] == t && IsNumeral(t) &&
            (a + |t| == |s| || !IsDigitOrDot(s[a + |t|]))
  {
    assert IndexOf(s, Marker) == k;
  }

  /** The index-0 quirk: a line that starts with the marker yields nothing;
      any later marker on that line is ignored. */
  lemma MarkerAtStartIgnored(s: string)
    requires OccursAt(s, Marker, 0)
    ensures Extract(Some(s)) == None
  {
    assert IndexOf(s, Marker) == 0;
  }

  /** A typical showinfo field yields its timestamp verbatim. */
  lemma ExtractShowinfoExample(s: string)
    requires s == "n:3 pts_time:12.345 pos:9"
    ensures Extract(Some(s)) == Some("12.345")
  {
    assert s[..4] == "n:3 ";
    FirstMarkerAt(s, 4);
    NumberEndUnique(s, 13, 19);
    assert s[13..19] == "12.345";
  }

  /** A marker at k with no 'p' before it is the first marker. */
  lemma FirstMarkerAt(s: string, k: nat)
    requires OccursAt(s, Marker, k)
    requires 'p' !in s[..k]
    ensures IndexOf(s, Marker) == k
  {
    forall j | 0 <= j < k ensures !OccursAt(s, Marker, j) {
      assert s[j..j + |Marker|][0] == s[j] == s[..k][j];
    }
  }

  /** A marker followed directly by another character yields an empty row. */
  lemma ExtractEmptyRowExample(s: string)
    requires s == "x pts_time:N/A"
    ensures Extract(Some(s)) == Some("")
  {
    assert s[2..11] == Marker;
    assert s[..2] == "x ";
    FirstMarkerAt(s, 2);
    assert s[11] == 'N';
    NumberEndUnique(s, 11, 11);
    assert s[11..11] == "";
  }

  /** The index-0 quirk on a concrete line: the later marker is not looked at. */
  lemma MarkerAtStartExample(s: string)
    requires s == "pts_time:1.5 pts_time:2.5"
    ensures Extract(Some(s)) == None
  {
    assert s[0..9] == Marker;
  }

  /** The rows (zero or one) that one line appends to the output. */
  function RowOf(data: Option<string>): seq<string>
  {
    match Extract(data)
    case None => []
    case Some(t) => [t]
  }

  /** The rows a sequence of diagnostic lines produces, in arrival order. */
  function Rows(lines: seq<Option<string>>): (rows: seq<string>)
    ensures |rows| <= |lines|
    ensures forall m :: 0 <= m < |rows| ==> IsNumeral(rows[m])
  {
    if lines == [] then [] else Rows(lines[..|lines| - 1]) + RowOf(lines[|lines| - 1])
  }

  /** Feeding two batches of lines one after the other gives their rows one after the other. */
  lemma {:induction false} RowsAppend(a: seq<Option<string>>, b: seq<Option<string>>)
    ensures Rows(a + b) == Rows(a) + Rows(b)
    decreases |b|
  {
    if b == [] {
      assert a + b == a;
    } else {
      var b' := b[..|b| - 1];
      assert (a + b)[..|a + b| - 1] == a + b';
      assert (a + b)[|a + b| - 1] == b[|b| - 1];
      RowsAppend(a, b');
    }
  }

  /** The indices of the lines that produce a row, in increasing order. */
  function Producing(lines: seq<Option<string>>): seq<nat>
  {
    if lines == [] then []
    else Producing(lines[..|lines| - 1]) + (if Extract(lines[|lines| - 1]).Some? then [|lines| - 1] else [])
  }

  /** One producing line per row, each line's timestamp being the row at the
      same position: Rows keeps exactly the extracted values. */
  lemma {:induction false} ProducingMatchesRows(lines: seq<Option<string>>)
    ensures |Producing(lines)| == |Rows(lines)|
    ensures forall m :: 0 <= m < |Producing(lines)| ==>
              Producing(lines)[m] < |lines| && RowOf(lines[Producing(lines)[m]]) == [Rows(lines)[m]]
    decreases |lines|
  {
    if lines != [] {
      var init := lines[..|lines| - 1];
      ProducingMatchesRows(init);
      var idx, idx0 := Producing(lines), Producing(init);
      forall m | 0 <= m < |idx0|
        ensures idx[m] == idx0[m] && Rows(lines)[m] == Rows(init)[m] && lines[idx0[m]] == init[idx0[m]]
      {
      }
    }
  }

  /** The producing lines are listed in arrival order, and no line that yields
      a timestamp is left out. */
  lemma {:induction false} ProducingInOrder(lines: seq<Option<string>>)
    ensures forall m :: 0 <= m < |Producing(lines)| ==> Producing(lines)[m] < |lines|
    ensures forall m, n :: 0 <= m < n < |Producing(lines)| ==> Producing(lines)[m] < Producing(lines)[n]
    ensures forall i :: 0 <= i < |lines| && RowOf(lines[i]) != [] ==> i in Producing(lines)
    decreases |lines|
  {
    if lines != [] {
      var init := lines[..|lines| - 1];
      ProducingInOrder(init);
      assert forall i :: 0 <= i < |init| ==> init[i] == lines[i];
    }
  }
}
