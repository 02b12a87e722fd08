/** The batch driver: one strand label per sample row, in row order, and
    the name of the file the labelled sheet is written to. */
module BatchDriver {
  import opened Results
  import opened StrandScoring
  import opened ReadSubsampling

  /** A row of the sample sheet: the paths in its `fq1` and `fq2` columns. */
  datatype Sample = Sample(fq1: Path, fq2: Path)

  /** A row of the output sheet: the input row plus its `strand` column. */
  datatype LabelledSample = LabelledSample(sample: Sample, strand: string)

  /** The three count totals one sample's quantification runs produce. */
  datatype CountTotals = CountTotals(un: real, rf: real, fr: real)

  /** The suffix `check-strand.py` gives the output sheet. */
  const StrandedSuffix: string := ".stranded.csv"
  /** The pattern `check-strand.py` cuts the sample-sheet path at. */
  const CsvPattern: string := ".csv"

  /** `pat` occurs in `s` starting at index `i`. */
  predicate OccursAt(s: string, pat: string, i: int) {
    0 <= i && i + |pat| <= |s| && s[i..i + |pat|] == pat
  }

  /** `pat` occurs at `i` and nowhere before. */
  predicate FirstAt(s: string, pat: string, i: int) {
    OccursAt(s, pat, i) && forall j :: 0 <= j < i ==> !OccursAt(s, pat, j)
  }

  /** `pat` occurs nowhere in `s`. */
  predicate Absent(s: string, pat: string) {
    forall j :: 0 <= j <= |s| ==> !OccursAt(s, pat, j)
  }

  /** There is at most one first occurrence. */
  lemma FirstAtUnique(s: string, pat: string)
    ensures forall i, k :: FirstAt(s, pat, i) && FirstAt(s, pat, k) ==> i == k
  {
  }

  /** Python's `s.find(pat, start)`: the lowest index at or after `start`
      where `pat` occurs, or -1; a start past the end finds nothing. */
  function FindFrom(s: string, pat: string, start: nat): (i: int)
    ensures i == -1 || (start <= i && OccursAt(s, pat, i))
    ensures i == -1 <==> forall j :: start <= j <= |s| ==> !OccursAt(s, pat, j)
    ensures i != -1 ==> forall j :: start <= j < i ==> !OccursAt(s, pat, j)
    decreases if start <= |s| then |s| - start else 0
  {
    if start > |s| then -1
    else if OccursAt(s, pat, start) then start
    else if start == |s| then -1
    else FindFrom(s, pat, start + 1)
  }

  /** Python's `s.find(pat)`. */
  function Find(s: string, pat: string): (i: int)
    ensures i == -1 <==> Absent(s, pat)
    ensures i != -1 ==> FirstAt(s, pat, i)
  {
    FindFrom(s, pat, 0)
  }

  /** Python's `s[0:hi]`: a negative `hi` counts from the end, and the end
      is clamped to the string. */
  function PrefixSlice(s: string, hi: int): (r: string)
    ensures r <= s
    ensures hi >= 0 ==> |r| == if hi <= |s| then hi else |s|
    ensures hi < 0 ==> |r| == if |s| + hi >= 0 then |s| + hi else 0
  {
    if hi < 0 then (if |s| + hi >= 0 then s[..|s| + hi] else [])
    else if hi <= |s| then s[..hi]
    else s
  }

  /** `check-strand.py`'s output path: the sample-sheet path cut at its
      first ".csv", then ".stranded.csv". When ".csv" is absent `find`
      gives -1 and the slice drops the path's last character instead. */
  function OutputName(samplesFp: string): (r: string)
    ensures |r| >= |StrandedSuffix| && r[|r| - |StrandedSuffix|..] == StrandedSuffix
    ensures forall i :: FirstAt(samplesFp, CsvPattern, i) ==> r == samplesFp[..i] + StrandedSuffix
    ensures Absent(samplesFp, CsvPattern)
            ==> r == samplesFp[..if |samplesFp| == 0 then 0 else |samplesFp| - 1] + StrandedSuffix
  {
    FirstAtUnique(samplesFp, CsvPattern);
    PrefixSlice(samplesFp, Find(samplesFp, CsvPattern)) + StrandedSuffix
  }

  /** A path of the form `<stem>.csv`, whose stem holds no ".csv", gives
      `<stem>.stranded.csv`. */
  lemma {:induction false} OutputNameOfCsvPath(stem: string)
    requires Absent(stem, CsvPattern)
    ensures OutputName(stem + CsvPattern) == stem + StrandedSuffix
  {
    var s := stem + CsvPattern;
    assert OccursAt(s, CsvPattern, |stem|) by {
      assert s[|stem|..|stem| + 4] == CsvPattern;
    }
    forall j | 0 <= j < |stem|
      ensures !OccursAt(s, CsvPattern, j)
    {
      if j + 4 <= |stem| {
        assert s[j..j + 4] == stem[j..j + 4];
        assert !OccursAt(stem, CsvPattern, j);
      } else {
        // A ".csv" starting at `j` would cover `s[|stem|]`, a '.', with
        // one of its letters 'c', 's' or 'v'.
        assert s[j..j + 4][|stem| - j] == '.';
        assert CsvPattern[|stem| - j] != '.';
      }
    }
    assert s[..|stem|] == stem;
  }

  /** A path without ".csv" loses its last character: "samples.txt" gives
      "samples.tx.stranded.csv", not "samples.txt.stranded.csv". */
  lemma OutputNameWithoutCsv()
    ensures OutputName("samples.txt") == "samples.tx.stranded.csv"
  {
    var s := "samples.txt";
    assert 'c' !in s;
    forall j | 0 <= j <= |s|
      ensures !OccursAt(s, CsvPattern, j)
    {
      if j + 4 <= |s| {
        assert s[j..j + 4][1] == s[j + 1] != 'c';
      }
    }
    assert Absent(s, CsvPattern);
    assert s[..|s| - 1] == "samples.tx";
  }

  /** A string ending in ".stranded.csv" contains ".csv" at its last four
      characters. */
  lemma SuffixHoldsCsv(r: string)
    requires |r| >= |StrandedSuffix| && r[|r| - |StrandedSuffix|..] == StrandedSuffix
    ensures OccursAt(r, CsvPattern, |r| - 4)
  {
  }

  /** The output path string never equals the sample-sheet path string. */
  lemma {:induction false} OutputNameDiffersFromInput(samplesFp: string)
    ensures OutputName(samplesFp) != samplesFp
  {
    var i := Find(samplesFp, CsvPattern);
    if i == -1 {
      DiffersWhenCsvAbsent(samplesFp);
    } else {
      DiffersWhenCsvPresent(samplesFp, i);
    }
  }

  /** Without ".csv" in the path, the ".csv" the output ends with is new. */
  lemma DiffersWhenCsvAbsent(samplesFp: string)
    requires Find(samplesFp, CsvPattern) == -1
    ensures OutputName(samplesFp) != samplesFp
  {
    var r := OutputName(samplesFp);
    SuffixHoldsCsv(r);
    assert !OccursAt(samplesFp, CsvPattern, |r| - 4);
  }

  /** With ".csv" first at `i`, the output has ".str" where the path has ".csv". */
  lemma DiffersWhenCsvPresent(samplesFp: string, i: int)
    requires Find(samplesFp, CsvPattern) == i != -1
    ensures OutputName(samplesFp) != samplesFp
  {
    var r := OutputName(samplesFp);
    assert r == samplesFp[..i] + StrandedSuffix;
    assert r[i + 1] == 's';
    assert samplesFp[i..i + 4][1] == 'c';
    assert r[i + 1] != samplesFp[i + 1];
  }

  /** `infer_strand` once the three totals are known. */
  function InferFromTotals(t: CountTotals): (r: Result<Label>)
    ensures r.Ok? <==> t.fr != 0.0 && t.rf != 0.0
    ensures r.Ok? ==> Defined(t.un, t.rf, t.fr) && r.value == Score(t.un, t.rf, t.fr)
  {
    ScoreChecked(t.un, t.rf, t.fr)
  }

  /** The loop in `main`: `infer_strand` on every row in order, appending
      each label; the first exception aborts the whole batch. */
  method CollectLabels(rows: seq<Sample>, infer: Sample -> Result<Label>) returns (r: Result<seq<Label>>)
    ensures r.Ok? <==> forall i :: 0 <= i < |rows| ==> infer(rows[i]).Ok?
    ensures r.Ok? ==> |r.value| == |rows|
                      && forall i :: 0 <= i < |rows| ==> r.value[i] == infer(rows[i]).value
    ensures r.Err? ==> exists i :: 0 <= i < |rows| && infer(rows[i]) == Err(r.error)
                                   && forall j :: 0 <= j < i ==> infer(rows[j]).Ok?
  {
    var res: seq<Label> := [];
    for i := 0 to |rows|
      invariant |res| == i
      invariant forall j :: 0 <= j < i ==> infer(rows[j]).Ok? && res[j] == infer(rows[j]).value
    {
      var strand :- infer(rows[i]);
      res := res + [strand];
    }
    r := Ok(res);
  }

  /** `samples['strand'] = res`: the column must have one entry per row. */
  function AddStrandColumn(rows: seq<Sample>, labels: seq<Label>): (table: seq<LabelledSample>)
    requires |labels| == |rows|
    ensures |table| == |rows|
    ensures forall i :: 0 <= i < |rows| ==> table[i].sample == rows[i]
    ensures forall i :: 0 <= i < |rows| ==> Parse(table[i].strand) == Some(labels[i])
  {
    seq(|rows|, i requires 0 <= i < |rows| => LabelledSample(rows[i], Name(labels[i])))
  }

  /** Dropping the `strand` column again gives back the `fq1`/`fq2` rows. */
  function SampleColumns(table: seq<LabelledSample>): (rows: seq<Sample>)
    ensures |rows| == |table|
  {
    seq(|table|, i requires 0 <= i < |table| => table[i].sample)
  }

  /** Adding the column keeps the `fq1`/`fq2` part of every row, in order. */
  lemma AddStrandColumnKeepsRows(rows: seq<Sample>, labels: seq<Label>)
    requires |labels| == |rows|
    ensures SampleColumns(AddStrandColumn(rows, labels)) == rows
  {
  }
}
