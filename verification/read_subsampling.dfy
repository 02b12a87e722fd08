/** The read subsampler: the first `num_reads` FASTQ records (four lines
    each) of an input file are copied, unchanged, into an output file. */
module ReadSubsampling {
  import opened Results

  type Path = string
  /** A text file as the sequence of lines Python's reader yields for it,
      each ending in the newline that reader gives it. */
  type Lines = seq<string>
  /** The files the subsampler can see, by path. */
  type FileSystem = map<Path, Lines>

  /** Lines per FASTQ record: header, sequence, separator, quality. */
  const LinesPerRecord: nat := 4
  /** The read count used when the caller gives none (`5e4`). */
  const DefaultNumReads: real := 50000.0

  /** Python's `int(x)` on a float: truncation toward zero. */
  function Trunc(x: real): (r: int)
    ensures x >= 0.0 ==> 0 <= r && r as real <= x < r as real + 1.0
    ensures x < 0.0 ==> r <= 0 && r as real - 1.0 < x <= r as real
  {
    if x >= 0.0 then x.Floor else -((-x).Floor)
  }

  /** The number of iterations of `range(k)`: none when `k` is not positive. */
  function RangeLength(k: int): nat {
    if k <= 0 then 0 else k
  }

  /** How many lines `get_reads` takes for a requested read count:
      `range(int(num_reads * 4))`. */
  function LineCount(numReads: real): (r: nat)
    ensures numReads >= 0.0 ==> r as real <= 4.0 * numReads < r as real + 1.0
    ensures numReads < 0.25 ==> r == 0
  {
    RangeLength(Trunc(numReads * LinesPerRecord as real))
  }

  /** A whole number of reads asks for exactly four lines per read. */
  lemma WholeReadsLineCount(n: nat)
    ensures LineCount(n as real) == LinesPerRecord * n
  {
  }

  /** With the default read count the subsampler copies 200000 lines. */
  lemma DefaultLineCount()
    ensures LineCount(DefaultNumReads) == 200000
  {
    WholeReadsLineCount(50000);
  }

  /** Asking for more reads never asks for fewer lines. */
  lemma LineCountMonotone(a: real, b: real)
    requires a <= b
    ensures LineCount(a) <= LineCount(b)
  {
  }

  /** What `get_reads(inputfp, outfp, num_reads)` does to the files: open
      the input, take `LineCount(numReads)` lines from it one `next` at a
      time, and only then open the output and write them. Running out of
      lines raises before the output is opened, so nothing is written. */
  function Subsample(fs: FileSystem, inputfp: Path, outfp: Path, numReads: real): (r: Result<FileSystem>)
    ensures r.Ok? <==> inputfp in fs && |fs[inputfp]| >= LineCount(numReads)
    ensures inputfp !in fs ==> r == Err(FileNotFound)
    ensures inputfp in fs && |fs[inputfp]| < LineCount(numReads) ==> r == Err(EndOfInput)
    ensures r.Ok? ==> outfp in r.value
                      && |r.value[outfp]| == LineCount(numReads)
                      && r.value[outfp] <= fs[inputfp]
    ensures r.Ok? ==> r.value.Keys == fs.Keys + {outfp}
    ensures r.Ok? ==> forall p :: p in fs && p != outfp ==> r.value[p] == fs[p]
  {
    if inputfp !in fs then Err(FileNotFound)
    else if |fs[inputfp]| < LineCount(numReads) then Err(EndOfInput)
    else Ok(fs[outfp := fs[inputfp][..LineCount(numReads)]])
  }

  /** `[next(f) for i in range(k)]`: the first `k` lines, or the error
      `next` raises when the file has fewer. */
  method TakeLines(source: Lines, k: nat) returns (r: Result<Lines>)
    ensures r.Ok? <==> k <= |source|
    ensures r.Ok? ==> r.value == source[..k]
    ensures r.Err? ==> r.error == EndOfInput
  {
    var lines: Lines := [];
    var i := 0;
    while i < k
      invariant 0 <= i <= k && i <= |source|
      invariant lines == source[..i]
    {
      if i == |source| {
        return Err(EndOfInput);
      }
      lines := lines + [source[i]];
      i := i + 1;
    }
    r := Ok(lines);
  }

  /** `for line in lines: f.write(line)` into a freshly truncated file. */
  method WriteLines(lines: Lines) returns (written: Lines)
    ensures written == lines
  {
    written := [];
    for j := 0 to |lines|
      invariant written == lines[..j]
    {
      written := written + [lines[j]];
    }
  }

  /** `get_reads` step by step; it has exactly the effect `Subsample` states. */
  method GetReads(fs: FileSystem, inputfp: Path, outfp: Path, numReads: real) returns (r: Result<FileSystem>)
    ensures r == Subsample(fs, inputfp, outfp, numReads)
  {
    if inputfp !in fs {
      return Err(FileNotFound);
    }
    var lines :- TakeLines(fs[inputfp], LineCount(numReads));
    var written := WriteLines(lines);
    r := Ok(fs[outfp := written]);
  }

  /** A file of exactly 40 lines (10 records): asking for 10 reads copies it
      unchanged, asking for 20 is an error. */
  lemma TenOfTenRecords(fs: FileSystem, inputfp: Path, outfp: Path)
    requires inputfp in fs && |fs[inputfp]| == 40
    ensures Subsample(fs, inputfp, outfp, 10.0) == Ok(fs[outfp := fs[inputfp]])
    ensures Subsample(fs, inputfp, outfp, 20.0) == Err(EndOfInput)
  {
    WholeReadsLineCount(10);
    WholeReadsLineCount(20);
    assert fs[inputfp][..40] == fs[inputfp];
  }

  /** Fewer reads give a prefix of what more reads give, from the same input. */
  lemma SubsampleMonotone(fs: FileSystem, inputfp: Path, out1: Path, out2: Path, a: real, b: real)
    requires a <= b
    requires Subsample(fs, inputfp, out2, b).Ok?
    ensures Subsample(fs, inputfp, out1, a).Ok?
    ensures Subsample(fs, inputfp, out1, a).value[out1] <= Subsample(fs, inputfp, out2, b).value[out2]
  {
    LineCountMonotone(a, b);
  }

  /** Subsampling an output again with the same read count reproduces it. */
  lemma SubsampleIdempotent(fs: FileSystem, inputfp: Path, out1: Path, out2: Path, n: real)
    requires Subsample(fs, inputfp, out1, n).Ok?
    ensures Subsample(Subsample(fs, inputfp, out1, n).value, out1, out2, n).Ok?
    ensures Subsample(Subsample(fs, inputfp, out1, n).value, out1, out2, n).value[out2]
            == Subsample(fs, inputfp, out1, n).value[out1]
  {
  }
}
