# check-strand, modelled in Dafny

check-strand infers the strand orientation of paired-end RNA-Seq samples.
For each row of a sample sheet it subsamples the first reads of both FASTQ
files, quantifies them three times with kallisto (no strand flag,
`--rf-stranded`, `--fr-stranded`), sums the estimated counts of each run, and
classifies the three totals as `stranded`, `reverse` or `unstranded`. The
labels are added to the sheet as a `strand` column. The repository holds two
near-identical scripts: `check-strand.py` has command-line options and derives
the output name from the input, and `check.py` is positional-only and writes
`strands.csv`. This describes what the scripts are meant to do. As written,
`check-strand.py` raises TypeError at check-strand.py:70, before the row loop,
and `check.py` raises NameError at check.py:36 on the first row. So on a
non-empty sheet neither script reaches `strand_scoring`. The model describes
the code past those lines, as if they worked.

The model covers the pure core of both scripts:

- `results.dfy` (module `Results`): `Result` and `Option`, and the exceptions
  the core raises (`ZeroDivision`, `FileNotFound`, `EndOfInput`).
- `strand_scoring.dfy` (module `StrandScoring`): the `Label` datatype, the
  classifier `Score` over `real` with the thresholds 0.3 and 3 taken as exact
  rationals, and `ScoreChecked`, which raises where Python's divisions would.
  Both scripts' `strand_scoring` are the same text, so one definition serves
  both.
- `read_subsampling.dfy` (module `ReadSubsampling`): `get_reads` over a file
  system modelled as a map from path to its sequence of lines. It has a
  functional statement, `Subsample`, and a step-by-step method, `GetReads`,
  proved to agree with it. `int(num_reads*4)` is modelled as truncation toward
  zero followed by the length of `range`.
- `batch_driver.dfy` (module `BatchDriver`): Python's `str.find` and `s[0:hi]`,
  the output-name rule of `check-strand.py`, the loop that collects one label
  per row, and the assignment of the `strand` column.

Both scripts sum the counts of the runs in the directories `un`, `rf`, `fr`,
in that order (check-strand.py:61-64, check.py:42-45), and call
`strand_scoring(uncts, rfcts, frcts)`, so the model uses one mapping of runs
to classifier arguments for both.

## Model

| member | source | states |
|---|---|---|
| StrandScoring.Name | check-strand.py:39-43 | the classifier's result is always one of the three strings `stranded`, `reverse`, `unstranded` |
| StrandScoring.NameRoundTrip | check.py:21-25 | the three label strings are distinct, and each reads back as its own label |
| StrandScoring.Score | check-strand.py:37-43 | `stranded` iff rf/fr < 0.3 and un/rf > 3; `reverse` iff rf/fr > 3 and un/fr > 3, with no mention of rule 1; `unstranded` iff neither rule holds; it requires exactly the divisors that are evaluated |
| StrandScoring.BranchOrderIrrelevant | check-strand.py:38-40 | the two rules are disjoint, so trying `reverse` before `stranded` gives the same label |
| StrandScoring.DefinedIffNonZero | check-strand.py:38 | the short-circuit precondition (fr non-zero, and rf non-zero when rf/fr < 0.3) is the same as "both rf and fr are non-zero" |
| StrandScoring.ScoreChecked | check.py:19-25 | evaluated as Python does, the classifier raises ZeroDivisionError exactly when fr or rf is zero, and otherwise gives the label `Score` gives |
| StrandScoring.StrictBoundaries | check.py:20-22 | a ratio exactly 0.3 never gives `stranded`; rf/fr or un/fr exactly 3 never gives `reverse` |
| StrandScoring.ScoreCrossMultiplied | check-strand.py:38-40 | for positive totals: `stranded` iff 10·rf < 3·fr and un > 3·rf; `reverse` iff rf > 3·fr and un > 3·fr |
| StrandScoring.WorkedExamples | check.py:20-25 | (100, 10, 50) gives `stranded`, (100, 60, 10) gives `reverse`, (10, 10, 10) gives `unstranded`, and rf = 0 raises |
| ReadSubsampling.Trunc | check-strand.py:29 | `int()` of a float truncates toward zero: the result is within 1 of the input and not further from zero |
| ReadSubsampling.LineCount | check.py:11-14 | `range(int(num_reads*4))` runs ⌊4·num_reads⌋ times for a non-negative read count (within 1 below 4·num_reads), and not at all for a read count below 0.25, negative ones included |
| ReadSubsampling.WholeReadsLineCount | check-strand.py:29-32 | a whole number N of reads takes exactly 4·N lines |
| ReadSubsampling.DefaultLineCount | check.py:8-14 | with the default `num_reads=5e4`, exactly 200000 lines are taken |
| ReadSubsampling.LineCountMonotone | check.py:11-14 | asking for more reads never takes fewer lines |
| ReadSubsampling.Subsample | check-strand.py:26-35 | it succeeds iff the input exists and has at least the requested number of lines. On success the output is a prefix of the input with exactly that many lines, the output path is the only path added or changed, and no other file changes. A missing input raises FileNotFound. Running out of lines raises before the output is opened, so nothing is written |
| ReadSubsampling.TakeLines | check.py:11-14 | repeated `next` yields exactly the first k lines, or raises end-of-input iff the file has fewer than k |
| ReadSubsampling.WriteLines | check.py:15-17 | writing the lines one by one into a truncated file leaves exactly those lines, in order |
| ReadSubsampling.GetReads | check.py:8-17 | the step-by-step `get_reads` (open, take lines, then open the output and write) has exactly the effect `Subsample` states, error cases included |
| ReadSubsampling.TenOfTenRecords | check-strand.py:29-35 | from a 40-line file, 10 reads copy the file unchanged and 20 reads raise end-of-input |
| ReadSubsampling.SubsampleMonotone | check-strand.py:29-35 | if N reads succeed, fewer reads from the same input succeed too, and their output is a prefix of the larger output |
| ReadSubsampling.SubsampleIdempotent | check.py:11-17 | subsampling an output again with the same read count succeeds and reproduces it |
| BatchDriver.FindFrom | check-strand.py:87 | `find` from a start index gives the lowest occurrence at or after it, or -1 iff there is none (always -1 for a start past the end) |
| BatchDriver.Find | check-strand.py:87 | `find` gives the first occurrence of the pattern, or -1 iff it is absent |
| BatchDriver.PrefixSlice | check-strand.py:87 | `s[0:hi]` is a prefix of `s`; a negative `hi` counts from the end, and the result is clamped to the string |
| BatchDriver.OutputName | check-strand.py:87-88 | the output name always ends in `.stranded.csv`. It is the path cut at its first `.csv` plus that suffix. When `.csv` is absent, the path minus its last character plus the suffix |
| BatchDriver.OutputNameOfCsvPath | check-strand.py:87-88 | `<stem>.csv`, whose stem holds no `.csv`, gives `<stem>.stranded.csv` |
| BatchDriver.OutputNameWithoutCsv | check-strand.py:87-88 | `samples.txt` gives `samples.tx.stranded.csv`: the -1 from `find` drops a character |
| BatchDriver.OutputNameDiffersFromInput | check-strand.py:87-89 | the output path string differs from the sample-sheet path string |
| BatchDriver.InferFromTotals | check-strand.py:64-66 | once the three totals are known, inference succeeds iff rf and fr are non-zero, and then gives the classifier's label |
| BatchDriver.CollectLabels | check-strand.py:83-85 | the batch succeeds iff inference succeeds on every row. Then it yields one label per row, in row order, each the row's own inferred label. Otherwise it fails with the error of the first failing row |
| BatchDriver.AddStrandColumn | check.py:56 | the output table has one row per sample, in order, the `fq1`/`fq2` part of each row unchanged, and the row's `strand` entry reads back as that row's label |
| BatchDriver.AddStrandColumnKeepsRows | check-strand.py:86 | dropping the `strand` column again gives back the `fq1`/`fq2` part of every row, in order |

## Left out

- The kallisto runs, the reading of `abundance.tsv` and the summing of `est_counts` (check-strand.py:54-63, check.py:35-44) are external. The three totals are inputs of `InferFromTotals`, and the whole of `infer_strand` is the `infer` parameter of `CollectLabels`.
- The choice between `gzip.open` and `open` by the `gz` suffix, and UTF-8 decoding, are not modelled. Both branches are taken to yield the same sequence of lines.
- Reading and writing the CSV sheet with pandas, the temporary directory per sample, and the progress `print` are left out. So is the fixed output name `strands.csv` that check.py:57 writes to.
- Argument parsing (check-strand.py:14-24, 69-81) is left out; the model takes plain parameters. As written, `args['index']` subscripts an `argparse.Namespace`, and `nargs=1` yields one-element lists.
- check.py:36-40 passes `subprocess.DEVNULL` although the module is imported as `sb`. That is a NameError in the subprocess plumbing and outside the model.
- ScoreChecked: models Python's ZeroDivisionError on plain floats. The scripts' totals are numpy `float64` sums, for which a zero divisor gives `inf` or `nan` instead of raising. That behaviour, and binary floating point generally, are not modelled: totals are `real`, and `.3` is the exact rational 3/10.
- Subsample: a failure to open the output path (for example, a missing directory) is not modelled; opening the output always succeeds.
- Subsample: lines are what Python's reader returns, not raw bytes. The plain branch reads in text mode, whose universal newlines turn `\r\n` and a lone `\r` into `\n`; the gzip branch splits on `\n` only and keeps `\r`. So for files with CR or CRLF line ends the copy is not byte-for-byte, and the two branches can cut lines differently. Neither translation is modelled.
- OutputNameDiffersFromInput: compares path strings only. Two different strings can name the same file, through `..` components or symbolic links (for example `s.csv/../s.stranded.csv` gives `s.stranded.csv`), and then writing the output overwrites the sheet that was read. Path resolution is not modelled.
- AddStrandColumnKeepsRows: a modelled row holds only the `fq1` and `fq2` columns. The other columns `pd.read_csv` keeps are not modelled. `samples['strand'] = res` overwrites a `strand` column the sheet already has, for example when the tool is run on its own output, and dropping the column then does not restore the old values.
