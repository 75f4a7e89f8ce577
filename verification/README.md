# A Dafny model of recentrifuge's generic classifier-output reader

Recentrifuge reads the per-read output of a taxonomic classifier. Its
`generic` module has two parts, and this project models both:

- `GenericFormat`, which parses a format specifier such as
  `TYP:tsv, TID:3, LEN:4, SCO:5, UNC:0`;
- `read_generic_output`, which reads a Kraken-style file. It checks that
  the header has five tab fields. Each data line is then parsed as
  flag, read id, taxid, `|`-separated length and a list of `taxid:count`
  k-mer mappings. For each read it derives two scores:
  - the "single hit equivalent length" (`shel`);
  - the relative k-mer score.

  Reads under the optional minimum score are dropped. Three per-taxon
  lists are kept in lockstep. The reader then counts reads, nucleotides
  and unclassified reads, and warns about a truncated file. It raises when
  nothing was read or nothing passed the filter. Finally it reduces each
  taxon's lists to one score under the chosen policy: SHEL, KRAKEN,
  LENGTH, LOGLENGTH or NORMA.

The modules follow that structure:

| module | file | what it holds |
|---|---|---|
| `Wrappers` | wrappers.dfy | `Option` and `Result` |
| `PyStr` | pystr.dfy | the Python string primitives the code relies on: `strip()`, `split(sep)`, `split()`, `int()`, `upper()`, `list.remove` |
| `FormatSpec` | format_spec.dfy | `GenericFormat.__init__` |
| `ReadErrors` | errors.dfy | the exceptions that end the reader |
| `KrakenLine` | kraken_line.dfy | one data line: fields, length, k-mer counter, `shel` and score |
| `Accumulation` | accumulation.dfy | `all_scores`, `all_kmerel` and `all_length`, with their insertion order |
| `Scores` | scores.dfy | the score selection at the end |
| `Scan` | scan.dfy | the loop over data lines: counters, `error_read`, the filter |
| `Reader` | reader.dfy | `read_generic_output` end to end |
| `AsWritten` | as_written.dfy | the reader as its module literally stands (see Findings) |

Some things are explicit parameters, because the code uses them without
defining them in the module (see Findings):

- the unclassified marker;
- the k-mer size;
- the scoring policy.

The minimum score is a parameter of the reader, as it is of
`read_generic_output`.

Other modelling choices:

- The file is a sequence of lines whose first element is the header.
- Scores are `real`.
- `log10` is a function parameter.
- `int()` skips the same whitespace as `strip()` except U+001C to U+001F,
  which `strip()` removes but `int()` rejects.
- Python exceptions are `Failure` values. The `ValueError`s the loop
  catches become the line outcomes `WrongFieldCount`, `BadLength` and
  `BadCount`.

A read whose k-mer counts add up to 0 is not skipped: the division at
recentrifuge/generic.py:152 raises `ZeroDivisionError`, which the
`except ValueError` does not catch, so the model makes it the fatal
`ZeroKmerTotal`. Likewise, a k-mer token without a colon aborts reading
the file with an uncaught `IndexError` (`MissingKmerCount`). A count that
is not an integer only skips the line.

## Model

| member | source | states |
|---|---|---|
| PyStr.Strip | recentrifuge/generic.py:125 | `str.strip()` leaves no white space at either end and never lengthens the string |
| PyStr.StripSlice | recentrifuge/generic.py:125 | the stripped string is a slice of the input, with only white space cut on either side |
| PyStr.StripKeeps | recentrifuge/generic.py:37-39 | stripping a string without edge white space changes nothing |
| PyStr.JoinSplit | recentrifuge/generic.py:126-127 | joining the pieces of `split(sep)` with `sep` gives back the string |
| PyStr.SplitJoin | recentrifuge/generic.py:134 | splitting pieces joined by a separator they do not contain gives back the pieces |
| PyStr.SplitCount | recentrifuge/generic.py:114-115 | `split(sep)` gives one more piece than there are separators, so never zero pieces |
| PyStr.SplitPieces | recentrifuge/generic.py:148-149 | `split(':')` has a second piece exactly when the token holds a colon |
| PyStr.SplitWsContents | recentrifuge/generic.py:141 | the tokens of `split()` hold exactly the non-space characters of the input, in order |
| PyStr.SplitWsJoin | recentrifuge/generic.py:141 | splitting space-joined non-empty space-free tokens gives back the tokens |
| PyStr.RemoveFirst | recentrifuge/generic.py:142-145 | `list.remove` drops only the first occurrence, keeps the list when the value is absent, and removes exactly one copy from the multiset |
| PyStr.UpperKeeps | recentrifuge/generic.py:46 | `upper()` leaves a string without lower-case ASCII letters unchanged |
| PyStr.UpperIsWord | recentrifuge/generic.py:46 | `upper()` gives an upper-case ASCII word exactly for the strings that spell it in any mix of ASCII cases |
| PyStr.IntRoundTrip | recentrifuge/generic.py:51 | `int()` reads back the decimal rendering of every integer, negative ones included |
| PyStr.ParseIntChars | recentrifuge/generic.py:134 | every character of a segment `int()` accepts is whitespace `int()` skips, a sign, a digit or an underscore, so never one of U+001C to U+001F, which `strip()` would remove |
| PyStr.ParseIntRejectsSeparator | recentrifuge/generic.py:134 | `int()` rejects any text holding one of U+001C to U+001F |
| PyStr.ParseIntSeparator | recentrifuge/generic.py:134 | `int()` reads `\t100\n` as 100 and rejects `100` followed by U+001C, which `strip()` reduces to `100` |
| FormatSpec.Pairs | recentrifuge/generic.py:37-39 | the blocks become (key, value) pairs in order; the first block without a colon raises, naming that block |
| FormatSpec.LastPairWins | recentrifuge/generic.py:38-39 | in the comprehension's dictionary a key maps to the value of its last pair, so a later duplicate overrides an earlier one |
| FormatSpec.TableKeys | recentrifuge/generic.py:38-39 | the dictionary's keys are exactly the keys of the pairs |
| FormatSpec.FromTable | recentrifuge/generic.py:40-78 | a successful construction had all five keys; TID, LEN and SCO are the integers `int()` reads from their values; UNC is kept verbatim; TYP is the upper-cased name looked up among CSV and TSV |
| FormatSpec.ParseSpecifier | recentrifuge/generic.py:37-78 | the constructor raises on the first block without a colon, naming it, and succeeds only when each of the five mandatory keys is the key of some block |
| FormatSpec.MissingKeyRaises | recentrifuge/generic.py:40-44 | a missing TYP, TID, LEN, SCO or UNC key makes the constructor raise |
| FormatSpec.NonIntegerColumnRaises | recentrifuge/generic.py:50-73 | a TID, LEN or SCO value that `int()` rejects makes the constructor raise |
| FormatSpec.UnknownTypeIsNotFatal | recentrifuge/generic.py:45-49 | an unknown TYP name does not raise; it leaves the type unset |
| FormatSpec.TypeNameCaseless | recentrifuge/generic.py:45-49 | a TYP value selects CSV exactly when it spells `csv` in any mix of cases, TSV likewise, and any other value selects no layout |
| FormatSpec.RenderRoundTrip | recentrifuge/generic.py:37-78 | parsing the canonical specifier of any format with a type and a plain UNC value gives that format back |
| KrakenLine.ParseInts | recentrifuge/generic.py:134 | `map(int, ...)` succeeds exactly when every piece parses, and then gives each piece's integer in order |
| KrakenLine.LengthOfSegments | recentrifuge/generic.py:134 | the length of a field made of `|`-joined integers is their sum |
| KrakenLine.PairedLength | recentrifuge/generic.py:134 | `a|b` has length `a + b` (so `50|50` has length 100) |
| KrakenLine.ParseToken | recentrifuge/generic.py:148-149 | a token succeeds exactly when it has a colon and its second piece is an integer, and then yields (first piece, that integer); without a colon it fails as a missing count, otherwise as a bad count |
| KrakenLine.TokenRoundTrip | recentrifuge/generic.py:148-149 | a colon-free taxid, a colon and a decimal integer read back as that (taxid, count) pair |
| KrakenLine.ParseTokens | recentrifuge/generic.py:147-149 | the tokens parse in order; the first bad token decides the error; on success each pair is its token's |
| KrakenLine.TallyOwn | recentrifuge/generic.py:146-151 | the counter's value for a taxid is the sum of that taxid's counts over all pairs, 0 when it is absent |
| KrakenLine.TallyTotal | recentrifuge/generic.py:146-152 | the sum of the counter's values is the sum of all counts |
| KrakenLine.ParseRecord | recentrifuge/generic.py:133-159 | a five-field line is never malformed, and it is a bad-length skip exactly when its length does not parse |
| KrakenLine.ParseLine | recentrifuge/generic.py:124-159 | a line is skipped as malformed exactly when it does not split into five tab fields; it aborts the reader only after its length parsed and its flag is not the marker, with a missing k-mer count or a zero k-mer total; a classified read has the line's taxid and its parsed length |
| KrakenLine.SeparatorInLength | recentrifuge/generic.py:134 | a one-segment length holding one of U+001C to U+001F does not parse |
| KrakenLine.LineFromParts | recentrifuge/generic.py:124-152 | a five-field line whose flag is not the marker, whose length parses and whose tokens all parse is scored from its own taxid, length and pairs |
| KrakenLine.ExampleLine | recentrifuge/generic.py:124-161 | the line `C`, `r1`, `9606`, `100`, `9606:70` with any other marker is a classified read of 9606, length 100, `shel` 70 plus the k-mer size, score 100 |
| KrakenLine.SeparatorLineSkipped | recentrifuge/generic.py:124-159 | the line `C`, `r1`, `9606`, `100` followed by U+001C, `9606:70` splits into five fields and is skipped for its length |
| KrakenLine.WrongFieldCountIff | recentrifuge/generic.py:124-132 | a line is skipped as malformed exactly when its stripped text does not split into five tab fields |
| KrakenLine.BadLengthIff | recentrifuge/generic.py:133-134 | a five-field line is skipped for its length exactly when the length does not parse |
| KrakenLine.UnclassifiedIff | recentrifuge/generic.py:134-139 | a line is unclassified exactly when it has five fields, its length parses and its flag equals the marker |
| KrakenLine.TokenErrors | recentrifuge/generic.py:147-149 | the first bad k-mer token aborts the reader when it has no colon, and otherwise skips the line keeping its length |
| KrakenLine.ClassifyScores | recentrifuge/generic.py:151-153 | a zero k-mer total aborts; otherwise `shel` is the own count plus the k-mer size and the score is the own count's percentage of the total |
| KrakenLine.ScoreIsPercentage | recentrifuge/generic.py:152-153 | with non-negative counts the relative score lies between 0 and 100 |
| KrakenLine.ClassifiedLine | recentrifuge/generic.py:123-153 | a classified line has five fields, a flag other than the marker and a parsing length, and its read's scores come from its parsed k-mer pairs |
| Accumulation.Accumulate | recentrifuge/generic.py:167-178 | appending retained reads keeps the three dictionaries on the same keys as the insertion order, with equal, non-empty lists per key |
| Accumulation.AppendValid | recentrifuge/generic.py:167-178 | one append keeps that lockstep invariant |
| Accumulation.AccumulateProjects | recentrifuge/generic.py:167-178 | a taxon has lists exactly when it has a retained read; they are the `shel` values, relative scores and lengths of its reads, in order |
| Accumulation.AppendEntries | recentrifuge/generic.py:167-178 | one append adds exactly one entry to the list sizes' sum |
| Accumulation.EntriesCount | recentrifuge/generic.py:189 | `filt_seqs` equals the number of retained reads |
| Scores.MeanBetween | recentrifuge/generic.py:218 | a mean lies between any bounds of its values |
| Scores.ShelScoreWithin | recentrifuge/generic.py:217-218 | under SHEL a taxon's score lies between any bounds of its `shel` values, such as their smallest and largest |
| Scores.PolicyScoreFails | recentrifuge/generic.py:217-232 | one taxon's score raises exactly under LOGLENGTH with a mean length that is not positive and under NORMA with a mean length of 0, naming the taxon; a NORMA score times the mean length is 100 times the mean `shel` |
| Scores.SelectScores | recentrifuge/generic.py:216-235 | the scores have the accumulated taxa as keys, and a raised error is the error of some taxon's score |
| Scores.ScoresFromFails | recentrifuge/generic.py:216-235 | the comprehension raises exactly when some taxon's score raises, and then with the error of the first failing taxon in order |
| Scores.ScoresFromValues | recentrifuge/generic.py:216-235 | when the comprehension succeeds, every taxon is a key and each key's value is that taxon's score under the policy |
| Scores.SelectedKeys | recentrifuge/generic.py:216-232 | the output scores have exactly the accumulated taxa as keys |
| Scores.PlainPoliciesSucceed | recentrifuge/generic.py:217-222 | SHEL, KRAKEN and LENGTH never raise |
| Scores.PlainPolicyValues | recentrifuge/generic.py:217-222 | SHEL, KRAKEN and LENGTH give the means of the `shel`, relative-score and length lists |
| Scores.SelectFails | recentrifuge/generic.py:216-232 | the selection raises exactly when some taxon's score does |
| Scores.NormaFails | recentrifuge/generic.py:226-232 | NORMA raises exactly when some taxon's mean length is 0 |
| Scores.LogLengthFails | recentrifuge/generic.py:223-225 | LOGLENGTH raises exactly when some taxon's mean length is not positive |
| Scores.NormaFromShelAndLength | recentrifuge/generic.py:226-232 | a NORMA score is the SHEL score divided by the LENGTH score, times 100 |
| Scores.LogLengthFromLength | recentrifuge/generic.py:223-225 | a LOGLENGTH score is `log10` of the LENGTH score |
| Scores.ShelExample | recentrifuge/generic.py:217-218 | `shel` values 80 and 120 for taxon 9606 under SHEL give `{9606: 100}` |
| Scan.Apply | recentrifuge/generic.py:123-178 | a skipped line sets `error_read` to `num_read + 1`, any other keeps it; only lines whose length parsed count in `num_read` and `nt_read`; only unclassified ones in `num_uncl`; the dictionaries stay in lockstep |
| Scan.ScanWithIsRun | recentrifuge/generic.py:123-178 | the loop raises the first line's error or ends in the state the lines' outcomes lead to |
| Scan.OutcomesWithLines | recentrifuge/generic.py:123-159 | each outcome is that of its own line |
| Scan.RunCounters | recentrifuge/generic.py:131-138 | `num_read`, `nt_read` and `num_uncl` are the counts of lines with a parsed length, their lengths' sum, and the unclassified ones |
| Scan.RunDictionaries | recentrifuge/generic.py:160-178 | the dictionaries are those of the classified reads that pass the filter, in order |
| Scan.ErrorMarkBound | recentrifuge/generic.py:131-181 | `error_read` never exceeds `num_read + 1` |
| Scan.TruncatedIffLastSkipped | recentrifuge/generic.py:181-182 | the truncation warning fires exactly when the last data line was skipped |
| Scan.CountedSplit | recentrifuge/generic.py:135-139 | the classified reads number at most `num_read - num_uncl` |
| Scan.PassedAtMostClassified | recentrifuge/generic.py:189 | `filt_seqs <= num_read - num_uncl` |
| Scan.NoMinscoreKeepsAll | recentrifuge/generic.py:160 | without a minimum score every classified read is retained |
| Scan.FilteredMembers | recentrifuge/generic.py:160-166 | a read is retained exactly when it is classified and its metric (score under KRAKEN, `shel` otherwise) reaches the minimum |
| Scan.RaisedMinscore | recentrifuge/generic.py:160-166 | raising the minimum score retains a sub-list of what the lower one retained, never more reads |
| Scan.ApplyDictionaries | recentrifuge/generic.py:137-178 | only a classified read that passes the filter touches the dictionaries, appending itself |
| Reader.ReadIsRun | recentrifuge/generic.py:113-191 | after a good header, reading is the scan's error or the end checks on the run of the lines' outcomes |
| Reader.ReadGenericOutput | recentrifuge/generic.py:85-237 | a result comes from a file whose header has five tab fields, has read and retained at least one sequence, and has counts and scores for the same taxa |
| Reader.Finish | recentrifuge/generic.py:181-235 | after the scan, a result has read and retained something and has counts and scores keyed by the dictionaries' taxa; an error is "no sequence read", "no sequence passed" or a taxon's score error |
| Reader.HeaderChecked | recentrifuge/generic.py:114-122 | a header that does not split into five tab fields raises, whatever follows |
| Reader.EmptyFileUnsupported | recentrifuge/generic.py:114-122 | an empty file raises the unsupported-format error |
| Reader.ReadErrorsInOrder | recentrifuge/generic.py:123-191 | after a good header, the scan's error comes first, then "no sequence read", then "no sequence passed" |
| Reader.OutputStats | recentrifuge/generic.py:131-191 | a successful read reports the reference counters, `0 < filt_seqs <= num_read - num_uncl`, and the warning exactly when the last line was skipped |
| Reader.FinishStats | recentrifuge/generic.py:181-197 | after any run that ends well, the statistics are the reference counters, `0 < filt_seqs <= num_read - num_uncl`, and the warning exactly when the last line was skipped |
| Reader.FinishTaxa | recentrifuge/generic.py:183-232 | counts and scores have exactly the taxa with a retained read; a count is that taxon's number of reads; a score is the policy's score of its reads |
| Reader.OutputTaxa | recentrifuge/generic.py:183-232 | the same, for the whole reader |
| Reader.HeaderOnly | recentrifuge/generic.py:186-188 | a file holding only a good header raises "no sequence read" |
| Reader.OnlyUnclassified | recentrifuge/generic.py:137-139 | a single unclassified data line ends in "no sequence passed" |
| Reader.SingleClassified | recentrifuge/generic.py:123-237 | a single classified line that passes the filter is read as one read, one taxon counted once and scored by its `shel` under SHEL |
| AsWritten.ScanWithFlag | recentrifuge/generic.py:123-139 | as written, the loop raises NameError exactly when some line reaches the comparison with `UNCLASSIFIED` |
| AsWritten.ReadAsWritten | recentrifuge/generic.py:85-191 | as written, the reader never returns; it raises NameError exactly when a good header is followed by a line whose length parses |
| AsWritten.ClassifiedLineRaises | recentrifuge/generic.py:137 | one classified line makes the written reader raise NameError, while the reader with the names supplied returns its taxon |
| AsWritten.ClaimInstance | recentrifuge/generic.py:123-237 | a good header and the line `C`, `r1`, `9606`, `100`, `9606:70` make the written reader raise NameError, while the reader with the names supplied returns one read of length 100 and `{9606: 1}`, scored 70 plus the k-mer size |

## Left out

- Opening the file, `FileNotFoundError` and the `with` scope: I/O. The
  file is given as its lines.
- Line ends: lines are given without them. The newline the header keeps
  in Python does not change its tab split, and data lines are stripped.
- The coloured messages, the `StringIO` log and the report text:
  presentation only.
- `SampleStats`: its class is in recentrifuge/stats.py, which is not part
  of this model. The reader's output carries the counters handed to it
  instead.
- `log10` is a function parameter, not the floating-point logarithm.
  Only its domain error is modelled.
- Floating point: scores and means are exact reals.
- `select_kraken_inputs`: a directory scan.
- The `format` parameter of `read_generic_output`, which the reader never
  uses.
- `GenericFormat.__str__`: message text.
- `Scores.Scoring`: it lists only the five policies the reader supports.
  Python's `Scoring` enumeration lives in recentrifuge/config.py, which is
  not part of this model. Any other member of it reaches the "Unsupported
  scoring" error, and that error is not modelled.
- `PyStr.ParseInt`: `int()` on ASCII digits only, with an optional sign
  and single underscores between digits. Other Unicode decimal digits are
  not accepted. The limit of 4300 digits that Python 3.11 and later put on
  `int()` of a string is not modelled: longer digit runs parse here.
- `PyStr.Upper`: ASCII only. Characters outside ASCII that Python
  upper-cases (for example U+017F) are not mapped.
- `FormatSpec.MissingKeyRaises`: states that the constructor raises, not
  which message it prints first.

## Findings

| source | as written | input that shows it | evidently intended | confidence | as-written member | corrected member |
|---|---|---|---|---|---|---|
| recentrifuge/generic.py:14,137,151,161 | `UNCLASSIFIED`, `K_MER_SIZE` and `scoring` are used but neither defined nor imported in the module, so the first data line whose length parses raises NameError at line 137, and the reader never returns | a header with five tab fields followed by the line `C`, `r1`, `9606`, `100`, `9606:70` (tab-separated) | the three names are supplied (imported from the configuration, or passed in as `scoring` is in the docstring), and the reader returns that line's taxon | high; not executed | AsWritten.ClaimInstance | Reader.SingleClassified |
