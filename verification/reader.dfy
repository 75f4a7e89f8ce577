/** `read_generic_output` end to end: the header check, the scan, the
    empty-result errors and the score selection. */
module Reader {
  import opened Wrappers
  import opened PyStr
  import opened ReadErrors
  import opened KrakenLine
  import opened Accumulation
  import opened Scores
  import opened Scan

  /** The figures the reader hands to its statistics, and the warning flag. */
  datatype Stats = Stats(numRead: int, ntRead: int, numUncl: int, filtSeqs: int, truncated: bool)

  /** The statistics, `counts` and `out_scores`. */
  datatype Output = Output(stats: Stats, counts: map<string, int>, scores: map<string, real>)

  /** `file.readline()`: the first line, or the empty string for an empty file. */
  function Header(lines: seq<string>): string
  {
    if |lines| == 0 then "" else lines[0]
  }

  /** The data lines after the header. */
  function Body(lines: seq<string>): seq<string>
  {
    if |lines| == 0 then [] else lines[1..]
  }

  /** The steps after the scan: the two empty-result errors, then the
      score selection. A result has read and retained something, and counts
      and scores for the same taxa, those of the dictionaries. */
  function Finish(st: ScanState, p: ScanParams, log10: real -> real): (r: Result<Output, ReadError>)
    requires Valid(st.acc)
    ensures r.Success? ==> && r.value.stats.numRead != 0 && r.value.stats.filtSeqs != 0
                           && r.value.counts.Keys == st.acc.scores.Keys
                           && r.value.scores.Keys == st.acc.scores.Keys
    ensures r.Failure? ==> || r.error == NoSequenceRead || r.error == NoSequencePassed
                           || r.error.ZeroMeanLength? || r.error.LogDomain?
  {
    if st.numRead == 0 then Failure(NoSequenceRead)
    else
      var filt := Entries(st.acc);
      if filt == 0 then Failure(NoSequencePassed)
      else
        var scores :- SelectScores(st.acc, p.scoring, log10);
        Success(Output(Stats(st.numRead, st.ntRead, st.numUncl, filt, Truncated(st)), Counts(st.acc), scores))
  }

  /** `read_generic_output`. A result comes from a file with a good header,
      has read and retained something, and has counts and scores for the
      same taxa. */
  function ReadGenericOutput(lines: seq<string>, p: ScanParams, log10: real -> real): (r: Result<Output, ReadError>)
    ensures r.Success? ==> && |Split(Header(lines), '\t')| == 5
                           && r.value.stats.numRead != 0 && r.value.stats.filtSeqs != 0
                           && r.value.counts.Keys == r.value.scores.Keys
  {
    if |Split(Header(lines), '\t')| != 5 then Failure(UnsupportedFormat)
    else
      var st :- ScanLines(Body(lines), p);
      Finish(st, p, log10)
  }

  /** With a well-formed header, reading is finishing the run of the data
      lines' outcomes. */
  lemma ReadIsRun(lines: seq<string>, p: ScanParams, log10: real -> real)
    requires |Split(Header(lines), '\t')| == 5
    ensures var os := Outcomes(Body(lines), p);
            && (os.Failure? ==> ReadGenericOutput(lines, p, log10) == Failure(os.error))
            && (os.Success? ==> Valid(Run(os.value, p).acc)
                                && ReadGenericOutput(lines, p, log10) == Finish(Run(os.value, p), p, log10))
  {
    ScanIsRun(Body(lines), p);
  }

  // ---------------------------------------------------------------- properties

  /** A header that does not split into five tab fields raises before any
      data line is read; an empty file is such a case. */
  lemma HeaderChecked(lines: seq<string>, p: ScanParams, log10: real -> real)
    requires |Split(Header(lines), '\t')| != 5
    ensures ReadGenericOutput(lines, p, log10) == Failure(UnsupportedFormat)
  {
  }

  lemma EmptyFileUnsupported(p: ScanParams, log10: real -> real)
    ensures ReadGenericOutput([], p, log10) == Failure(UnsupportedFormat)
  {
    SplitNoSep("", '\t');
  }

  /** With a well-formed header, the reader raises the scan's error, or
      NoSequenceRead when no length parsed, or NoSequencePassed when no read
      passed the filter, in that order. */
  lemma ReadErrorsInOrder(lines: seq<string>, p: ScanParams, log10: real -> real)
    requires |Split(Header(lines), '\t')| == 5
    ensures var r := ReadGenericOutput(lines, p, log10);
            var os := Outcomes(Body(lines), p);
            && (os.Failure? ==> r == Failure(os.error))
            && (os.Success? && NumRead(os.value) == 0 ==> r == Failure(NoSequenceRead))
            && (os.Success? && NumRead(os.value) > 0 && |Filtered(ClassifiedReads(os.value), p)| == 0
                ==> r == Failure(NoSequencePassed))
  {
    ScanIsRun(Body(lines), p);
    var os := Outcomes(Body(lines), p);
    if os.Success? {
      RunCounters(os.value, p);
      RunDictionaries(os.value, p);
      EntriesCount(Filtered(ClassifiedReads(os.value), p));
    }
  }

  /** What a successful read reports: the reference counts of its data
      lines, `filt_seqs` between 1 and `num_read - num_uncl`, and the
      truncation warning exactly when the last data line was skipped. */
  lemma FinishStats(os: seq<LineOutcome>, p: ScanParams, log10: real -> real)
    requires Finish(Run(os, p), p, log10).Success?
    ensures var stats := Finish(Run(os, p), p, log10).value.stats;
            && stats.numRead == NumRead(os) > 0
            && stats.ntRead == NtRead(os)
            && stats.numUncl == NumUncl(os)
            && stats.filtSeqs == |Filtered(ClassifiedReads(os), p)|
            && 0 < stats.filtSeqs <= stats.numRead - stats.numUncl
            && (stats.truncated <==> Skipped(os[|os| - 1]))
  {
    var st := Run(os, p);
    var stats := Finish(st, p, log10).value.stats;
    assert stats == Stats(st.numRead, st.ntRead, st.numUncl, Entries(st.acc), Truncated(st));
    RunCounters(os, p);
    RunDictionaries(os, p);
    EntriesCount(Filtered(ClassifiedReads(os), p));
    PassedAtMostClassified(os, p);
    TruncatedIffLastSkipped(os, p);
  }

  lemma OutputStats(lines: seq<string>, p: ScanParams, log10: real -> real)
    requires ReadGenericOutput(lines, p, log10).Success?
    ensures Outcomes(Body(lines), p).Success?
    ensures var os := Outcomes(Body(lines), p).value;
            var stats := ReadGenericOutput(lines, p, log10).value.stats;
            && stats.numRead == NumRead(os) > 0
            && stats.ntRead == NtRead(os)
            && stats.numUncl == NumUncl(os)
            && stats.filtSeqs == |Filtered(ClassifiedReads(os), p)|
            && 0 < stats.filtSeqs <= stats.numRead - stats.numUncl
            && (stats.truncated <==> Skipped(os[|os| - 1]))
  {
    ReadIsRun(lines, p, log10);
    FinishStats(Outcomes(Body(lines), p).value, p, log10);
  }

  /** `counts` and `out_scores` have the same taxa: those with a read that
      passed the filter. Each count is the number of such reads, and each
      score is the policy's score of their shel values, relative scores and
      lengths. */
  lemma FinishTaxa(os: seq<LineOutcome>, p: ScanParams, log10: real -> real, t: string)
    requires Finish(Run(os, p), p, log10).Success?
    ensures var own := Of(Filtered(ClassifiedReads(os), p), t);
            var out := Finish(Run(os, p), p, log10).value;
            && (t in out.counts <==> |own| > 0)
            && (t in out.scores <==> |own| > 0)
            && (|own| > 0 ==> t in out.counts && out.counts[t] == |own|)
            && (|own| > 0 ==>
                  && t in out.scores
                  && PolicyScore(Shels(own), RelScores(own), Lengths(own), p.scoring, log10, t)
                     == Success(out.scores[t]))
  {
    var retained := Filtered(ClassifiedReads(os), p);
    var st := Run(os, p);
    RunDictionaries(os, p);
    var acc := Accumulate(retained);
    assert st.acc == acc;
    var scores := SelectScores(acc, p.scoring, log10);
    assert Finish(st, p, log10).value == Output(Finish(st, p, log10).value.stats, Counts(acc), scores.value);
    AccumulateProjects(retained, t);
    SelectedKeys(acc, p.scoring, log10);
  }

  lemma OutputTaxa(lines: seq<string>, p: ScanParams, log10: real -> real, t: string)
    requires ReadGenericOutput(lines, p, log10).Success?
    ensures Outcomes(Body(lines), p).Success?
    ensures var own := Of(Filtered(ClassifiedReads(Outcomes(Body(lines), p).value), p), t);
            var out := ReadGenericOutput(lines, p, log10).value;
            && (t in out.counts <==> |own| > 0)
            && (t in out.scores <==> |own| > 0)
            && (|own| > 0 ==> t in out.counts && out.counts[t] == |own|)
            && (|own| > 0 ==>
                  && t in out.scores
                  && PolicyScore(Shels(own), RelScores(own), Lengths(own), p.scoring, log10, t)
                     == Success(out.scores[t]))
  {
    ReadIsRun(lines, p, log10);
    FinishTaxa(Outcomes(Body(lines), p).value, p, log10, t);
  }

  /** A file holding only its header raises NoSequenceRead. */
  lemma HeaderOnly(header: string, p: ScanParams, log10: real -> real)
    requires |Split(header, '\t')| == 5
    ensures ReadGenericOutput([header], p, log10) == Failure(NoSequenceRead)
  {
    assert Body([header]) == [];
  }

  lemma OnlyUnclassifiedRun(length: int, p: ScanParams, log10: real -> real)
    ensures Finish(Run([Unclassified(length)], p), p, log10) == Failure(NoSequencePassed)
  {
    var os := [Unclassified(length)];
    assert os[..0] == [];
    RunCounters(os, p);
    RunDictionaries(os, p);
    EntriesCount(Filtered(ClassifiedReads(os), p));
  }

  /** A file whose only data line is unclassified raises NoSequencePassed. */
  lemma OnlyUnclassified(header: string, line: string, p: ScanParams, log10: real -> real, length: int)
    requires |Split(header, '\t')| == 5
    requires ParseLine(line, p.unclassified, p.kmerSize) == Success(Unclassified(length))
    ensures ReadGenericOutput([header, line], p, log10) == Failure(NoSequencePassed)
  {
    var body := Body([header, line]);
    assert body == [line];
    assert LineParser(p)(line) == Success(Unclassified(length));
    OutcomesWithOne(line, LineParser(p));
    ReadIsRun([header, line], p, log10);
    OnlyUnclassifiedRun(length, p, log10);
  }

  /** The accumulator after one retained read. */
  function Single(read: ClassifiedRead): Accumulator
  {
    Accumulator([read.tid], map[read.tid := [read.shel]], map[read.tid := [read.score]], map[read.tid := [read.length]])
  }

  lemma SingleSummary(read: ClassifiedRead, log10: real -> real)
    ensures Valid(Single(read))
    ensures Entries(Single(read)) == 1
    ensures Counts(Single(read)) == map[read.tid := 1]
    ensures SelectScores(Single(read), SHEL, log10) == Success(map[read.tid := read.shel])
  {
    SingleValid(read);
    SingleEntries(read);
    SingleScore(read, log10);
  }

  lemma SingleValid(read: ClassifiedRead)
    ensures Valid(Single(read))
  {
    assert Single(read) == Append(Empty, read);
    AppendValid(Empty, read);
  }

  lemma SingleEntries(read: ClassifiedRead)
    requires Valid(Single(read))
    ensures Counts(Single(read)) == map[read.tid := 1]
    ensures Entries(Single(read)) == 1
  {
    var counts := Counts(Single(read));
    assert counts == map[read.tid := 1];
    assert SumValues(counts, [read.tid]) == SumValues(counts, []) + 1 by {
      assert [read.tid][..0] == [];
    }
  }

  lemma SingleScore(read: ClassifiedRead, log10: real -> real)
    requires Valid(Single(read))
    ensures SelectScores(Single(read), SHEL, log10) == Success(map[read.tid := read.shel])
  {
    var acc := Single(read);
    assert SumReal([read.shel]) == read.shel by {
      assert [read.shel][..0] == [];
    }
    assert TaxonScore(acc, SHEL, log10, read.tid) == Success(read.shel);
    assert ScoresFrom(acc, SHEL, log10, 1) == Success(map[]);
  }

  lemma SingleClassifiedRun(read: ClassifiedRead, p: ScanParams, log10: real -> real)
    requires Keep(p, read) && p.scoring == SHEL
    ensures Finish(Run([Classified(read)], p), p, log10)
            == Success(Output(Stats(1, read.length, 0, 1, false), map[read.tid := 1], map[read.tid := read.shel]))
  {
    SingleRun(read, p);
    SingleSummary(read, log10);
  }

  lemma SingleRun(read: ClassifiedRead, p: ScanParams)
    requires Keep(p, read)
    ensures Run([Classified(read)], p) == ScanState(1, read.length, 0, -1, Single(read))
  {
    var os := [Classified(read)];
    assert os[..0] == [];
    assert Run(os, p) == Apply(Start, Classified(read), p);
  }

  /** A file with one classified data line that passes the filter reads
      successfully: one read, one taxon counted once, scored by its `shel`. */
  lemma SingleClassified(header: string, line: string, p: ScanParams, log10: real -> real, read: ClassifiedRead)
    requires |Split(header, '\t')| == 5
    requires ParseLine(line, p.unclassified, p.kmerSize) == Success(Classified(read))
    requires Keep(p, read) && p.scoring == SHEL
    ensures ReadGenericOutput([header, line], p, log10)
            == Success(Output(Stats(1, read.length, 0, 1, false), map[read.tid := 1], map[read.tid := read.shel]))
  {
    var body := Body([header, line]);
    assert body == [line];
    assert LineParser(p)(line) == Success(Classified(read));
    OutcomesWithOne(line, LineParser(p));
    ReadIsRun([header, line], p, log10);
    SingleClassifiedRun(read, p, log10);
  }
}
