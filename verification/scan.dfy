/** The loop of `read_generic_output` over the data lines: the counters,
    the truncation marker, the minimum-score filter and the accumulation. */
module Scan {
  import opened Wrappers
  import opened ReadErrors
  import opened KrakenLine
  import opened Accumulation
  import opened Scores

  /** The settings the loop reads: the unclassified marker, the k-mer size,
      the scoring policy and the optional minimum score. */
  datatype ScanParams = ScanParams(unclassified: string, kmerSize: int, scoring: Scoring, minscore: Option<real>)

  /** `num_read`, `nt_read`, `num_uncl`, `error_read` and the dictionaries. */
  datatype ScanState = ScanState(numRead: int, ntRead: int, numUncl: int, errorRead: int, acc: Accumulator)

  const Start := ScanState(0, 0, 0, -1, Empty)

  /** What the filter compares with the minimum score. */
  function Metric(scoring: Scoring, read: ClassifiedRead): real
  {
    if scoring == KRAKEN then read.score else read.shel
  }

  /** Whether a classified read passes the filter. */
  predicate Keep(p: ScanParams, read: ClassifiedRead)
  {
    p.minscore.None? || Metric(p.scoring, read) >= p.minscore.value
  }

  /** The effect of one line on the loop state. A skipped line leaves
      `error_read` one past `num_read`; only lines whose length parsed are
      counted, and only unclassified ones in `num_uncl`. */
  function Apply(st: ScanState, o: LineOutcome, p: ScanParams): (r: ScanState)
    requires Valid(st.acc)
    ensures Valid(r.acc)
    ensures Skipped(o) ==> r.errorRead == r.numRead + 1
    ensures !Skipped(o) ==> r.errorRead == st.errorRead
    ensures r.numRead == st.numRead + (if Counted(o) then 1 else 0)
    ensures r.ntRead == st.ntRead + LengthOf(o)
    ensures r.numUncl == st.numUncl + (if o.Unclassified? then 1 else 0)
  {
    match o
    case WrongFieldCount => st.(errorRead := st.numRead + 1)
    case BadLength => st.(errorRead := st.numRead + 1)
    case Unclassified(n) => st.(numRead := st.numRead + 1, ntRead := st.ntRead + n, numUncl := st.numUncl + 1)
    case BadCount(n) => st.(numRead := st.numRead + 1, ntRead := st.ntRead + n, errorRead := st.numRead + 2)
    case Classified(read) =>
      var counted := st.(numRead := st.numRead + 1, ntRead := st.ntRead + read.length);
      if Keep(p, read) then
        AppendValid(st.acc, read);
        counted.(acc := Append(st.acc, read))
      else counted
  }

  /** The parser of one data line under the given settings. */
  function LineParser(p: ScanParams): string -> Result<LineOutcome, ReadError>
  {
    (raw: string) => ParseLine(raw, p.unclassified, p.kmerSize)
  }

  /** The loop over the data lines, given the line parser: a line that
      raises ends it. */
  function ScanWith(lines: seq<string>, p: ScanParams, parse: string -> Result<LineOutcome, ReadError>)
    : (r: Result<ScanState, ReadError>)
    ensures r.Success? ==> Valid(r.value.acc)
  {
    if |lines| == 0 then Success(Start)
    else
      var st :- ScanWith(lines[..|lines| - 1], p, parse);
      var o :- parse(lines[|lines| - 1]);
      Success(Apply(st, o, p))
  }

  /** The loop of `read_generic_output` over its data lines. */
  function ScanLines(lines: seq<string>, p: ScanParams): (r: Result<ScanState, ReadError>)
    ensures r.Success? ==> Valid(r.value.acc)
  {
    ScanWith(lines, p, LineParser(p))
  }

  // ------------------------------------------------------------ decomposition

  /** The outcome of every line, or the error of the first line that raises. */
  function OutcomesWith(lines: seq<string>, parse: string -> Result<LineOutcome, ReadError>)
    : (r: Result<seq<LineOutcome>, ReadError>)
    ensures r.Success? ==> |r.value| == |lines|
  {
    if |lines| == 0 then Success([])
    else
      var os :- OutcomesWith(lines[..|lines| - 1], parse);
      var o :- parse(lines[|lines| - 1]);
      Success(os + [o])
  }

  function Outcomes(lines: seq<string>, p: ScanParams): (r: Result<seq<LineOutcome>, ReadError>)
    ensures r.Success? ==> |r.value| == |lines|
  {
    OutcomesWith(lines, LineParser(p))
  }

  /** The loop state after the given outcomes. */
  function Run(os: seq<LineOutcome>, p: ScanParams): (st: ScanState)
    ensures Valid(st.acc)
  {
    if |os| == 0 then Start else Apply(Run(os[..|os| - 1], p), os[|os| - 1], p)
  }

  lemma {:induction false} ScanWithIsRun(lines: seq<string>, p: ScanParams, parse: string -> Result<LineOutcome, ReadError>)
    ensures ScanWith(lines, p, parse).Success? <==> OutcomesWith(lines, parse).Success?
    ensures ScanWith(lines, p, parse).Failure? ==> ScanWith(lines, p, parse).error == OutcomesWith(lines, parse).error
    ensures ScanWith(lines, p, parse).Success? ==> ScanWith(lines, p, parse).value == Run(OutcomesWith(lines, parse).value, p)
    decreases |lines|
  {
    if |lines| > 0 {
      var front := lines[..|lines| - 1];
      ScanWithIsRun(front, p, parse);
      var r := OutcomesWith(lines, parse);
      if r.Success? {
        var os := OutcomesWith(front, parse).value;
        assert r.value[..|os|] == os;
      }
    }
  }

  /** The loop is the fold of the line outcomes; it raises exactly when a
      line does, with the error of the first such line. */
  lemma ScanIsRun(lines: seq<string>, p: ScanParams)
    ensures ScanLines(lines, p).Success? <==> Outcomes(lines, p).Success?
    ensures ScanLines(lines, p).Failure? ==> ScanLines(lines, p).error == Outcomes(lines, p).error
    ensures ScanLines(lines, p).Success? ==> ScanLines(lines, p).value == Run(Outcomes(lines, p).value, p)
  {
    ScanWithIsRun(lines, p, LineParser(p));
  }

  lemma {:induction false} OutcomesWithLines(lines: seq<string>, parse: string -> Result<LineOutcome, ReadError>, i: nat)
    requires OutcomesWith(lines, parse).Success? && i < |lines|
    ensures parse(lines[i]) == Success(OutcomesWith(lines, parse).value[i])
    decreases |lines|
  {
    if i < |lines| - 1 {
      OutcomesWithLines(lines[..|lines| - 1], parse, i);
    }
  }

  /** A single line's outcome list is that line's outcome. */
  lemma OutcomesWithOne(line: string, parse: string -> Result<LineOutcome, ReadError>)
    requires parse(line).Success?
    ensures OutcomesWith([line], parse) == Success([parse(line).value])
  {
    assert [line][..0] == [];
    assert OutcomesWith([], parse) == Success([]);
    assert [] + [parse(line).value] == [parse(line).value];
  }

  // ---------------------------------------------------------------- reference

  predicate Counted(o: LineOutcome) {
    o.Unclassified? || o.BadCount? || o.Classified?
  }

  /** A line skipped with an error message. */
  predicate Skipped(o: LineOutcome) {
    o.WrongFieldCount? || o.BadLength? || o.BadCount?
  }

  function LengthOf(o: LineOutcome): int
  {
    match o
    case Unclassified(n) => n
    case BadCount(n) => n
    case Classified(read) => read.length
    case _ => 0
  }

  /** The lines counted as read: those whose length parsed. */
  function NumRead(os: seq<LineOutcome>): nat
  {
    if |os| == 0 then 0 else NumRead(os[..|os| - 1]) + (if Counted(os[|os| - 1]) then 1 else 0)
  }

  /** The nucleotides of the counted lines. */
  function NtRead(os: seq<LineOutcome>): int
  {
    if |os| == 0 then 0 else NtRead(os[..|os| - 1]) + LengthOf(os[|os| - 1])
  }

  function NumUncl(os: seq<LineOutcome>): nat
  {
    if |os| == 0 then 0 else NumUncl(os[..|os| - 1]) + (if os[|os| - 1].Unclassified? then 1 else 0)
  }

  /** The classified reads, in order. */
  function ClassifiedReads(os: seq<LineOutcome>): seq<ClassifiedRead>
  {
    if |os| == 0 then []
    else ClassifiedReads(os[..|os| - 1]) + (if os[|os| - 1].Classified? then [os[|os| - 1].read] else [])
  }

  /** The reads that pass the filter, in order. */
  function Filtered(xs: seq<ClassifiedRead>, p: ScanParams): seq<ClassifiedRead>
  {
    if |xs| == 0 then []
    else Filtered(xs[..|xs| - 1], p) + (if Keep(p, xs[|xs| - 1]) then [xs[|xs| - 1]] else [])
  }

  /** The loop counters match the reference counts. */
  lemma {:induction false} RunCounters(os: seq<LineOutcome>, p: ScanParams)
    ensures var st := Run(os, p);
            && st.numRead == NumRead(os)
            && st.ntRead == NtRead(os)
            && st.numUncl == NumUncl(os)
    decreases |os|
  {
    if |os| > 0 {
      RunCounters(os[..|os| - 1], p);
    }
  }

  /** The dictionaries are those of the classified reads that pass the filter. */
  lemma {:induction false} RunDictionaries(os: seq<LineOutcome>, p: ScanParams)
    ensures Run(os, p).acc == Accumulate(Filtered(ClassifiedReads(os), p))
    decreases |os|
  {
    if |os| == 0 {
      assert Filtered(ClassifiedReads(os), p) == [];
    } else {
      var front := os[..|os| - 1];
      var o := os[|os| - 1];
      var st := Run(front, p);
      RunDictionaries(front, p);
      var ys := Filtered(ClassifiedReads(front), p);
      assert st.acc == Accumulate(ys);
      assert Run(os, p) == Apply(st, o, p);
      ApplyDictionaries(st, o, p);
      var kept := o.Classified? && Keep(p, o.read);
      if kept {
        assert ClassifiedReads(os) == ClassifiedReads(front) + [o.read];
        FilteredSnoc(ClassifiedReads(front), o.read, p);
        assert Filtered(ClassifiedReads(os), p) == ys + [o.read];
        AccumulateSnoc(ys, o.read);
      } else {
        if o.Classified? {
          assert ClassifiedReads(os) == ClassifiedReads(front) + [o.read];
          FilteredSnoc(ClassifiedReads(front), o.read, p);
        } else {
          assert ClassifiedReads(os) == ClassifiedReads(front);
        }
        assert Filtered(ClassifiedReads(os), p) == ys;
      }
    }
  }

  lemma AccumulateSnoc(ys: seq<ClassifiedRead>, x: ClassifiedRead)
    ensures Accumulate(ys + [x]) == Append(Accumulate(ys), x)
  {
    assert (ys + [x])[..|ys|] == ys;
  }

  lemma FilteredSnoc(xs: seq<ClassifiedRead>, x: ClassifiedRead, p: ScanParams)
    ensures Filtered(xs + [x], p) == Filtered(xs, p) + (if Keep(p, x) then [x] else [])
  {
    assert (xs + [x])[..|xs|] == xs;
  }

  /** `error_read` never runs ahead of `num_read + 1`. */
  lemma {:induction false} ErrorMarkBound(os: seq<LineOutcome>, p: ScanParams)
    ensures Run(os, p).errorRead <= Run(os, p).numRead + 1
    decreases |os|
  {
    if |os| > 0 {
      ErrorMarkBound(os[..|os| - 1], p);
    }
  }

  /** The "seems truncated" warning: `error_read == num_read + 1` at the end. */
  predicate Truncated(st: ScanState) {
    st.errorRead == st.numRead + 1
  }

  /** The warning fires exactly when the last data line was skipped with an
      error. */
  lemma TruncatedIffLastSkipped(os: seq<LineOutcome>, p: ScanParams)
    ensures Truncated(Run(os, p)) <==> |os| > 0 && Skipped(os[|os| - 1])
  {
    if |os| > 0 {
      ErrorMarkBound(os[..|os| - 1], p);
    }
  }

  /** The classified reads, the unclassified ones and those with a bad
      count together make up the reads counted. */
  lemma {:induction false} CountedSplit(os: seq<LineOutcome>)
    ensures |ClassifiedReads(os)| <= NumRead(os) - NumUncl(os)
    decreases |os|
  {
    if |os| > 0 {
      CountedSplit(os[..|os| - 1]);
    }
  }

  lemma {:induction false} FilteredShorter(xs: seq<ClassifiedRead>, p: ScanParams)
    ensures |Filtered(xs, p)| <= |xs|
    decreases |xs|
  {
    if |xs| > 0 {
      FilteredShorter(xs[..|xs| - 1], p);
    }
  }

  /** `filt_seqs <= num_read - num_uncl`. */
  lemma PassedAtMostClassified(os: seq<LineOutcome>, p: ScanParams)
    ensures Entries(Run(os, p).acc) <= Run(os, p).numRead - Run(os, p).numUncl
  {
    RunCounters(os, p);
    RunDictionaries(os, p);
    EntriesCount(Filtered(ClassifiedReads(os), p));
    FilteredShorter(ClassifiedReads(os), p);
    CountedSplit(os);
  }

  /** Without a minimum score every classified read is kept. */
  lemma {:induction false} NoMinscoreKeepsAll(xs: seq<ClassifiedRead>, p: ScanParams)
    requires p.minscore.None?
    ensures Filtered(xs, p) == xs
    decreases |xs|
  {
    if |xs| > 0 {
      NoMinscoreKeepsAll(xs[..|xs| - 1], p);
    }
  }

  /** A read is kept exactly when its metric reaches the minimum score. */
  lemma {:induction false} FilteredMembers(xs: seq<ClassifiedRead>, p: ScanParams, read: ClassifiedRead)
    ensures read in Filtered(xs, p) <==> read in xs && Keep(p, read)
    decreases |xs|
  {
    if |xs| > 0 {
      FilteredMembers(xs[..|xs| - 1], p, read);
      assert xs == xs[..|xs| - 1] + [xs[|xs| - 1]];
    }
  }

  /** Raising the minimum score keeps a subsequence: filtering with the
      higher one is filtering again what the lower one kept. */
  lemma {:induction false} RaisedMinscore(xs: seq<ClassifiedRead>, p: ScanParams, lo: real, hi: real)
    requires lo <= hi
    ensures Filtered(xs, p.(minscore := Some(hi))) == Filtered(Filtered(xs, p.(minscore := Some(lo))), p.(minscore := Some(hi)))
    ensures |Filtered(xs, p.(minscore := Some(hi)))| <= |Filtered(xs, p.(minscore := Some(lo)))|
    decreases |xs|
  {
    var ph := p.(minscore := Some(hi));
    var pl := p.(minscore := Some(lo));
    if |xs| > 0 {
      var front := xs[..|xs| - 1];
      var x := xs[|xs| - 1];
      assert xs == front + [x];
      RaisedMinscore(front, p, lo, hi);
      var ys := Filtered(front, pl);
      FilteredSnoc(front, x, ph);
      FilteredSnoc(front, x, pl);
      assert Filtered(xs, ph) == Filtered(front, ph) + (if Keep(ph, x) then [x] else []);
      if Keep(pl, x) {
        assert Filtered(xs, pl) == ys + [x];
        FilteredSnoc(ys, x, ph);
      } else {
        assert Filtered(xs, pl) == ys;
        assert !Keep(ph, x);
      }
    }
    FilteredShorter(Filtered(xs, pl), ph);
  }

  /** A line that is skipped, or is unclassified, leaves the dictionaries
      alone; a classified read is appended exactly when it passes. */
  lemma ApplyDictionaries(st: ScanState, o: LineOutcome, p: ScanParams)
    requires Valid(st.acc)
    ensures !o.Classified? ==> Apply(st, o, p).acc == st.acc
    ensures o.Classified? ==> Apply(st, o, p).acc == if Keep(p, o.read) then Append(st.acc, o.read) else st.acc
  {
  }
}
