/** `read_generic_output` exactly as its module stands: `UNCLASSIFIED`,
    `K_MER_SIZE` and `scoring` are used but never defined or imported there,
    so the first data line whose length parses stops the reader with a
    NameError at the comparison with `UNCLASSIFIED`. */
module AsWritten {
  import opened Wrappers
  import opened PyStr
  import opened ReadErrors
  import opened KrakenLine
  import Scores
  import Scan
  import Reader

  /** A data line that gets as far as the comparison with `UNCLASSIFIED`:
      five tab fields and a length that parses. */
  predicate ReachesFlag(raw: string)
  {
    var fields := Fields(raw);
    |fields| == 5 && ParseLength(fields[3]).Some?
  }

  /** The loop as it runs, given which lines reach the comparison: every
      other line is skipped, so `num_read` stays 0; the result is the final
      `error_read`, or the NameError. */
  function ScanWithFlag(lines: seq<string>, reaches: string -> bool): (r: Result<int, ReadError>)
    ensures r.Failure? <==> exists i :: 0 <= i < |lines| && reaches(lines[i])
    ensures r.Failure? ==> r.error == UndefinedName("UNCLASSIFIED")
    ensures r.Success? ==> r.value == (if |lines| == 0 then -1 else 1)
  {
    if |lines| == 0 then Success(-1)
    else
      var front := lines[..|lines| - 1];
      assert forall i :: 0 <= i < |front| ==> front[i] == lines[i];
      var _ :- ScanWithFlag(front, reaches);
      if reaches(lines[|lines| - 1]) then Failure(UndefinedName("UNCLASSIFIED"))
      else Success(1)  // `error_read = num_read + 1` with `num_read` still 0
  }

  function ScanAsWritten(lines: seq<string>): (r: Result<int, ReadError>)
    ensures r.Failure? <==> exists i :: 0 <= i < |lines| && ReachesFlag(lines[i])
  {
    ScanWithFlag(lines, ReachesFlag)
  }

  /** The reader as it runs: the header check, then the loop; when the loop
      ends, `num_read` is 0 and the reader raises NoSequenceRead. */
  function ReadAsWritten(lines: seq<string>): (r: Result<Reader.Output, ReadError>)
    ensures r.Failure?
    ensures r == Failure(UndefinedName("UNCLASSIFIED"))
            <==> |Split(Reader.Header(lines), '\t')| == 5
                 && exists i :: 0 <= i < |Reader.Body(lines)| && ReachesFlag(Reader.Body(lines)[i])
  {
    if |Split(Reader.Header(lines), '\t')| != 5 then Failure(UnsupportedFormat)
    else
      var _ :- ScanAsWritten(Reader.Body(lines));
      Failure(NoSequenceRead)
  }

  /** The file that shows it: a well-formed header and one classified line
      that passes the filter. The written reader raises the NameError; the
      reader with the three names supplied returns that line's taxon. */
  lemma ClassifiedLineRaises(header: string, line: string, p: Scan.ScanParams, log10: real -> real, read: ClassifiedRead)
    requires |Split(header, '\t')| == 5
    requires ParseLine(line, p.unclassified, p.kmerSize) == Success(Classified(read))
    requires Scan.Keep(p, read) && p.scoring == Scores.SHEL
    ensures ReadAsWritten([header, line]) == Failure(UndefinedName("UNCLASSIFIED"))
    ensures Reader.ReadGenericOutput([header, line], p, log10)
            == Success(Reader.Output(Reader.Stats(1, read.length, 0, 1, false),
                                     map[read.tid := 1], map[read.tid := read.shel]))
  {
    ClassifiedLine(line, p.unclassified, p.kmerSize);
    assert ReachesFlag(line);
    assert Reader.Body([header, line])[0] == line;
    Reader.SingleClassified(header, line, p, log10, read);
  }

  /** The file of the finding itself: any five-field header followed by the
      line `C`, `r1`, `9606`, `100`, `9606:70`, read with a marker other than
      `C`, SHEL scoring and a minimum score the read reaches. */
  lemma ClaimInstance(header: string, line: string, p: Scan.ScanParams, log10: real -> real)
    requires |Split(header, '\t')| == 5
    requires line == "C\tr1\t9606\t100\t9606:70"
    requires p.unclassified != "C" && p.scoring == Scores.SHEL
    requires p.minscore.None? || p.minscore.value <= (70 + p.kmerSize) as real
    ensures ReadAsWritten([header, line]) == Failure(UndefinedName("UNCLASSIFIED"))
    ensures Reader.ReadGenericOutput([header, line], p, log10)
            == Success(Reader.Output(Reader.Stats(1, 100, 0, 1, false),
                                     map["9606" := 1], map["9606" := (70 + p.kmerSize) as real]))
  {
    ExampleLine(line, p.unclassified, p.kmerSize);
    ClaimFromRead(header, line, p, log10);
  }

  /** The same from what the line reads as. */
  lemma ClaimFromRead(header: string, line: string, p: Scan.ScanParams, log10: real -> real)
    requires |Split(header, '\t')| == 5
    requires ParseLine(line, p.unclassified, p.kmerSize)
             == Success(Classified(ClassifiedRead("9606", 100, (70 + p.kmerSize) as real, 100.0)))
    requires p.scoring == Scores.SHEL
    requires p.minscore.None? || p.minscore.value <= (70 + p.kmerSize) as real
    ensures ReadAsWritten([header, line]) == Failure(UndefinedName("UNCLASSIFIED"))
    ensures Reader.ReadGenericOutput([header, line], p, log10)
            == Success(Reader.Output(Reader.Stats(1, 100, 0, 1, false),
                                     map["9606" := 1], map["9606" := (70 + p.kmerSize) as real]))
  {
    var read := ClassifiedRead("9606", 100, (70 + p.kmerSize) as real, 100.0);
    assert Scan.Keep(p, read);
    ClassifiedLineRaises(header, line, p, log10, read);
  }
}
