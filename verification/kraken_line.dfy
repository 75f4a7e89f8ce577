/** One data line of a Kraken-style output: `C/U<TAB>read id<TAB>taxid<TAB>
    length<TAB>taxid:count ...`. */
module KrakenLine {
  import opened Wrappers
  import opened PyStr
  import opened ReadErrors

  /** What a classified read contributes: its taxid, its length, the
      "single hit equivalent length" and the share (percent) of its k-mers
      that hit its own taxid. */
  datatype ClassifiedRead = ClassifiedRead(tid: string, length: int, shel: real, score: real)

  /** How the scan treats one line that does not end it. */
  datatype LineOutcome =
    | WrongFieldCount            // not 5 tab fields: skipped, not counted
    | BadLength                  // a length segment is not an integer: skipped, not counted
    | Unclassified(length: int)  // counted as read and as unclassified
    | BadCount(length: int)      // counted as read, then skipped: a k-mer count is not an integer
    | Classified(read: ClassifiedRead)

  // ------------------------------------------------------------------ length

  function Sum(xs: seq<int>): int
  {
    if |xs| == 0 then 0 else Sum(xs[..|xs| - 1]) + xs[|xs| - 1]
  }

  /** `map(int, pieces)`, or `None` when one of them is not an integer. */
  function ParseInts(pieces: seq<string>): (r: Option<seq<int>>)
    ensures r.Some? <==> forall i :: 0 <= i < |pieces| ==> ParseInt(pieces[i]).Some?
    ensures r.Some? ==> |r.value| == |pieces|
    ensures r.Some? ==> forall i :: 0 <= i < |pieces| ==> ParseInt(pieces[i]) == Some(r.value[i])
  {
    if |pieces| == 0 then Some([])
    else
      var front :- ParseInts(pieces[..|pieces| - 1]);
      var last :- ParseInt(pieces[|pieces| - 1]);
      Some(front + [last])
  }

  /** `sum(map(int, field.split('|')))`: a read length made of segments. */
  function ParseLength(field: string): Option<int>
  {
    var xs :- ParseInts(Split(field, '|'));
    Some(Sum(xs))
  }

  /** The decimal renderings of `xs`. */
  function Rendered(xs: seq<int>): seq<string>
  {
    seq(|xs|, i requires 0 <= i < |xs| => IntToString(xs[i]))
  }

  /** The decimal segments of `xs`, joined with `|`. */
  function LengthField(xs: seq<int>): string
    requires |xs| >= 1
  {
    Join(Rendered(xs), '|')
  }

  /** Every rendering is free of `|` and reads back as its integer. */
  lemma RenderedParses(xs: seq<int>)
    ensures forall i :: 0 <= i < |xs| ==> '|' !in Rendered(xs)[i]
    ensures ParseInts(Rendered(xs)) == Some(xs)
  {
    var parts := Rendered(xs);
    forall i | 0 <= i < |parts|
      ensures '|' !in parts[i] && ParseInt(parts[i]) == Some(xs[i])
    {
      IntToStringChars(xs[i]);
      IntRoundTrip(xs[i]);
    }
    var ys := ParseInts(parts);
    assert ys.Some? && |ys.value| == |xs|;
    assert ys.value == xs;
  }

  /** A length written as `|`-separated integers reads back as their sum. */
  lemma LengthOfSegments(xs: seq<int>)
    requires |xs| >= 1
    ensures ParseLength(LengthField(xs)) == Some(Sum(xs))
  {
    RenderedParses(xs);
    SplitJoin(Rendered(xs), '|');
  }

  /** A paired-end length such as `50|50` is the sum of the mates' lengths. */
  lemma PairedLength(a: int, b: int)
    ensures ParseLength(IntToString(a) + "|" + IntToString(b)) == Some(a + b)
  {
    LengthOfSegments([a, b]);
    var parts := Rendered([a, b]);
    assert LengthField([a, b]) == Join(parts, '|');
    assert parts == [IntToString(a), IntToString(b)];
    assert parts[1..] == [IntToString(b)];
    assert Join(parts, '|') == IntToString(a) + "|" + IntToString(b);
    assert [a, b][..1] == [a] && [a][..0] == [];
    assert Sum([a]) == a;
    assert Sum([a, b]) == Sum([a]) + b;
    assert ParseLength(LengthField([a, b])) == Some(a + b);
  }

  // ------------------------------------------------------------------ k-mers

  /** Why one `taxid:count` token cannot be used. */
  datatype TokenError =
    | NoCount(token: string)     // no colon: `couple[1]` raises IndexError
    | NotACount(token: string)   // `int(couple[1])` raises ValueError

  function ParseToken(token: string): (r: Result<(string, int), TokenError>)
    ensures r.Success? ==> && |Split(token, ':')| >= 2
                           && r.value.0 == Split(token, ':')[0]
                           && ParseInt(Split(token, ':')[1]) == Some(r.value.1)
    ensures r.Failure? ==> r.error.token == token
    ensures r.Failure? && r.error.NoCount? <==> ':' !in token
    ensures r.Success? <==> |Split(token, ':')| >= 2 && ParseInt(Split(token, ':')[1]).Some?
  {
    var couple := Split(token, ':');
    SplitPieces(token, ':');
    if |couple| < 2 then Failure(NoCount(token))
    else match ParseInt(couple[1])
      case None => Failure(NotACount(token))
      case Some(n) => Success((couple[0], n))
  }

  /** Index of the first token that cannot be used, or `|tokens|`. */
  function FirstBadToken(tokens: seq<string>): (i: nat)
    ensures i <= |tokens|
    ensures forall j :: 0 <= j < i ==> ParseToken(tokens[j]).Success?
    ensures i < |tokens| ==> ParseToken(tokens[i]).Failure?
  {
    if |tokens| == 0 || ParseToken(tokens[0]).Failure? then 0 else 1 + FirstBadToken(tokens[1..])
  }

  /** The loop over the tokens, in order: the first bad token stops it. */
  function ParseTokens(tokens: seq<string>): (r: Result<seq<(string, int)>, TokenError>)
    ensures r.Success? <==> FirstBadToken(tokens) == |tokens|
    ensures r.Failure? ==> FirstBadToken(tokens) < |tokens|
                           && ParseToken(tokens[FirstBadToken(tokens)]) == Failure(r.error)
    ensures r.Success? ==> |r.value| == |tokens|
    ensures r.Success? ==> forall i :: 0 <= i < |tokens| ==> ParseToken(tokens[i]) == Success(r.value[i])
  {
    if |tokens| == 0 then Success([])
    else
      var first :- ParseToken(tokens[0]);
      var rest :- ParseTokens(tokens[1..]);
      Success([first] + rest)
  }

  /** A counter lookup: 0 for a key that is absent. */
  function Get<K>(m: map<K, int>, key: K): int
  {
    if key in m then m[key] else 0
  }

  /** The `Counter` the loop fills: each pair adds its count to its taxid. */
  function Tally<K>(ps: seq<(K, int)>): map<K, int>
  {
    if |ps| == 0 then map[]
    else
      var front := Tally(ps[..|ps| - 1]);
      var (k, n) := ps[|ps| - 1];
      front[k := Get(front, k) + n]
  }

  /** The counter's keys in insertion order. */
  function TallyKeys<K(==)>(ps: seq<(K, int)>): seq<K>
  {
    if |ps| == 0 then []
    else
      var front := TallyKeys(ps[..|ps| - 1]);
      var k := ps[|ps| - 1].0;
      if k in front then front else front + [k]
  }

  /** `sum(m[k] for k in keys)`. */
  function SumValues<K>(m: map<K, int>, keys: seq<K>): int
    requires forall i :: 0 <= i < |keys| ==> keys[i] in m
  {
    if |keys| == 0 then 0 else SumValues(m, keys[..|keys| - 1]) + m[keys[|keys| - 1]]
  }

  /** The reference: the counts of all pairs naming `tid`. */
  function OwnCount<K(==)>(ps: seq<(K, int)>, tid: K): int
  {
    if |ps| == 0 then 0
    else OwnCount(ps[..|ps| - 1], tid) + (if ps[|ps| - 1].0 == tid then ps[|ps| - 1].1 else 0)
  }

  /** The reference: the counts of all pairs. */
  function Total<K>(ps: seq<(K, int)>): int
  {
    if |ps| == 0 then 0 else Total(ps[..|ps| - 1]) + ps[|ps| - 1].1
  }

  predicate Distinct<K(==)>(keys: seq<K>) {
    forall i, j :: 0 <= i < j < |keys| ==> keys[i] != keys[j]
  }

  /** The counter's keys are the taxids of the pairs, each listed once. */
  lemma {:induction false} TallyKeysSpec<K>(ps: seq<(K, int)>)
    ensures Distinct(TallyKeys(ps))
    ensures forall k :: k in Tally(ps) <==> k in TallyKeys(ps)
    decreases |ps|
  {
    if |ps| > 0 {
      TallyKeysSpec(ps[..|ps| - 1]);
    }
  }

  /** Looking a taxid up in the counter gives the sum of its counts:
      repeated taxids accumulate, an absent one reads 0. */
  lemma {:induction false} TallyOwn<K>(ps: seq<(K, int)>, tid: K)
    ensures Get(Tally(ps), tid) == OwnCount(ps, tid)
    decreases |ps|
  {
    if |ps| > 0 {
      TallyOwn(ps[..|ps| - 1], tid);
    }
  }

  /** Summing is insensitive to a key that is not listed. */
  lemma {:induction false} SumValuesFrame<K>(m: map<K, int>, keys: seq<K>, k: K, v: int)
    requires forall i :: 0 <= i < |keys| ==> keys[i] in m
    requires k !in keys
    ensures SumValues(m[k := v], keys) == SumValues(m, keys)
    decreases |keys|
  {
    if |keys| > 0 {
      SumValuesFrame(m, keys[..|keys| - 1], k, v);
    }
  }

  /** Adding `d` to one listed key adds `d` to the sum. */
  lemma {:induction false} SumValuesBump<K>(m: map<K, int>, keys: seq<K>, k: K, d: int)
    requires forall i :: 0 <= i < |keys| ==> keys[i] in m
    requires Distinct(keys) && k in keys
    ensures SumValues(m[k := m[k] + d], keys) == SumValues(m, keys) + d
    decreases |keys|
  {
    var front := keys[..|keys| - 1];
    var last := keys[|keys| - 1];
    if last == k {
      assert k !in front;
      SumValuesFrame(m, front, k, m[k] + d);
    } else {
      assert k in front;
      SumValuesBump(m, front, k, d);
    }
  }

  /** `sum(mappings.values())` is the total of all counts. */
  lemma {:induction false} TallyTotal<K>(ps: seq<(K, int)>)
    ensures forall i :: 0 <= i < |TallyKeys(ps)| ==> TallyKeys(ps)[i] in Tally(ps)
    ensures SumValues(Tally(ps), TallyKeys(ps)) == Total(ps)
    decreases |ps|
  {
    if |ps| > 0 {
      var front := ps[..|ps| - 1];
      var k, n := ps[|ps| - 1].0, ps[|ps| - 1].1;
      TallyTotal(front);
      TallyKeysSpec(front);
      var m, keys := Tally(front), TallyKeys(front);
      var keys' := if k in keys then keys else keys + [k];
      TallyStep(ps);
      assert Tally(ps) == m[k := Get(m, k) + n] && TallyKeys(ps) == keys';
      SumValuesStep(m, keys, k, n);
      assert Total(ps) == Total(front) + n;
    }
  }

  /** Counting one more pair into a counter adds its count to the sum. */
  lemma SumValuesStep<K>(m: map<K, int>, keys: seq<K>, k: K, n: int)
    requires forall i :: 0 <= i < |keys| ==> keys[i] in m
    requires Distinct(keys) && forall x :: x in m <==> x in keys
    ensures var keys' := if k in keys then keys else keys + [k];
            && (forall i :: 0 <= i < |keys'| ==> keys'[i] in m[k := Get(m, k) + n])
            && SumValues(m[k := Get(m, k) + n], keys') == SumValues(m, keys) + n
  {
    if k in keys {
      SumValuesBump(m, keys, k, n);
    } else {
      assert k !in m;
      SumValuesAppend(m, keys, k, n);
    }
  }

  /** One more pair, unfolded once. */
  lemma TallyStep<K>(ps: seq<(K, int)>)
    requires |ps| > 0
    ensures var front := ps[..|ps| - 1];
            var k, n := ps[|ps| - 1].0, ps[|ps| - 1].1;
            && Tally(ps) == Tally(front)[k := Get(Tally(front), k) + n]
            && TallyKeys(ps) == (if k in TallyKeys(front) then TallyKeys(front) else TallyKeys(front) + [k])
            && Total(ps) == Total(front) + n
  {
  }

  /** Listing a new key adds its value to the sum. */
  lemma SumValuesAppend<K>(m: map<K, int>, keys: seq<K>, k: K, v: int)
    requires forall i :: 0 <= i < |keys| ==> keys[i] in m
    requires k !in keys && k !in m
    ensures SumValues(m[k := v], keys + [k]) == SumValues(m, keys) + v
  {
    SumValuesFrame(m, keys, k, v);
    assert (keys + [k])[..|keys|] == keys;
  }

  /** The pairs of the mapping field, after the one `|:|` separator
      between the mates of a pair is dropped. */
  function Tokens(mapsField: string): seq<string>
  {
    RemoveFirst(SplitWs(mapsField), "|:|")
  }

  // ------------------------------------------------------------------ a line

  /** The tab fields of the stripped line. */
  function Fields(raw: string): seq<string>
  {
    Split(Strip(raw), '\t')
  }

  /** The scores of a classified read from its k-mer pairs. */
  function Classify(tid: string, length: int, ps: seq<(string, int)>, kmerSize: int): (r: Result<LineOutcome, ReadError>)
    ensures r.Success? ==> r.value.Classified? && r.value.read.tid == tid && r.value.read.length == length
    ensures r.Failure? ==> r.error == ZeroKmerTotal
  {
    var counter := Tally(ps);
    TallyTotal(ps);
    var total := SumValues(counter, TallyKeys(ps));
    var own := Get(counter, tid);
    if total == 0 then Failure(ZeroKmerTotal)
    else Success(Classified(ClassifiedRead(tid, length, (own + kmerSize) as real, own as real / total as real * 100.0)))
  }

  /** A classified read from its k-mer tokens on. */
  function ParseKmers(tid: string, length: int, tokens: seq<string>, kmerSize: int): (r: Result<LineOutcome, ReadError>)
    ensures r.Success? ==> r.value.BadCount? || r.value.Classified?
    ensures r.Success? && r.value.BadCount? ==> r.value.length == length
    ensures r.Success? && r.value.Classified? ==> r.value.read.tid == tid && r.value.read.length == length
    ensures r.Failure? ==> r.error.MissingKmerCount? || r.error == ZeroKmerTotal
  {
    match ParseTokens(tokens)
    case Failure(NoCount(token)) => Failure(MissingKmerCount(token))
    case Failure(NotACount(_)) => Success(BadCount(length))
    case Success(ps) => Classify(tid, length, ps, kmerSize)
  }

  /** A line with five fields, from the length on. */
  function ParseRecord(fields: seq<string>, unclassified: string, kmerSize: int): (r: Result<LineOutcome, ReadError>)
    requires |fields| == 5
    ensures r.Success? ==> !r.value.WrongFieldCount?
    ensures r == Success(BadLength) <==> ParseLength(fields[3]).None?
  {
    match ParseLength(fields[3])
    case None => Success(BadLength)
    case Some(length) =>
      if fields[0] == unclassified then Success(Unclassified(length))
      else ParseKmers(fields[2], length, Tokens(fields[4]), kmerSize)
  }

  /** One pass of the loop body over a data line. */
  function ParseLine(raw: string, unclassified: string, kmerSize: int): (r: Result<LineOutcome, ReadError>)
    ensures r == Success(WrongFieldCount) <==> |Fields(raw)| != 5
    ensures r.Failure? ==> && |Fields(raw)| == 5 && ParseLength(Fields(raw)[3]).Some?
                           && Fields(raw)[0] != unclassified
                           && (r.error.MissingKmerCount? || r.error == ZeroKmerTotal)
    ensures r.Success? && r.value.Classified? ==> && |Fields(raw)| == 5
                                                  && r.value.read.tid == Fields(raw)[2]
                                                  && ParseLength(Fields(raw)[3]) == Some(r.value.read.length)
  {
    var fields := Fields(raw);
    if |fields| != 5 then Success(WrongFieldCount) else ParseRecord(fields, unclassified, kmerSize)
  }

  // ------------------------------------------------------------------ properties

  /** Tab-free fields joined with tabs split back into those fields, when
      the line has no whitespace at its ends. */
  lemma JoinedFields(fields: seq<string>)
    requires |fields| >= 1
    requires forall i :: 0 <= i < |fields| ==> '\t' !in fields[i]
    requires NoEdgeSpace(Join(fields, '\t'))
    ensures Fields(Join(fields, '\t')) == fields
  {
    StripKeeps(Join(fields, '\t'));
    SplitJoin(fields, '\t');
  }

  /** A length field of one segment that holds one of U+001C to U+001F does
      not parse, even where `strip()` would have removed that character. */
  lemma SeparatorInLength(field: string, k: nat)
    requires '|' !in field
    requires k < |field| && 0x1C <= field[k] as int <= 0x1F
    ensures ParseLength(field) == None
  {
    SplitNoSep(field, '|');
    ParseIntRejectsSeparator(field, k);
  }

  /** The tab fields of a line whose length field ends in U+001C: `strip()`
      of the whole line leaves that character in place. */
  lemma SeparatorLineFields(raw: string)
    requires raw == "C\tr1\t9606\t100\U{1C}\t9606:70"
    ensures Fields(raw) == ["C", "r1", "9606", "100\U{1C}", "9606:70"]
  {
    var fields := ["C", "r1", "9606", "100\U{1C}", "9606:70"];
    assert Join(fields, '\t') == raw;
    JoinedFields(fields);
  }

  /** So that line, which has five fields, is skipped for its length rather
      than read. */
  lemma SeparatorLineSkipped(raw: string, unclassified: string, kmerSize: int)
    requires raw == "C\tr1\t9606\t100\U{1C}\t9606:70"
    ensures |Fields(raw)| == 5
    ensures ParseLine(raw, unclassified, kmerSize) == Success(BadLength)
  {
    SeparatorLineFields(raw);
    SeparatorInLength(Fields(raw)[3], 3);
  }

  /** Exactly the lines that do not split into five tab fields are skipped
      as malformed. */
  lemma WrongFieldCountIff(raw: string, unclassified: string, kmerSize: int)
    ensures ParseLine(raw, unclassified, kmerSize) == Success(WrongFieldCount) <==> |Fields(raw)| != 5
  {
  }

  /** A length that does not parse skips the line, whatever its flag. */
  lemma BadLengthIff(raw: string, unclassified: string, kmerSize: int)
    ensures ParseLine(raw, unclassified, kmerSize) == Success(BadLength)
            <==> |Fields(raw)| == 5 && ParseLength(Fields(raw)[3]).None?
  {
  }

  /** The flag is compared with the unclassified marker only once the
      length has parsed; such a line yields nothing but its length. */
  lemma UnclassifiedIff(raw: string, unclassified: string, kmerSize: int, length: int)
    ensures ParseLine(raw, unclassified, kmerSize) == Success(Unclassified(length))
            <==> && |Fields(raw)| == 5
                 && ParseLength(Fields(raw)[3]) == Some(length)
                 && Fields(raw)[0] == unclassified
  {
  }

  /** The k-mer tokens of a classified line are read in order, and the
      first bad one decides: without a colon it aborts the scan, with a
      count that is not an integer it skips the line. */
  lemma TokenErrors(tid: string, length: int, tokens: seq<string>, kmerSize: int)
    requires FirstBadToken(tokens) < |tokens|
    ensures var bad := tokens[FirstBadToken(tokens)];
            ParseKmers(tid, length, tokens, kmerSize)
            == if ':' in bad then Success(BadCount(length)) else Failure(MissingKmerCount(bad))
  {
    var r := ParseTokens(tokens);
    assert r.Failure?;
  }

  /** A taxid without a colon, a colon and a rendered integer make a token
      that reads back as that pair. */
  lemma TokenRoundTrip(k: string, n: int)
    requires ':' !in k
    ensures ParseToken(k + ":" + IntToString(n)) == Success((k, n))
  {
    var s := IntToString(n);
    IntToStringChars(n);
    assert ':' !in s;
    SplitJoin([k, s], ':');
    assert Join([k, s], ':') == k + ":" + s;
    IntRoundTrip(n);
  }

  /** The scores of a classified read, in terms of the reference sums:
      `shel` is the read's own count plus the k-mer size, and the score is
      the own count's percentage of all counts. A total of 0 aborts. */
  lemma {:induction false} ClassifyScores(tid: string, length: int, ps: seq<(string, int)>, kmerSize: int)
    ensures Total(ps) == 0 <==> Classify(tid, length, ps, kmerSize) == Failure(ZeroKmerTotal)
    ensures Total(ps) != 0 ==>
              Classify(tid, length, ps, kmerSize)
              == Success(Classified(ClassifiedRead(tid, length, (OwnCount(ps, tid) + kmerSize) as real,
                                                   OwnCount(ps, tid) as real / Total(ps) as real * 100.0)))
  {
    TallyTotal(ps);
    TallyOwn(ps, tid);
  }

  /** With non-negative counts the own count lies between 0 and the total. */
  lemma {:induction false} OwnWithinTotal<K>(ps: seq<(K, int)>, tid: K)
    requires forall i :: 0 <= i < |ps| ==> ps[i].1 >= 0
    ensures 0 <= OwnCount(ps, tid) <= Total(ps)
    decreases |ps|
  {
    if |ps| > 0 {
      OwnWithinTotal(ps[..|ps| - 1], tid);
    }
  }

  /** With non-negative counts the relative score is a percentage. */
  lemma ScoreIsPercentage(tid: string, length: int, ps: seq<(string, int)>, kmerSize: int)
    requires forall i :: 0 <= i < |ps| ==> ps[i].1 >= 0
    requires Classify(tid, length, ps, kmerSize).Success?
    ensures var read := Classify(tid, length, ps, kmerSize).value.read;
            0.0 <= read.score <= 100.0
  {
    ClassifyScores(tid, length, ps, kmerSize);
    OwnWithinTotal(ps, tid);
    var own := OwnCount(ps, tid) as real;
    var total := Total(ps) as real;
    assert 0.0 <= own <= total && total > 0.0;
    RatioAtMostOne(own, total);
  }

  lemma RatioAtMostOne(a: real, b: real)
    requires 0.0 <= a <= b && b > 0.0
    ensures 0.0 <= a / b <= 1.0
  {
    var q := a / b;
    assert q * b == a;
    assert (1.0 - q) * b == b - a;
  }

  /** A classified line: what its read is made of. */
  lemma ClassifiedLine(raw: string, unclassified: string, kmerSize: int)
    requires ParseLine(raw, unclassified, kmerSize).Success?
    requires ParseLine(raw, unclassified, kmerSize).value.Classified?
    ensures var fields := Fields(raw);
            var read := ParseLine(raw, unclassified, kmerSize).value.read;
            && |fields| == 5
            && fields[0] != unclassified
            && read.tid == fields[2]
            && ParseLength(fields[3]) == Some(read.length)
            && ParseTokens(Tokens(fields[4])).Success?
            && var ps := ParseTokens(Tokens(fields[4])).value;
               && Total(ps) != 0
               && read.shel == (OwnCount(ps, read.tid) + kmerSize) as real
               && read.score == OwnCount(ps, read.tid) as real / Total(ps) as real * 100.0
  {
    var fields := Fields(raw);
    var r := ParseLine(raw, unclassified, kmerSize);
    assert |fields| == 5 && r == ParseRecord(fields, unclassified, kmerSize);
    var length := ParseLength(fields[3]).value;
    assert fields[0] != unclassified && r == ParseKmers(fields[2], length, Tokens(fields[4]), kmerSize);
    var ps := ParseTokens(Tokens(fields[4])).value;
    assert r == Classify(fields[2], length, ps, kmerSize);
    ClassifyScores(fields[2], length, ps, kmerSize);
  }

  // ------------------------------------------------------------------ one classified line

  /** The tab fields of the line `C`, `r1`, `9606`, `100`, `9606:70`. */
  lemma ExampleFields(raw: string)
    requires raw == "C\tr1\t9606\t100\t9606:70"
    ensures Fields(raw) == ["C", "r1", "9606", "100", "9606:70"]
  {
    var fields := ["C", "r1", "9606", "100", "9606:70"];
    assert Join(fields, '\t') == raw;
    JoinedFields(fields);
  }

  /** A length of one segment is that segment's integer. */
  lemma OneSegment(field: string, n: int)
    requires '|' !in field && ParseInt(field) == Some(n)
    ensures ParseLength(field) == Some(n)
  {
    SplitNoSep(field, '|');
    assert ParseInts([field]) == Some([n]) by {
      assert [field][..0] == [] && ParseInts([]) == Some([]);
      assert [] + [n] == [n];
    }
    assert Sum([n]) == n by {
      assert [n][..0] == [];
    }
  }

  /** Its length field reads as 100. */
  lemma ExampleLength(field: string)
    requires field == "100"
    ensures ParseLength(field) == Some(100)
  {
    assert IntToString(100) == field;
    IntRoundTrip(100);
    OneSegment(field, 100);
  }

  /** The token `9606:70` reads as the pair (9606, 70). */
  lemma ExampleToken(token: string)
    requires token == "9606:70"
    ensures ParseToken(token) == Success(("9606", 70))
  {
    assert IntToString(70) == "70";
    assert token == "9606" + ":" + IntToString(70);
    TokenRoundTrip("9606", 70);
  }

  /** A field without whitespace is its own single token. */
  lemma OneToken(field: string)
    requires |field| > 0 && NoSpace(field) && field != "|:|"
    ensures Tokens(field) == [field]
  {
    SplitWsJoin([field]);
    assert JoinSpace([field]) == field;
  }

  /** A field that is one usable token reads as that token's pair. */
  lemma OneTokenParses(field: string, pair: (string, int))
    requires |field| > 0 && NoSpace(field) && field != "|:|"
    requires ParseToken(field) == Success(pair)
    ensures ParseTokens(Tokens(field)) == Success([pair])
  {
    OneToken(field);
    var ts := Tokens(field);
    assert ts[0] == field && ts[1..] == [];
    assert ParseTokens(ts[1..]) == Success([]);
    assert ParseToken(ts[0]) == Success(pair);
    assert [pair] + [] == [pair];
    assert ParseTokens(ts) == Success([pair] + []);
  }

  lemma ExampleNoSpace(field: string)
    requires field == "9606:70"
    ensures |field| > 0 && NoSpace(field) && field != "|:|"
  {
    assert forall i :: 0 <= i < |field| ==> field[i] == ':' || '0' <= field[i] <= '9';
  }

  /** The mapping field `9606:70` reads as that one pair. */
  lemma ExampleTokens(field: string)
    requires field == "9606:70"
    ensures ParseTokens(Tokens(field)) == Success([("9606", 70)])
  {
    ExampleNoSpace(field);
    ExampleToken(field);
    OneTokenParses(field, ("9606", 70));
  }

  /** The pair `9606:70` gives taxid 9606 all of the read's k-mers. */
  lemma ExampleScores(kmerSize: int)
    ensures Classify("9606", 100, [("9606", 70)], kmerSize)
            == Success(Classified(ClassifiedRead("9606", 100, (70 + kmerSize) as real, 100.0)))
  {
    var ps := [("9606", 70)];
    assert ps[..0] == [];
    assert OwnCount(ps, "9606") == 70 && Total(ps) == 70;
    ClassifyScores("9606", 100, ps, kmerSize);
  }

  /** So the line, with any flag other than `C` as the unclassified marker,
      is a classified read of taxid 9606 with length 100 and score 100. */
  lemma ExampleLine(raw: string, unclassified: string, kmerSize: int)
    requires raw == "C\tr1\t9606\t100\t9606:70"
    requires unclassified != "C"
    ensures ParseLine(raw, unclassified, kmerSize)
            == Success(Classified(ClassifiedRead("9606", 100, (70 + kmerSize) as real, 100.0)))
  {
    ExampleFields(raw);
    ExampleLength(Fields(raw)[3]);
    ExampleTokens(Fields(raw)[4]);
    LineFromParts(raw, unclassified, kmerSize, 100, [("9606", 70)]);
    ExampleScores(kmerSize);
  }

  /** The converse of `ClassifiedLine`: a five-field line whose flag is not
      the marker, whose length parses and whose tokens all parse is scored
      from its own taxid, length and pairs. */
  lemma LineFromParts(raw: string, unclassified: string, kmerSize: int, length: int, ps: seq<(string, int)>)
    requires |Fields(raw)| == 5 && Fields(raw)[0] != unclassified
    requires ParseLength(Fields(raw)[3]) == Some(length)
    requires ParseTokens(Tokens(Fields(raw)[4])) == Success(ps)
    ensures ParseLine(raw, unclassified, kmerSize) == Classify(Fields(raw)[2], length, ps, kmerSize)
  {
  }
}
