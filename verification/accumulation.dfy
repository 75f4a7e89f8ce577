/** The three per-taxon dictionaries `all_scores`, `all_kmerel` and
    `all_length` that `read_generic_output` fills, with the order in which
    the taxa were first inserted. */
module Accumulation {
  import opened KrakenLine

  datatype Accumulator = Accumulator(
    taxa: seq<string>,                 // dictionary insertion order
    scores: map<string, seq<real>>,    // all_scores: shel of each retained read
    kmerel: map<string, seq<real>>,    // all_kmerel: relative score of each retained read
    lengths: map<string, seq<int>>)    // all_length: length of each retained read

  const Empty := Accumulator([], map[], map[], map[])

  // ------------------------------------------------------ three dictionaries

  /** The three dictionaries have the keys listed in `order`. */
  ghost predicate SameKeys<K(!new), A, B, C>(order: seq<K>, s: map<K, seq<A>>, k: map<K, seq<B>>, l: map<K, seq<C>>) {
    && (forall t :: t in s <==> t in order)
    && k.Keys == s.Keys
    && l.Keys == s.Keys
  }

  /** Under each key, three non-empty lists of equal length. */
  ghost predicate Lockstep<K(!new), A, B, C>(s: map<K, seq<A>>, k: map<K, seq<B>>, l: map<K, seq<C>>) {
    forall t :: t in s ==> t in k && t in l && |s[t]| >= 1 && |k[t]| == |s[t]| && |l[t]| == |s[t]|
  }

  /** `d[key].append(x)`, or `d[key] = [x]` on a KeyError. */
  function Push<K, T>(d: map<K, seq<T>>, key: K, x: T): map<K, seq<T>>
  {
    if key in d then d[key := d[key] + [x]] else d[key := [x]]
  }

  /** The key order after an insertion. */
  function Insert<K(==)>(order: seq<K>, key: K): seq<K>
  {
    if key in order then order else order + [key]
  }

  /** The list of `key` gains `x` at its end; every other list is kept. */
  lemma PushSpec<K, T>(d: map<K, seq<T>>, key: K, x: T)
    ensures Push(d, key, x).Keys == d.Keys + {key}
    ensures Push(d, key, x)[key] == (if key in d then d[key] else []) + [x]
    ensures forall t :: t in d && t != key ==> Push(d, key, x)[t] == d[t]
  {
  }

  lemma InsertDistinct<K>(order: seq<K>, key: K)
    requires Distinct(order)
    ensures Distinct(Insert(order, key))
  {
  }

  lemma PushKeys<K(!new), A, B, C>(order: seq<K>, s: map<K, seq<A>>, k: map<K, seq<B>>, l: map<K, seq<C>>,
                                   key: K, a: A, b: B, c: C)
    requires SameKeys(order, s, k, l)
    ensures SameKeys(Insert(order, key), Push(s, key, a), Push(k, key, b), Push(l, key, c))
  {
  }

  lemma PushLockstep<K(!new), A, B, C>(s: map<K, seq<A>>, k: map<K, seq<B>>, l: map<K, seq<C>>, key: K, a: A, b: B, c: C)
    requires Lockstep(s, k, l) && k.Keys == s.Keys && l.Keys == s.Keys
    ensures Lockstep(Push(s, key, a), Push(k, key, b), Push(l, key, c))
  {
  }

  /** The number of entries under each key. */
  function Sizes<K(!new), T>(d: map<K, seq<T>>): map<K, int>
  {
    map t | t in d :: |d[t]|
  }

  lemma PushSizes<K(!new), T>(d: map<K, seq<T>>, key: K, x: T)
    ensures Sizes(Push(d, key, x)) == Sizes(d)[key := Get(Sizes(d), key) + 1]
  {
    assert Sizes(Push(d, key, x)).Keys == Sizes(d)[key := Get(Sizes(d), key) + 1].Keys;
  }

  /** Summing the sizes over a distinct key order that gains one entry. */
  lemma InsertSum<K>(m: map<K, int>, order: seq<K>, key: K)
    requires forall t :: t in m <==> t in order
    requires Distinct(order)
    ensures forall i :: 0 <= i < |Insert(order, key)| ==> Insert(order, key)[i] in m[key := Get(m, key) + 1]
    ensures SumValues(m[key := Get(m, key) + 1], Insert(order, key)) == SumValues(m, order) + 1
  {
    if key in order {
      SumValuesBump(m, order, key, 1);
    } else {
      SumValuesFrame(m, order, key, Get(m, key) + 1);
      assert Insert(order, key)[..|order|] == order;
    }
  }

  // ------------------------------------------------------------ accumulator

  /** The lockstep invariant: one key set, listed once in `taxa`, and three
      non-empty lists of equal length under each key. */
  ghost predicate Valid(acc: Accumulator) {
    && Distinct(acc.taxa)
    && SameKeys(acc.taxa, acc.scores, acc.kmerel, acc.lengths)
    && Lockstep(acc.scores, acc.kmerel, acc.lengths)
  }

  /** A retained read appended to all three lists of its taxon. */
  function Append(acc: Accumulator, read: ClassifiedRead): Accumulator
  {
    Accumulator(
      Insert(acc.taxa, read.tid),
      Push(acc.scores, read.tid, read.shel),
      Push(acc.kmerel, read.tid, read.score),
      Push(acc.lengths, read.tid, read.length))
  }

  /** Appending keeps the lockstep invariant. */
  lemma AppendValid(acc: Accumulator, read: ClassifiedRead)
    requires Valid(acc)
    ensures Valid(Append(acc, read))
  {
    InsertDistinct(acc.taxa, read.tid);
    PushKeys(acc.taxa, acc.scores, acc.kmerel, acc.lengths, read.tid, read.shel, read.score, read.length);
    PushLockstep(acc.scores, acc.kmerel, acc.lengths, read.tid, read.shel, read.score, read.length);
  }

  /** `counts`: the number of retained reads of each taxon. */
  function Counts(acc: Accumulator): map<string, int>
  {
    Sizes(acc.scores)
  }

  /** `filt_seqs`: the sum of the list sizes, taxon by taxon. */
  function Entries(acc: Accumulator): int
    requires Valid(acc)
  {
    SumValues(Counts(acc), acc.taxa)
  }

  /** The accumulator after appending the retained reads in order. */
  function Accumulate(retained: seq<ClassifiedRead>): (acc: Accumulator)
    ensures Valid(acc)
  {
    if |retained| == 0 then Empty
    else
      var acc := Accumulate(retained[..|retained| - 1]);
      AppendValid(acc, retained[|retained| - 1]);
      Append(acc, retained[|retained| - 1])
  }

  // ---------------------------------------------------------------- reference

  /** The retained reads of one taxon, in order. */
  function Of(retained: seq<ClassifiedRead>, t: string): seq<ClassifiedRead>
  {
    if |retained| == 0 then []
    else Of(retained[..|retained| - 1], t) + (if retained[|retained| - 1].tid == t then [retained[|retained| - 1]] else [])
  }

  function Shels(retained: seq<ClassifiedRead>): seq<real>
  {
    seq(|retained|, i requires 0 <= i < |retained| => retained[i].shel)
  }

  function RelScores(retained: seq<ClassifiedRead>): seq<real>
  {
    seq(|retained|, i requires 0 <= i < |retained| => retained[i].score)
  }

  function Lengths(retained: seq<ClassifiedRead>): seq<int>
  {
    seq(|retained|, i requires 0 <= i < |retained| => retained[i].length)
  }

  lemma ColumnsSnoc(xs: seq<ClassifiedRead>, read: ClassifiedRead)
    ensures Shels(xs + [read]) == Shels(xs) + [read.shel]
    ensures RelScores(xs + [read]) == RelScores(xs) + [read.score]
    ensures Lengths(xs + [read]) == Lengths(xs) + [read.length]
  {
  }

  /** After any sequence of retained reads, each taxon's three lists are the
      shel values, relative scores and lengths of that taxon's reads, in
      order, and a taxon has lists exactly when it has a read. */
  lemma {:induction false} AccumulateProjects(retained: seq<ClassifiedRead>, t: string)
    ensures t in Accumulate(retained).scores <==> |Of(retained, t)| > 0
    ensures t in Accumulate(retained).scores ==>
              && Accumulate(retained).scores[t] == Shels(Of(retained, t))
              && Accumulate(retained).kmerel[t] == RelScores(Of(retained, t))
              && Accumulate(retained).lengths[t] == Lengths(Of(retained, t))
    decreases |retained|
  {
    if |retained| > 0 {
      var front := retained[..|retained| - 1];
      var read := retained[|retained| - 1];
      var acc := Accumulate(front);
      assert Accumulate(retained) == Append(acc, read);
      AccumulateProjects(front, t);
      PushSpec(acc.scores, read.tid, read.shel);
      PushSpec(acc.kmerel, read.tid, read.score);
      PushSpec(acc.lengths, read.tid, read.length);
      if read.tid == t {
        assert Of(retained, t) == Of(front, t) + [read];
        ColumnsSnoc(Of(front, t), read);
      } else {
        assert Of(retained, t) == Of(front, t);
      }
    }
  }

  /** Each retained read adds one to `filt_seqs`. */
  lemma AppendEntries(acc: Accumulator, read: ClassifiedRead)
    requires Valid(acc)
    ensures Valid(Append(acc, read)) && Entries(Append(acc, read)) == Entries(acc) + 1
  {
    AppendValid(acc, read);
    PushSizes(acc.scores, read.tid, read.shel);
    InsertSum(Counts(acc), acc.taxa, read.tid);
  }

  /** `filt_seqs` is the number of retained reads. */
  lemma {:induction false} EntriesCount(retained: seq<ClassifiedRead>)
    ensures Entries(Accumulate(retained)) == |retained|
    decreases |retained|
  {
    if |retained| > 0 {
      var front := retained[..|retained| - 1];
      var read := retained[|retained| - 1];
      var acc := Accumulate(front);
      EntriesCount(front);
      AppendEntries(acc, read);
    }
  }
}
