/** The `--format` specifier of a generic classifier output
    (`GenericFormat.__init__`): comma-separated `KEY:VALUE` blocks with the
    mandatory keys TYP, TID, LEN, SCO and UNC. */
module FormatSpec {
  import opened Wrappers
  import opened PyStr

  /** The tabular layouts a generic output may have. */
  datatype GenericType = CSV | TSV

  /** A parsed specifier. `typ` is `None` when the TYP value names no layout:
      the constructor reports that and carries on without setting it. */
  datatype GenericFormat = GenericFormat(typ: Option<GenericType>, tid: int, len: int, sco: int, unc: string)

  /** What makes the constructor raise: a block without a colon (IndexError),
      a missing key (KeyError) or a non-integer column (ValueError). */
  datatype FormatError = MalformedBlock(block: string) | MissingField(key: string) | NotAnInteger(key: string)

  function TypeName(t: GenericType): string
  {
    match t
    case CSV => "CSV"
    case TSV => "TSV"
  }

  /** `GenericType[name]`. */
  function TypeNamed(name: string): (r: Option<GenericType>)
    ensures r.Some? ==> TypeName(r.value) == name
    ensures r.None? ==> forall t :: TypeName(t) != name
  {
    if name == "CSV" then Some(CSV) else if name == "TSV" then Some(TSV) else None
  }

  /** The comma-separated blocks of a specifier, each stripped. */
  function Blocks(spec: string): seq<string>
  {
    var parts := Split(spec, ',');
    seq(|parts|, i requires 0 <= i < |parts| => Strip(parts[i]))
  }

  predicate HasColon(block: string) {
    ':' in block
  }

  /** The text before the first colon, stripped. */
  function KeyOf(block: string): string
  {
    Strip(Split(block, ':')[0])
  }

  /** The text between the first and the second colon, stripped. */
  function ValueOf(block: string): string
    requires HasColon(block)
  {
    SplitPieces(block, ':');
    Strip(Split(block, ':')[1])
  }

  /** Index of the first block without a colon, or `|blocks|`. */
  function FirstMalformed(blocks: seq<string>): (i: nat)
    ensures i <= |blocks|
    ensures forall j :: 0 <= j < i ==> HasColon(blocks[j])
    ensures i < |blocks| ==> !HasColon(blocks[i])
  {
    if |blocks| == 0 || !HasColon(blocks[0]) then 0 else 1 + FirstMalformed(blocks[1..])
  }

  /** `(pair.split(':')[0].strip(), pair.split(':')[1].strip())` for every
      block in order; the first block without a colon raises IndexError. */
  function Pairs(blocks: seq<string>): (r: Result<seq<(string, string)>, FormatError>)
    ensures r.Success? <==> FirstMalformed(blocks) == |blocks|
    ensures r.Failure? ==> FirstMalformed(blocks) < |blocks|
                           && r.error == MalformedBlock(blocks[FirstMalformed(blocks)])
    ensures r.Success? ==> |r.value| == |blocks|
    ensures r.Success? ==> forall i :: 0 <= i < |blocks| ==> r.value[i] == (KeyOf(blocks[i]), ValueOf(blocks[i]))
  {
    if |blocks| == 0 then Success([])
    else if !HasColon(blocks[0]) then Failure(MalformedBlock(blocks[0]))
    else
      var rest :- Pairs(blocks[1..]);
      Success([(KeyOf(blocks[0]), ValueOf(blocks[0]))] + rest)
  }

  /** The dictionary the comprehension builds: inserting the pairs in order,
      so that a later pair overrides an earlier one with the same key. */
  function Table(ps: seq<(string, string)>): map<string, string>
  {
    if |ps| == 0 then map[]
    else Table(ps[..|ps| - 1])[ps[|ps| - 1].0 := ps[|ps| - 1].1]
  }

  /** A key's value is the one of the LAST pair with that key. */
  lemma {:induction false} LastPairWins(ps: seq<(string, string)>, i: nat)
    requires i < |ps|
    requires forall j :: i < j < |ps| ==> ps[j].0 != ps[i].0
    ensures ps[i].0 in Table(ps) && Table(ps)[ps[i].0] == ps[i].1
    decreases |ps|
  {
    var front := ps[..|ps| - 1];
    if i < |ps| - 1 {
      assert forall j :: i < j < |front| ==> front[j] == ps[j];
      LastPairWins(front, i);
    }
  }

  /** The table holds exactly the keys of the pairs. */
  lemma {:induction false} TableKeys(ps: seq<(string, string)>)
    ensures Table(ps).Keys == set i | 0 <= i < |ps| :: ps[i].0
    decreases |ps|
  {
    if |ps| > 0 {
      var front := ps[..|ps| - 1];
      TableKeys(front);
      assert forall i :: 0 <= i < |front| ==> front[i] == ps[i];
      assert (set i | 0 <= i < |ps| :: ps[i].0) == (set i | 0 <= i < |front| :: front[i].0) + {ps[|ps| - 1].0};
    }
  }

  function BuildTable(blocks: seq<string>): Result<map<string, string>, FormatError>
  {
    var ps :- Pairs(blocks);
    Success(Table(ps))
  }

  /** `int(fmt[key])`, raising KeyError or ValueError. */
  function IntField(table: map<string, string>, key: string): (r: Result<int, FormatError>)
    ensures r.Success? ==> key in table && ParseInt(table[key]) == Some(r.value)
    ensures r.Failure? ==> r.error == (if key in table then NotAnInteger(key) else MissingField(key))
  {
    if key !in table then Failure(MissingField(key))
    else match ParseInt(table[key])
      case None => Failure(NotAnInteger(key))
      case Some(n) => Success(n)
  }

  /** Some block of the specifier has the given key. */
  predicate Names(blocks: seq<string>, key: string) {
    exists i :: 0 <= i < |blocks| && KeyOf(blocks[i]) == key
  }

  /** Every key of the built table is the key of one of the blocks. */
  lemma BuiltKeys(blocks: seq<string>)
    requires BuildTable(blocks).Success?
    ensures forall key :: key in BuildTable(blocks).value ==> Names(blocks, key)
  {
    var ps := Pairs(blocks).value;
    TableKeys(ps);
    forall key | key in BuildTable(blocks).value
      ensures Names(blocks, key)
    {
      var i :| 0 <= i < |ps| && ps[i].0 == key;
      assert KeyOf(blocks[i]) == key;
    }
  }

  /** `GenericFormat(spec)`: builds the table, then looks the fields up. It
      raises on the first block without a colon, and it succeeds only when
      every mandatory key names some block. */
  function ParseSpecifier(spec: string): (r: Result<GenericFormat, FormatError>)
    ensures FirstMalformed(Blocks(spec)) < |Blocks(spec)|
            ==> r == Failure(MalformedBlock(Blocks(spec)[FirstMalformed(Blocks(spec))]))
    ensures r.Success? ==> forall key :: IsMandatory(key) ==> Names(Blocks(spec), key)
  {
    var table :- BuildTable(Blocks(spec));
    BuiltKeys(Blocks(spec));
    FromTable(table)
  }

  /** The table holds all five mandatory keys. */
  predicate HasMandatory(table: map<string, string>) {
    "TYP" in table && "TID" in table && "LEN" in table && "SCO" in table && "UNC" in table
  }

  predicate IsMandatory(key: string) {
    key == "TYP" || key == "TID" || key == "LEN" || key == "SCO" || key == "UNC"
  }

  predicate IsColumn(key: string) {
    key == "TID" || key == "LEN" || key == "SCO"
  }

  /** The lookups of the constructor, in its order TYP, TID, LEN, SCO, UNC:
      the first field missing or malformed raises. An unknown TYP name only
      leaves the layout unset. */
  function FromTable(table: map<string, string>): (r: Result<GenericFormat, FormatError>)
    ensures r.Success? ==> HasMandatory(table)
    ensures r.Success? ==> && Some(r.value.tid) == ParseInt(table["TID"])
                           && Some(r.value.len) == ParseInt(table["LEN"])
                           && Some(r.value.sco) == ParseInt(table["SCO"])
                           && r.value.unc == table["UNC"]
                           && r.value.typ == TypeNamed(Upper(table["TYP"]))
  {
    if "TYP" !in table then Failure(MissingField("TYP"))
    else
      var typ := TypeNamed(Upper(table["TYP"]));
      var tid :- IntField(table, "TID");
      var len :- IntField(table, "LEN");
      var sco :- IntField(table, "SCO");
      if "UNC" !in table then Failure(MissingField("UNC"))
      else Success(GenericFormat(typ, tid, len, sco, table["UNC"]))
  }

  /** A missing mandatory key makes the constructor raise. */
  lemma MissingKeyRaises(table: map<string, string>, key: string)
    requires IsMandatory(key) && key !in table
    ensures FromTable(table).Failure?
  {
  }

  /** A TID, LEN or SCO value that is not an integer makes the constructor raise. */
  lemma NonIntegerColumnRaises(table: map<string, string>, key: string)
    requires IsColumn(key) && key in table
    requires ParseInt(table[key]).None?
    ensures FromTable(table).Failure?
  {
  }

  /** An unknown TYP name does not make the constructor raise: the
      result just has no layout. */
  lemma UnknownTypeIsNotFatal(table: map<string, string>)
    requires HasMandatory(table)
    requires ParseInt(table["TID"]).Some? && ParseInt(table["LEN"]).Some? && ParseInt(table["SCO"]).Some?
    requires Upper(table["TYP"]) != "CSV" && Upper(table["TYP"]) != "TSV"
    ensures FromTable(table).Success? && FromTable(table).value.typ.None?
  {
  }

  /** TYP is read without regard to ASCII case: a name selects CSV exactly
      when it spells `csv` in any mix of cases, TSV likewise, and nothing
      else selects a layout. */
  lemma TypeNameCaseless(name: string)
    ensures TypeNamed(Upper(name)) == Some(CSV) <==> SpellsIgnoringCase(name, "CSV")
    ensures TypeNamed(Upper(name)) == Some(TSV) <==> SpellsIgnoringCase(name, "TSV")
    ensures TypeNamed(Upper(name)).None? <==> !SpellsIgnoringCase(name, "CSV") && !SpellsIgnoringCase(name, "TSV")
  {
    UpperIsWord(name, "CSV");
    UpperIsWord(name, "TSV");
  }

  // ---------------------------------------------------------------- rendering

  /** A value that survives the specifier syntax unchanged. */
  predicate PlainValue(v: string) {
    NoEdgeSpace(v) && ',' !in v && ':' !in v
  }

  function Block(key: string, value: string): string
  {
    key + ":" + value
  }

  function RenderPairs(f: GenericFormat): seq<(string, string)>
    requires f.typ.Some?
  {
    [("TYP", TypeName(f.typ.value)), ("TID", IntToString(f.tid)), ("LEN", IntToString(f.len)),
     ("SCO", IntToString(f.sco)), ("UNC", f.unc)]
  }

  function RenderBlocks(f: GenericFormat): (bs: seq<string>)
    requires f.typ.Some?
    ensures |bs| == 5
  {
    var ps := RenderPairs(f);
    seq(5, i requires 0 <= i < 5 => Block(ps[i].0, ps[i].1))
  }

  /** The canonical specifier of a format with a layout. */
  function Render(f: GenericFormat): string
    requires f.typ.Some?
  {
    Join(RenderBlocks(f), ',')
  }

  /** `b` survives the comma split and the strip unchanged, and has a colon. */
  predicate Separable(b: string) {
    ',' !in b && NoEdgeSpace(b) && HasColon(b)
  }

  lemma BlockSeparable(key: string, value: string)
    requires |key| > 0 && PlainValue(key) && PlainValue(value)
    ensures Separable(Block(key, value))
  {
    var b := Block(key, value);
    assert b[0] == key[0];
    assert b[|b| - 1] == if |value| == 0 then ':' else value[|value| - 1];
    assert b[|key|] == ':';
  }

  lemma BlockParts(key: string, value: string)
    requires |key| > 0 && PlainValue(key) && PlainValue(value)
    ensures HasColon(Block(key, value))
    ensures KeyOf(Block(key, value)) == key && ValueOf(Block(key, value)) == value
  {
    var b := Block(key, value);
    assert b == Join([key, value], ':');
    assert b[|key|] == ':';
    SplitJoin([key, value], ':');
    StripKeeps(key);
    StripKeeps(value);
  }

  lemma IntValuePlain(i: int)
    ensures PlainValue(IntToString(i))
  {
    IntToStringChars(i);
    IntToStringNoEdgeSpace(i);
  }

  /** Blocks joined with commas come back as the same blocks. */
  lemma BlocksOfJoin(bs: seq<string>)
    requires |bs| >= 1
    requires forall i :: 0 <= i < |bs| ==> Separable(bs[i])
    ensures Blocks(Join(bs, ',')) == bs
  {
    SplitJoin(bs, ',');
    forall i | 0 <= i < |bs|
      ensures Strip(bs[i]) == bs[i]
    {
      StripKeeps(bs[i]);
    }
  }

  /** Every rendered pair has a plain, non-empty key and a plain value. */
  lemma RenderedPlain(f: GenericFormat)
    requires f.typ.Some? && PlainValue(f.unc)
    ensures forall i :: 0 <= i < 5 ==>
              |RenderPairs(f)[i].0| > 0 && PlainValue(RenderPairs(f)[i].0) && PlainValue(RenderPairs(f)[i].1)
  {
    KeysPlain();
    TypeNamePlain(f.typ.value);
    IntValuePlain(f.tid);
    IntValuePlain(f.len);
    IntValuePlain(f.sco);
  }

  lemma KeysPlain()
    ensures PlainValue("TYP") && PlainValue("TID") && PlainValue("LEN") && PlainValue("SCO") && PlainValue("UNC")
  {
  }

  lemma TypeNamePlain(t: GenericType)
    ensures PlainValue(TypeName(t))
  {
  }

  /** Each rendered block is separable and splits back into its pair. */
  lemma RenderedBlocks(f: GenericFormat)
    requires f.typ.Some? && PlainValue(f.unc)
    ensures forall i :: 0 <= i < 5 ==>
              && Separable(RenderBlocks(f)[i])
              && KeyOf(RenderBlocks(f)[i]) == RenderPairs(f)[i].0
              && ValueOf(RenderBlocks(f)[i]) == RenderPairs(f)[i].1
  {
    var ps := RenderPairs(f);
    var bs := RenderBlocks(f);
    RenderedPlain(f);
    forall i | 0 <= i < 5
      ensures Separable(bs[i]) && KeyOf(bs[i]) == ps[i].0 && ValueOf(bs[i]) == ps[i].1
    {
      assert bs[i] == Block(ps[i].0, ps[i].1);
      BlockSeparable(ps[i].0, ps[i].1);
      BlockParts(ps[i].0, ps[i].1);
    }
  }

  /** Blocks that all carry a colon parse into their own key/value pairs. */
  lemma PairsOfBlocks(bs: seq<string>, ps: seq<(string, string)>)
    requires |bs| == |ps|
    requires forall i :: 0 <= i < |bs| ==> HasColon(bs[i]) && KeyOf(bs[i]) == ps[i].0 && ValueOf(bs[i]) == ps[i].1
    ensures Pairs(bs) == Success(ps)
  {
    var r := Pairs(bs);
    assert r.value == ps;
  }

  lemma RenderedPairs(f: GenericFormat)
    requires f.typ.Some? && PlainValue(f.unc)
    ensures Blocks(Render(f)) == RenderBlocks(f)
    ensures Pairs(RenderBlocks(f)) == Success(RenderPairs(f))
  {
    RenderedBlocks(f);
    BlocksOfJoin(RenderBlocks(f));
    PairsOfBlocks(RenderBlocks(f), RenderPairs(f));
  }

  /** The table built from the rendered pairs holds every rendered value. */
  lemma RenderedTable(f: GenericFormat)
    requires f.typ.Some?
    ensures var t := Table(RenderPairs(f));
            && HasMandatory(t)
            && t["TYP"] == TypeName(f.typ.value) && t["TID"] == IntToString(f.tid)
            && t["LEN"] == IntToString(f.len) && t["SCO"] == IntToString(f.sco)
            && t["UNC"] == f.unc
  {
    var ps := RenderPairs(f);
    assert "TYP" != "TID" && "TYP" != "LEN" && "TYP" != "SCO" && "TYP" != "UNC";
    assert "TID" != "LEN" && "TID" != "SCO" && "TID" != "UNC";
    assert "LEN" != "SCO" && "LEN" != "UNC" && "SCO" != "UNC";
    LastPairWins(ps, 0);
    LastPairWins(ps, 1);
    LastPairWins(ps, 2);
    LastPairWins(ps, 3);
    LastPairWins(ps, 4);
  }

  lemma TypeNameUpper(t: GenericType)
    ensures TypeNamed(Upper(TypeName(t))) == Some(t)
  {
    UpperKeeps(TypeName(t));
  }

  lemma FromRenderedTable(t: map<string, string>, f: GenericFormat)
    requires f.typ.Some? && HasMandatory(t)
    requires t["TYP"] == TypeName(f.typ.value) && t["TID"] == IntToString(f.tid)
    requires t["LEN"] == IntToString(f.len) && t["SCO"] == IntToString(f.sco)
    requires t["UNC"] == f.unc
    ensures FromTable(t) == Success(f)
  {
    TypeNameUpper(f.typ.value);
    IntRoundTrip(f.tid);
    IntRoundTrip(f.len);
    IntRoundTrip(f.sco);
  }

  /** Parsing the canonical specifier gives the format back. */
  lemma RenderRoundTrip(f: GenericFormat)
    requires f.typ.Some? && PlainValue(f.unc)
    ensures ParseSpecifier(Render(f)) == Success(f)
  {
    RenderedPairs(f);
    RenderedTable(f);
    FromRenderedTable(Table(RenderPairs(f)), f);
  }
}
