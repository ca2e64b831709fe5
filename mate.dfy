/** One tasting record and its conversion to a one-row table: the overall
    score is a fixed weighted sum of three ranks, and the row lists the
    record's fields in a fixed column order with missing values set to 0. */
module Mate {
  import opened Storage

  /** A table cell: text, an integer, a number, or a missing value. */
  datatype Cell = Null | Int(i: int) | Num(x: real) | Str(s: string)

  /** A table: column names and rows of cells. */
  datatype Frame = Frame(columns: seq<string>, rows: seq<seq<Cell>>)

  /** The fields of a tasting record, in declaration order. */
  datatype Entry = Entry(
    name: string,
    location: string,
    smellRank: Option<int>,
    smellNotes: Option<string>,
    tasteRank: Option<int>,
    tasteNotes: Option<string>,
    cycle: Option<string>,
    gourdCount: Option<int>,
    energyDescrip: Option<string>,
    energyRank: Option<int>,
    energyNotes: Option<string>)

  /** What process produces: the score it stores and the table it returns. */
  datatype Processed = Processed(score: real, frame: Frame)

  const Columns: seq<string> := [
    "name", "location", "smell_rank", "smell_notes", "taste_rank", "taste_notes",
    "cycle", "gourd_count", "energy_descrip", "energy_rank", "energy_notes", "overall_score"]

  /** The weighted score: 0.2 of the smell rank, 0.3 of the taste rank and
      0.5 of the energy rank. */
  function OverallScore(smell: int, taste: int, energy: int): (s: real)
    ensures 10.0 * s == (2 * smell + 3 * taste + 5 * energy) as real
  {
    smell as real * 0.2 + taste as real * 0.3 + energy as real * 0.5
  }

  /** The weights sum to one: equal ranks score that rank. */
  lemma ScoreOfEqualRanks(r: int)
    ensures OverallScore(r, r, r) == r as real
  {
  }

  /** The score lies between the smallest and the largest rank. */
  lemma ScoreBetweenRanks(smell: int, taste: int, energy: int, lo: int, hi: int)
    requires lo <= smell <= hi && lo <= taste <= hi && lo <= energy <= hi
    ensures lo as real <= OverallScore(smell, taste, energy) <= hi as real
  {
  }

  /** Raising any one rank never lowers the score, and the same raise
      counts most on energy and least on smell. */
  lemma ScoreMonotone(smell: int, taste: int, energy: int, d: nat)
    ensures OverallScore(smell + d, taste, energy) >= OverallScore(smell, taste, energy)
    ensures OverallScore(smell, taste + d, energy) >= OverallScore(smell + d, taste, energy)
    ensures OverallScore(smell, taste, energy + d) >= OverallScore(smell, taste + d, energy)
  {
  }

  /** The cell of an optional integer field: Null for None. */
  function IntCell(v: Option<int>): (c: Cell)
    ensures c == Null <==> v.None?
  {
    if v.Some? then Int(v.value) else Null
  }

  /** The cell of an optional text field: Null for None. */
  function StrCell(v: Option<string>): (c: Cell)
    ensures c == Null <==> v.None?
  {
    if v.Some? then Str(v.value) else Null
  }

  /** The row of the record before missing values are filled in. */
  function RawRow(e: Entry, score: real): (row: seq<Cell>)
    ensures |row| == |Columns|
  {
    [Str(e.name), Str(e.location), IntCell(e.smellRank), StrCell(e.smellNotes),
     IntCell(e.tasteRank), StrCell(e.tasteNotes), StrCell(e.cycle), IntCell(e.gourdCount),
     StrCell(e.energyDescrip), IntCell(e.energyRank), StrCell(e.energyNotes), Num(score)]
  }

  /** fillna(0) on one cell: a missing value becomes 0, any other is kept. */
  function Filled(c: Cell): (f: Cell)
    ensures f != Null
    ensures c != Null ==> f == c
  {
    if c == Null then Int(0) else c
  }

  /** fillna(0): every missing cell becomes 0, every other cell is kept. */
  function FillNa(row: seq<Cell>): (r: seq<Cell>)
    ensures |r| == |row|
    ensures forall i :: 0 <= i < |r| ==> r[i] != Null
    ensures forall i :: 0 <= i < |r| && row[i] != Null ==> r[i] == row[i]
    ensures forall i :: 0 <= i < |r| && row[i] == Null ==> r[i] == Int(0)
  {
    seq(|row|, i requires 0 <= i < |row| => Filled(row[i]))
  }

  /** process on a record: TypeError when a rank the score needs is
      missing; otherwise the score and the single filled row. */
  function ProcessEntry(e: Entry): (r: Result<Processed>)
    ensures r.Err? <==> e.smellRank.None? || e.tasteRank.None? || e.energyRank.None?
    ensures r.Err? ==> r.error == TypeError
    ensures r.Ok? ==>
              (10.0 * r.value.score ==
               (2 * e.smellRank.value + 3 * e.tasteRank.value + 5 * e.energyRank.value) as real)
    ensures r.Ok? ==> r.value.frame.columns == Columns && |r.value.frame.rows| == 1
    ensures r.Ok? ==> |r.value.frame.rows[0]| == |Columns|
    ensures r.Ok? ==> forall c :: c in r.value.frame.rows[0] ==> c != Null
  {
    if e.smellRank.None? || e.tasteRank.None? || e.energyRank.None? then Err(TypeError)
    else
      var score := OverallScore(e.smellRank.value, e.tasteRank.value, e.energyRank.value);
      Ok(Processed(score, Frame(Columns, [FillNa(RawRow(e, score))])))
  }

  /** Every column of the processed row holds its field's value, or 0 for
      an absent optional field, and the last one holds the score. */
  lemma ProcessedRow(e: Entry)
    requires ProcessEntry(e).Ok?
    ensures var row := ProcessEntry(e).value.frame.rows[0];
      && row[0] == Str(e.name)
      && row[1] == Str(e.location)
      && row[2] == Int(e.smellRank.value)
      && row[3] == Filled(StrCell(e.smellNotes))
      && row[4] == Int(e.tasteRank.value)
      && row[5] == Filled(StrCell(e.tasteNotes))
      && row[6] == Filled(StrCell(e.cycle))
      && row[7] == Filled(IntCell(e.gourdCount))
      && row[8] == Filled(StrCell(e.energyDescrip))
      && row[9] == Int(e.energyRank.value)
      && row[10] == Filled(StrCell(e.energyNotes))
      && row[11] == Num(ProcessEntry(e).value.score)
  {
  }

  /** The record, with the attribute process() attaches to it. */
  class Mate {
    var name: string
    var location: string
    var smellRank: Option<int>
    var smellNotes: Option<string>
    var tasteRank: Option<int>
    var tasteNotes: Option<string>
    var cycle: Option<string>
    var gourdCount: Option<int>
    var energyDescrip: Option<string>
    var energyRank: Option<int>
    var energyNotes: Option<string>
    /** overall_score: absent until process() succeeds. */
    var overallScore: Option<real>

    constructor (e: Entry)
      ensures AsEntry() == e && overallScore == None
    {
      name, location := e.name, e.location;
      smellRank, smellNotes := e.smellRank, e.smellNotes;
      tasteRank, tasteNotes := e.tasteRank, e.tasteNotes;
      cycle, gourdCount := e.cycle, e.gourdCount;
      energyDescrip, energyRank, energyNotes := e.energyDescrip, e.energyRank, e.energyNotes;
      overallScore := None;
    }

    /** The record's dataclass fields as one value. */
    function AsEntry(): (e: Entry)
      reads this
      ensures e.name == name && e.location == location
      ensures e.smellRank == smellRank && e.tasteRank == tasteRank && e.energyRank == energyRank
    {
      Entry(name, location, smellRank, smellNotes, tasteRank, tasteNotes,
            cycle, gourdCount, energyDescrip, energyRank, energyNotes)
    }

    /** process(): stores the score on the record and returns the filled
        one-row table; a missing rank raises before anything is stored. */
    method Process() returns (r: Result<Frame>)
      modifies this`overallScore
      ensures AsEntry() == old(AsEntry())
      ensures var want := ProcessEntry(AsEntry());
        if want.Ok? then r == Ok(want.value.frame) && overallScore == Some(want.value.score)
        else r == Err(want.error) && overallScore == old(overallScore)
    {
      if smellRank.None? || tasteRank.None? || energyRank.None? {
        return Err(TypeError);
      }
      var score := OverallScore(smellRank.value, tasteRank.value, energyRank.value);
      overallScore := Some(score);
      var df := Frame(Columns, [RawRow(AsEntry(), score)]);
      df := df.(rows := [FillNa(df.rows[0])]);
      return Ok(df);
    }
  }
}
