/** The pure projections the dashboard in client/src/App.jsx derives from the
    proposal snapshot it holds: the CSV export, the vote total and the chart
    series; plus `getRandomColor`, a palette helper the component defines but
    never calls (the chart bars use a fixed fill). The snapshot is what `/proposals` sent, so
    counts are decimal strings that the client reads back with `parseInt`. */
module Dashboard {
  import opened Wrappers
  import opened Text
  import opened Relay

  // ---------------------------------------------------------------------------
  // CSV export

  const CsvHeader: string := "Proposal Name,Vote Count"

  /** `[name, voteCount].join(",")`; names are not quoted or escaped. */
  function CsvRow(p: ListedProposal): string
  {
    p.name + "," + p.voteCount
  }

  /** The text `downloadCSV` saves; None when the list is empty, where the
      handler returns before building anything. */
  function CsvContent(ps: seq<ListedProposal>): (r: Option<string>)
    ensures r.None? <==> |ps| == 0
  {
    if |ps| == 0 then None
    else Some(Join([CsvHeader] + Rows(ps), '\n'))
  }

  /** Reference form of the body: a newline before each row, none after. */
  function NewlineLed(ps: seq<ListedProposal>): string
  {
    if |ps| == 0 then "" else "\n" + CsvRow(ps[0]) + NewlineLed(ps[1..])
  }

  /** The export is the header followed by one newline-led row per proposal,
      in order, with no trailing newline. */
  lemma {:induction false} CsvContentIsHeaderThenRows(ps: seq<ListedProposal>)
    requires |ps| > 0
    ensures CsvContent(ps) == Some(CsvHeader + NewlineLed(ps))
  {
    JoinLed(CsvHeader, ps);
  }

  lemma {:induction false} JoinLed(first: string, ps: seq<ListedProposal>)
    ensures Join([first] + Rows(ps), '\n')
            == first + NewlineLed(ps)
    decreases |ps|
  {
    var rows := [first] + Rows(ps);
    if |ps| == 0 {
      assert rows == [first];
    } else {
      RowsTail(ps);
      assert rows[1..] == [CsvRow(ps[0])] + Rows(ps[1..]);
      JoinLed(CsvRow(ps[0]), ps[1..]);
    }
  }

  /** Proposals A (3 votes) and B (5 votes) export as a header and two rows. */
  lemma CsvExample()
    ensures CsvContent([ListedProposal("A", "3"), ListedProposal("B", "5")])
            == Some("Proposal Name,Vote Count\nA,3\nB,5")
  {
    var ps := [ListedProposal("A", "3"), ListedProposal("B", "5")];
    CsvContentIsHeaderThenRows(ps);
    assert ps[1..][1..] == [];
    assert NewlineLed(ps[1..]) == "\nB,5";
    assert NewlineLed(ps) == "\nA,3\nB,5";
    assert CsvHeader + "\nA,3\nB,5" == "Proposal Name,Vote Count\nA,3\nB,5";
  }

  /** Reads one row back, splitting at its last comma. */
  function ParseRow(line: string): (r: Option<ListedProposal>)
    ensures r.Some? ==> CsvRow(r.value) == line && ',' !in r.value.voteCount
  {
    match LastIndexOf(line, ',')
    case None => None
    case Some(i) =>
      assert line == line[..i] + "," + line[i + 1..];
      Some(ListedProposal(line[..i], line[i + 1..]))
  }

  function ParseRows(lines: seq<string>): (r: Option<seq<ListedProposal>>)
    ensures r.Some? ==> |r.value| == |lines|
  {
    if |lines| == 0 then Some([])
    else match (ParseRow(lines[0]), ParseRows(lines[1..]))
      case (Some(p), Some(ps)) => Some([p] + ps)
      case _ => None
  }

  /** Reads an exported file back into proposals. */
  function ParseCsv(text: string): Option<seq<ListedProposal>>
  {
    var lines := Split(text, '\n');
    if lines[0] != CsvHeader then None else ParseRows(lines[1..])
  }

  /** Fields the export can carry without ambiguity: names without line
      breaks, counts without commas or line breaks. */
  predicate Exportable(ps: seq<ListedProposal>)
  {
    forall i :: 0 <= i < |ps| ==>
      '\n' !in ps[i].name && '\n' !in ps[i].voteCount && ',' !in ps[i].voteCount
  }

  /** A row reads back as the proposal it was written from. */
  lemma ParseRowOfRow(p: ListedProposal)
    requires ',' !in p.voteCount
    ensures ParseRow(CsvRow(p)) == Some(p)
  {
    LastSeparator(p.name, ',', p.voteCount);
    var line := CsvRow(p);
    assert line[..|p.name|] == p.name;
    assert line[|p.name| + 1..] == p.voteCount;
  }

  function Rows(ps: seq<ListedProposal>): seq<string>
  {
    seq(|ps|, i requires 0 <= i < |ps| => CsvRow(ps[i]))
  }

  lemma RowsTail(ps: seq<ListedProposal>)
    requires |ps| > 0
    ensures Rows(ps) == [CsvRow(ps[0])] + Rows(ps[1..])
  {
  }

  lemma {:induction false} ParseRowsOfRows(ps: seq<ListedProposal>)
    requires Exportable(ps)
    ensures ParseRows(Rows(ps)) == Some(ps)
    decreases |ps|
  {
    if |ps| > 0 {
      RowsTail(ps);
      ParseRowOfRow(ps[0]);
      ParseRowsOfRows(ps[1..]);
      assert Rows(ps)[1..] == Rows(ps[1..]);
      assert ps == [ps[0]] + ps[1..];
    }
  }

  /** Reading the export back recovers the snapshot exactly. */
  lemma CsvRoundTrip(ps: seq<ListedProposal>)
    requires |ps| > 0 && Exportable(ps)
    ensures ParseCsv(CsvContent(ps).value) == Some(ps)
  {
    var body := Rows(ps);
    var rows := [CsvHeader] + body;
    assert '\n' !in CsvHeader by {
      assert forall k :: 0 <= k < |CsvHeader| ==> CsvHeader[k] != '\n';
    }
    forall i | 0 <= i < |rows|
      ensures '\n' !in rows[i]
    {
      if i > 0 {
        assert rows[i] == ps[i - 1].name + "," + ps[i - 1].voteCount;
      }
    }
    SplitJoin(rows, '\n');
    assert rows[1..] == body;
    ParseRowsOfRows(ps);
  }

  // ---------------------------------------------------------------------------
  // Total, chart and palette

  /** Every count of the snapshot reads as a number. */
  predicate AllCountsParse(ps: seq<ListedProposal>)
  {
    forall i :: 0 <= i < |ps| ==> ParseDecimal(ps[i].voteCount).Some?
  }

  /** Reference sum of the parsed counts, first proposal first. */
  function CountSum(ps: seq<ListedProposal>): nat
    requires AllCountsParse(ps)
  {
    if |ps| == 0 then 0 else ParseDecimal(ps[0].voteCount).value + CountSum(ps[1..])
  }

  /** The reference sum also splits off the last proposal. */
  lemma {:induction false} CountSumLast(ps: seq<ListedProposal>)
    requires |ps| > 0 && AllCountsParse(ps)
    ensures CountSum(ps) == CountSum(ps[..|ps| - 1]) + ParseDecimal(ps[|ps| - 1].voteCount).value
    decreases |ps|
  {
    if |ps| > 1 {
      CountSumLast(ps[1..]);
      assert ps[1..][..|ps| - 2] == ps[..|ps| - 1][1..];
    }
  }

  /** `getTotalVotes`: the `reduce` over `parseInt` of each count, folding
      from the first proposal; any unreadable count makes the sum NaN (None). */
  function TotalVotes(ps: seq<ListedProposal>): (r: Option<nat>)
    ensures r.Some? <==> AllCountsParse(ps)
    ensures r.Some? ==> r.value == CountSum(ps)
  {
    if |ps| == 0 then Some(0)
    else
      var front := ps[..|ps| - 1];
      assert forall i :: 0 <= i < |front| ==> front[i] == ps[i];
      match (TotalVotes(front), ParseDecimal(ps[|ps| - 1].voteCount))
      case (Some(t), Some(v)) =>
        CountSumLast(ps);
        Some(t + v)
      case _ => None
  }

  /** One bar of the chart. */
  datatype ChartPoint = ChartPoint(name: string, votes: Option<nat>)

  /** `getChartData`: one bar per proposal, in order, same name. */
  function ChartData(ps: seq<ListedProposal>): (r: seq<ChartPoint>)
    ensures |r| == |ps|
    ensures forall i :: 0 <= i < |ps| ==> r[i].name == ps[i].name
    ensures forall i :: 0 <= i < |ps| ==>
              (r[i].votes.Some? <==> |ps[i].voteCount| > 0 && AllDigits(ps[i].voteCount))
  {
    seq(|ps|, i requires 0 <= i < |ps| => ChartPoint(ps[i].name, ParseDecimal(ps[i].voteCount)))
  }

  const Palette: seq<string> := ["#6366F1", "#8B5CF6", "#EC4899", "#10B981", "#F59E0B", "#3B82F6"]

  /** `getRandomColor(index)`: the palette entry at `index % 6`. The component
      never calls it, so the index is taken to be a natural number. */
  function PaletteColor(index: nat): (r: string)
    ensures r in Palette
  {
    Palette[index % |Palette|]
  }

  /** The colour repeats every six indices. */
  lemma PaletteColorPeriodic(index: nat)
    ensures PaletteColor(index + 6) == PaletteColor(index)
  {
  }

  /** Any six consecutive indices get six different colours. */
  lemma PaletteColorsDistinctInWindow(start: nat, i: nat, j: nat)
    requires start <= i < start + 6 && start <= j < start + 6 && i != j
    ensures PaletteColor(i) != PaletteColor(j)
  {
  }
}
