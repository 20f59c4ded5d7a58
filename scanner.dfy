/** The chart-file line scanner (`Song.parse_file`).

    One pass over the file's lines. Before the first `#NOTES` line every non-blank line is a
    header line, later handed to the metadata parser. A `#NOTES` line opens a chart: the
    next five non-blank lines are taken by position (type, an ignored line, difficulty,
    meter, an ignored line), after which the scanner is in the chart body, where note rows
    are counted, `,` lines add a measure and a `;` line closes the chart.

    The source keeps its position in a `header` flag and a `chart_data` counter (0..5 or
    None); here that is the explicit `Phase`. The open chart is the `current_chart`
    dictionary, with each optional key as an `Option`. */
module ChartScanner {
  import opened Results
  import opened Text
  import opened Numbers
  import opened Metadata

  /** How many of the five positional lines after `#NOTES` have been taken. */
  type PreambleIndex = k: nat | k < 5

  datatype Phase = Header | Preamble(taken: PreambleIndex) | Body

  /** The `current_chart` dictionary: counters, and the keys the preamble fills in. */
  datatype ChartDraft = ChartDraft(
    steps: nat, jumps: nat, beats: nat,
    chartType: Option<string>, difficulty: Option<string>, meter: Option<int>)

  /** A completed chart, as appended to the `charts` list. */
  datatype Chart = Chart(
    id: string, songId: string, chartType: string, difficulty: string, meter: int,
    steps: nat, jumps: nat, beats: nat)

  datatype ScanState = ScanState(
    phase: Phase, draft: ChartDraft, headerLines: seq<string>, charts: seq<Chart>)

  /** The dictionary the source starts each chart with. */
  function NewDraft(): ChartDraft {
    ChartDraft(0, 0, 4, None, None, None)
  }

  function Start(): ScanState {
    ScanState(Header, NewDraft(), [], [])
  }

  // ---------------------------------------------------------------------------
  // Line shapes

  /** The characters a note-row cell may hold. */
  predicate IsCell(c: char) {
    c == '0' || c == '1' || c == '2' || c == '3' || c == '4' || c == 'M'
  }

  /** The cells that count as a step. */
  predicate IsStepCell(c: char) {
    c == '1' || c == '2'
  }

  /** At least four characters, the first four all cells. */
  predicate IsNoteRow(line: string) {
    |line| >= 4 && IsCell(line[0]) && IsCell(line[1]) && IsCell(line[2]) && IsCell(line[3])
  }

  /** How many of the first four cells are steps: at least one exactly when some cell
      is a step, at least two exactly when two distinct cells are. */
  function StepCells(line: string): (n: nat)
    requires |line| >= 4
    ensures n <= 4
    ensures n >= 1 <==> exists i | 0 <= i < 4 :: IsStepCell(line[i])
    ensures n >= 2 <==> exists i, j | 0 <= i < j < 4 :: IsStepCell(line[i]) && IsStepCell(line[j])
  {
    (if IsStepCell(line[0]) then 1 else 0) + (if IsStepCell(line[1]) then 1 else 0)
    + (if IsStepCell(line[2]) then 1 else 0) + (if IsStepCell(line[3]) then 1 else 0)
  }

  /** The stripped line is blank, opens a chart, or closes one. */
  predicate Blank(raw: string) { Strip(raw) == [] }
  predicate OpensChart(raw: string) { StartsWith(Strip(raw), "#NOTES") }
  predicate ClosesChart(raw: string) { StartsWith(Strip(raw), ";") }

  /** The third preamble line with its colons stripped, lower-cased. */
  function DifficultyLabel(line: string): string {
    Lower(Trim(line, IsColon))
  }

  /** `song id - difficulty - meter`. */
  function ChartId(songId: string, difficulty: string, meter: int): string {
    songId + "-" + difficulty + "-" + IntToString(meter)
  }

  // ---------------------------------------------------------------------------
  // The reachable states

  /** What every completed chart satisfies. */
  predicate ChartConsistent(songId: string, c: Chart) {
    && c.songId == songId
    && c.id == ChartId(songId, c.difficulty, c.meter)
    && c.jumps <= c.steps
    && c.beats >= 4 && c.beats % 4 == 0
  }

  /** The states the scanner can be in. In the header nothing has been counted yet; in
      the preamble the keys filled in match the lines taken; in the body the draft is
      either a fully described chart or the fresh dictionary left by a `;`. */
  predicate Reachable(songId: string, st: ScanState) {
    && st.draft.jumps <= st.draft.steps
    && st.draft.beats >= 4 && st.draft.beats % 4 == 0
    && (forall c | c in st.charts :: ChartConsistent(songId, c))
    && match st.phase
       case Header => st.draft == NewDraft() && st.charts == []
       case Preamble(k) =>
         && (st.draft.chartType.Some? <==> k >= 1)
         && (st.draft.difficulty.Some? <==> k >= 3)
         && (st.draft.meter.Some? <==> k >= 4)
       case Body =>
         || (st.draft.chartType.Some? && st.draft.difficulty.Some? && st.draft.meter.Some?)
         || (st.draft.chartType.None? && st.draft.difficulty.None? && st.draft.meter.None?)
  }

  /** The exceptions a scan can raise: a nested chart, a meter that is not an integer,
      and a chart closed without a difficulty. */
  predicate ScanFailure(f: Failure) {
    f == SongFailure(NestedChart) || f == OtherFailure(ValueError) || f == OtherFailure(KeyError("difficulty"))
  }

  // ---------------------------------------------------------------------------
  // One line

  /** One of the five positional lines after `#NOTES`. */
  function PreambleStep(st: ScanState, taken: PreambleIndex, line: string): Result<ScanState> {
    if taken == 0 then Ok(st.(phase := Preamble(1), draft := st.draft.(chartType := Some(line))))
    else if taken == 1 then Ok(st.(phase := Preamble(2)))
    else if taken == 2 then
      Ok(st.(phase := Preamble(3), draft := st.draft.(difficulty := Some(DifficultyLabel(line)))))
    else if taken == 3 then
      match ParseInt(Trim(line, IsColon))
      case None => Err(OtherFailure(ValueError))
      case Some(m) => Ok(st.(phase := Preamble(4), draft := st.draft.(meter := Some(m))))
    else Ok(st.(phase := Body))
  }

  /** A line of the chart body: a note row, a measure separator, a chart terminator, or
      anything else (ignored). */
  function BodyStep(songId: string, st: ScanState, line: string): Result<ScanState>
    requires Reachable(songId, st) && st.phase == Body && line != []
  {
    var d := st.draft;
    if IsNoteRow(line) then
      var n := StepCells(line);
      Ok(st.(draft := d.(steps := d.steps + (if n >= 1 then 1 else 0),
                          jumps := d.jumps + (if n >= 2 then 1 else 0))))
    else if StartsWith(line, ",") then
      Ok(st.(draft := d.(beats := d.beats + 4)))
    else if StartsWith(line, ";") then
      match d.difficulty
      case None => Err(OtherFailure(KeyError("difficulty")))
      case Some(difficulty) =>
        var meter := d.meter.value;
        var chart := Chart(ChartId(songId, difficulty, meter), songId, d.chartType.value,
                           difficulty, meter, d.steps, d.jumps, d.beats);
        Ok(st.(draft := NewDraft(), charts := st.charts + [chart]))
    else Ok(st)
  }

  /** One iteration of the scan loop on a raw line. */
  function Step(songId: string, st: ScanState, raw: string): (r: Result<ScanState>)
    requires Reachable(songId, st)
    ensures r.Ok? ==> Reachable(songId, r.value)
    ensures r.Err? ==> ScanFailure(r.failure)
  {
    var line := Strip(raw);
    if line == [] then Ok(st)
    else if StartsWith(line, "#NOTES") then
      if st.draft.chartType.Some? then Err(SongFailure(NestedChart))
      else Ok(st.(phase := Preamble(0)))
    else
      match st.phase
      case Header => Ok(st.(headerLines := st.headerLines + [line]))
      case Preamble(taken) => PreambleStep(st, taken, line)
      case Body => BodyStep(songId, st, line)
  }

  /** The scan of `lines` from state `st`; the first failing line stops it. */
  function RunFrom(songId: string, st: ScanState, lines: seq<string>): (r: Result<ScanState>)
    requires Reachable(songId, st)
    ensures r.Ok? ==> Reachable(songId, r.value)
    ensures r.Err? ==> ScanFailure(r.failure)
    decreases |lines|
  {
    if lines == [] then Ok(st)
    else
      match Step(songId, st, lines[0])
      case Err(f) => Err(f)
      case Ok(next) => RunFrom(songId, next, lines[1..])
  }

  function Run(songId: string, lines: seq<string>): Result<ScanState> {
    RunFrom(songId, Start(), lines)
  }

  /** What `parse_file` returns: the parsed header metadata and the completed charts.
      Every chart carries the song's id, the composite chart id, at most as many jumps
      as steps, and a whole number of measures of four beats. */
  function ChartFile(songId: string, lines: seq<string>): (r: Result<(map<string, string>, seq<Chart>)>)
    ensures r.Ok? ==> forall c | c in r.value.1 :: ChartConsistent(songId, c)
    ensures r.Err? ==> ScanFailure(r.failure)
  {
    match Run(songId, lines)
    case Err(f) => Err(f)
    case Ok(st) => Ok((MetadataOf(st.headerLines), st.charts))
  }

  /** The preamble branch of the loop: one positional line after `#NOTES`. */
  method TakePreambleLine(chart: ChartDraft, taken: PreambleIndex, line: string)
    returns (r: Result<(Phase, ChartDraft)>)
    ensures forall st: ScanState | st.phase == Preamble(taken) && st.draft == chart ::
              PreambleStep(st, taken, line)
                == (if r.Ok? then Ok(st.(phase := r.value.0, draft := r.value.1)) else Err(r.failure))
  {
    var draft := chart;
    if taken == 0 {
      draft := draft.(chartType := Some(line));
    } else if taken == 2 {
      draft := draft.(difficulty := Some(Lower(Trim(line, IsColon))));
    } else if taken == 3 {
      var meter := ParseInt(Trim(line, IsColon));
      if meter.None? {
        return Err(OtherFailure(ValueError));
      }
      draft := draft.(meter := Some(meter.value));
    }
    var next := if taken == 4 then Body else Preamble(taken + 1);
    return Ok((next, draft));
  }

  /** The chart-body branch of the loop: count a note row or a measure, or close the chart. */
  method ScanBodyLine(songId: string, chart: ChartDraft, charts: seq<Chart>, line: string)
    returns (r: Result<(ChartDraft, seq<Chart>)>)
    requires line != []
    requires Reachable(songId, ScanState(Body, chart, [], charts))
    ensures forall headerLines ::
              var st := ScanState(Body, chart, headerLines, charts);
              BodyStep(songId, st, line)
                == (if r.Ok? then Ok(st.(draft := r.value.0, charts := r.value.1)) else Err(r.failure))
  {
    var draft := chart;
    var done := charts;
    if IsNoteRow(line) {
      var stepCount := StepCells(line);
      if stepCount > 0 {
        draft := draft.(steps := draft.steps + 1);
      }
      if stepCount > 1 {
        draft := draft.(jumps := draft.jumps + 1);
      }
    } else if StartsWith(line, ",") {
      draft := draft.(beats := draft.beats + 4);
    } else if StartsWith(line, ";") {
      if draft.difficulty.None? {
        return Err(OtherFailure(KeyError("difficulty")));
      }
      var id := songId + "-" + draft.difficulty.value + "-" + IntToString(draft.meter.value);
      done := done + [Chart(id, songId, draft.chartType.value, draft.difficulty.value,
                            draft.meter.value, draft.steps, draft.jumps, draft.beats)];
      draft := NewDraft();
    }
    return Ok((draft, done));
  }

  /** The loop of `parse_file` over the already-decoded lines of the file. */
  method ParseFile(songId: string, lines: seq<string>) returns (r: Result<(map<string, string>, seq<Chart>)>)
    ensures r == ChartFile(songId, lines)
  {
    var headerLines: seq<string> := [];
    var charts: seq<Chart> := [];
    var phase := Header;
    var chart := NewDraft();
    var i := 0;
    while i < |lines|
      invariant i <= |lines|
      invariant Reachable(songId, ScanState(phase, chart, headerLines, charts))
      invariant Run(songId, lines) == RunFrom(songId, ScanState(phase, chart, headerLines, charts), lines[i..])
    {
      ghost var before := ScanState(phase, chart, headerLines, charts);
      assert lines[i..][0] == lines[i] && lines[i..][1..] == lines[i + 1..];
      var line := Strip(lines[i]);
      if line == [] {
      } else if StartsWith(line, "#NOTES") {
        if chart.chartType.Some? {
          return Err(SongFailure(NestedChart));
        }
        phase := Preamble(0);
      } else if phase == Header {
        headerLines := headerLines + [line];
      } else if phase.Preamble? {
        var taken := phase.taken;
        var next := TakePreambleLine(chart, taken, line);
        if next.Err? {
          return Err(next.failure);
        }
        phase, chart := next.value.0, next.value.1;
      } else {
        var next := ScanBodyLine(songId, chart, charts, line);
        if next.Err? {
          return Err(next.failure);
        }
        chart, charts := next.value.0, next.value.1;
      }
      assert Step(songId, before, lines[i]) == Ok(ScanState(phase, chart, headerLines, charts));
      i := i + 1;
    }
    var metadata := ParseMetadata(headerLines);
    return Ok((metadata, charts));
  }

  // ---------------------------------------------------------------------------
  // Independent descriptions of what a scan collects

  /** The lines that are not blank once stripped. */
  function NonBlank(lines: seq<string>): seq<string>
    decreases |lines|
  {
    if lines == [] then []
    else if Blank(lines[0]) then NonBlank(lines[1..])
    else [lines[0]] + NonBlank(lines[1..])
  }

  /** The stripped non-blank lines before the first `#NOTES` line. */
  function HeaderLines(lines: seq<string>): seq<string>
    decreases |lines|
  {
    if lines == [] then []
    else if Blank(lines[0]) then HeaderLines(lines[1..])
    else if OpensChart(lines[0]) then []
    else [Strip(lines[0])] + HeaderLines(lines[1..])
  }

  /** How many lines are note rows with at least `atLeast` step cells. */
  function NoteRows(body: seq<string>, atLeast: nat): nat
    decreases |body|
  {
    if body == [] then 0
    else
      var line := Strip(body[0]);
      (if IsNoteRow(line) && StepCells(line) >= atLeast then 1 else 0) + NoteRows(body[1..], atLeast)
  }

  /** How many lines are measure separators. */
  function Separators(body: seq<string>): nat
    decreases |body|
  {
    if body == [] then 0
    else (if StartsWith(Strip(body[0]), ",") then 1 else 0) + Separators(body[1..])
  }

  /** The open chart after counting `body`: its note rows with a step, its note rows with
      a jump, and four beats per separator. */
  function CountBody(d: ChartDraft, body: seq<string>): ChartDraft {
    d.(steps := d.steps + NoteRows(body, 1), jumps := d.jumps + NoteRows(body, 2),
       beats := d.beats + 4 * Separators(body))
  }

  /** The lines of a chart body: neither a new `#NOTES` nor the closing `;`. */
  predicate PlainBody(body: seq<string>) {
    forall l | l in body :: !OpensChart(l) && !ClosesChart(l)
  }

  // ---------------------------------------------------------------------------
  // Lemmas

  /** Scanning `xs + ys` is scanning `xs`, then `ys` from where that left off. */
  lemma {:induction false} RunAppend(songId: string, st: ScanState, xs: seq<string>, ys: seq<string>)
    requires Reachable(songId, st)
    ensures RunFrom(songId, st, xs + ys)
              == if RunFrom(songId, st, xs).Err? then RunFrom(songId, st, xs)
                 else RunFrom(songId, RunFrom(songId, st, xs).value, ys)
    decreases |xs|
  {
    if xs == [] {
      assert xs + ys == ys;
    } else {
      assert (xs + ys)[0] == xs[0] && (xs + ys)[1..] == xs[1..] + ys;
      if Step(songId, st, xs[0]).Ok? {
        RunAppend(songId, Step(songId, st, xs[0]).value, xs[1..], ys);
      }
    }
  }

  /** Blank lines change nothing: the scan of the non-blank lines is the same scan. */
  lemma {:induction false} BlankLinesIgnored(songId: string, st: ScanState, lines: seq<string>)
    requires Reachable(songId, st)
    ensures RunFrom(songId, st, NonBlank(lines)) == RunFrom(songId, st, lines)
    decreases |lines|
  {
    if lines != [] {
      if Blank(lines[0]) {
        BlankLinesIgnored(songId, st, lines[1..]);
      } else {
        var rest := NonBlank(lines[1..]);
        assert ([lines[0]] + rest)[0] == lines[0] && ([lines[0]] + rest)[1..] == rest;
        if Step(songId, st, lines[0]).Ok? {
          BlankLinesIgnored(songId, Step(songId, st, lines[0]).value, lines[1..]);
        }
      }
    }
  }

  /** Once past the header, the header lines are final and the scan never returns to it. */
  lemma {:induction false} PastHeader(songId: string, st: ScanState, lines: seq<string>)
    requires Reachable(songId, st) && st.phase != Header
    ensures RunFrom(songId, st, lines).Ok? ==>
              && RunFrom(songId, st, lines).value.phase != Header
              && RunFrom(songId, st, lines).value.headerLines == st.headerLines
    decreases |lines|
  {
    if lines != [] && Step(songId, st, lines[0]).Ok? {
      PastHeader(songId, Step(songId, st, lines[0]).value, lines[1..]);
    }
  }

  /** The header lines the scan collects are the stripped non-blank lines before the
      first `#NOTES`, whatever follows. */
  lemma {:induction false} HeaderScan(songId: string, st: ScanState, lines: seq<string>)
    requires Reachable(songId, st) && st.phase == Header
    ensures RunFrom(songId, st, lines).Ok? ==>
              RunFrom(songId, st, lines).value.headerLines == st.headerLines + HeaderLines(lines)
    decreases |lines|
  {
    if lines == [] {
      assert st.headerLines + [] == st.headerLines;
    } else if Step(songId, st, lines[0]).Ok? {
      var next := Step(songId, st, lines[0]).value;
      if Blank(lines[0]) {
        HeaderScan(songId, next, lines[1..]);
      } else if OpensChart(lines[0]) {
        PastHeader(songId, next, lines[1..]);
        assert st.headerLines + [] == st.headerLines;
      } else {
        HeaderScan(songId, next, lines[1..]);
        assert st.headerLines + [Strip(lines[0])] + HeaderLines(lines[1..])
            == st.headerLines + ([Strip(lines[0])] + HeaderLines(lines[1..]));
      }
    }
  }

  /** The metadata of a chart file is read from its header lines alone. */
  lemma MetadataFromHeader(songId: string, lines: seq<string>)
    ensures ChartFile(songId, lines).Ok? ==> ChartFile(songId, lines).value.0 == MetadataOf(HeaderLines(lines))
  {
    HeaderScan(songId, Start(), lines);
    assert [] + HeaderLines(lines) == HeaderLines(lines);
  }

  /** A header without `#NOTES` is read line by line into the header lines, and nothing
      else changes. */
  lemma {:induction false} HeaderOnly(songId: string, st: ScanState, header: seq<string>)
    requires Reachable(songId, st) && st.phase == Header
    requires forall l | l in header :: !OpensChart(l)
    ensures RunFrom(songId, st, header) == Ok(st.(headerLines := st.headerLines + HeaderLines(header)))
    decreases |header|
  {
    if header == [] {
      assert st.headerLines + [] == st.headerLines;
    } else {
      assert header[0] in header;
      assert forall l | l in header[1..] :: l in header;
      var next := Step(songId, st, header[0]).value;
      HeaderOnly(songId, next, header[1..]);
      if !Blank(header[0]) {
        assert st.headerLines + [Strip(header[0])] + HeaderLines(header[1..])
            == st.headerLines + ([Strip(header[0])] + HeaderLines(header[1..]));
      }
    }
  }

  /** Inside a chart body, every note row adds a step when it has a step cell and a jump
      when it has two, every `,` line adds a measure of four beats, and all other lines
      are ignored; the chart stays open and no chart is emitted. */
  lemma {:induction false} BodyScan(songId: string, st: ScanState, body: seq<string>)
    requires Reachable(songId, st) && st.phase == Body
    requires PlainBody(body)
    ensures RunFrom(songId, st, body) == Ok(st.(draft := CountBody(st.draft, body)))
    decreases |body|
  {
    if body != [] {
      assert body[0] in body;
      assert forall l | l in body[1..] :: l in body;
      BodyLine(songId, st, body[0]);
      var next := st.(draft := CountBody(st.draft, [body[0]]));
      BodyScan(songId, next, body[1..]);
      assert [body[0]][1..] == [];
      assert CountBody(next.draft, body[1..]) == CountBody(st.draft, body);
    }
  }

  /** One line of a chart body counts as a note row, a separator, or nothing. */
  lemma BodyLine(songId: string, st: ScanState, raw: string)
    requires Reachable(songId, st) && st.phase == Body
    requires !OpensChart(raw) && !ClosesChart(raw)
    ensures Step(songId, st, raw) == Ok(st.(draft := CountBody(st.draft, [raw])))
  {
    var line := Strip(raw);
    assert [raw][1..] == [];
    assert NoteRows([raw], 1) == if IsNoteRow(line) && StepCells(line) >= 1 then 1 else 0;
    assert NoteRows([raw], 2) == if IsNoteRow(line) && StepCells(line) >= 2 then 1 else 0;
    assert Separators([raw]) == if StartsWith(line, ",") then 1 else 0;
    if IsNoteRow(line) {
      assert line[0] != ',';
    } else if line != [] {
      assert Step(songId, st, raw) == BodyStep(songId, st, line);
    }
  }


  /** The five positional lines after `#NOTES`: the first is the chart type, the third
      the difficulty (colons stripped, lower-cased), the fourth the meter, which must be
      an integer; the second and fifth are skipped. The counters carry over. */
  lemma ChartPreamble(songId: string, st: ScanState,
                      notes: string, typeLine: string, credit: string,
                      difficultyLine: string, meterLine: string, radar: string)
    requires Reachable(songId, st) && st.draft.chartType.None?
    requires OpensChart(notes)
    requires forall l | l in [typeLine, credit, difficultyLine, meterLine, radar] ::
               !Blank(l) && !OpensChart(l)
    ensures RunFrom(songId, st, [notes, typeLine, credit, difficultyLine, meterLine, radar])
              == match ParseInt(Trim(Strip(meterLine), IsColon))
                 case None => Err(OtherFailure(ValueError))
                 case Some(meter) =>
                   Ok(st.(phase := Body,
                          draft := st.draft.(chartType := Some(Strip(typeLine)),
                                             difficulty := Some(DifficultyLabel(Strip(difficultyLine))),
                                             meter := Some(meter))))
  {
    var lines := [notes, typeLine, credit, difficultyLine, meterLine, radar];
    assert typeLine in lines[1..] && credit in lines[1..] && difficultyLine in lines[1..];
    assert meterLine in lines[1..] && radar in lines[1..];
    var s1 := st.(phase := Preamble(0));
    assert Step(songId, st, notes) == Ok(s1);
    var s2 := s1.(phase := Preamble(1), draft := s1.draft.(chartType := Some(Strip(typeLine))));
    assert Step(songId, s1, typeLine) == Ok(s2);
    var s3 := s2.(phase := Preamble(2));
    assert Step(songId, s2, credit) == Ok(s3);
    var s4 := s3.(phase := Preamble(3), draft := s3.draft.(difficulty := Some(DifficultyLabel(Strip(difficultyLine)))));
    assert Step(songId, s3, difficultyLine) == Ok(s4);
    assert lines[1..][1..][1..][1..] == [meterLine, radar];
    match ParseInt(Trim(Strip(meterLine), IsColon))
    case None =>
      assert Step(songId, s4, meterLine) == Err(OtherFailure(ValueError));
      assert RunFrom(songId, s4, [meterLine, radar]) == Err(OtherFailure(ValueError));
      assert RunFrom(songId, s3, lines[1..][1..][1..]) == Err(OtherFailure(ValueError));
      assert RunFrom(songId, s1, lines[1..]) == Err(OtherFailure(ValueError));
    case Some(meter) =>
      var s5 := s4.(phase := Preamble(4), draft := s4.draft.(meter := Some(meter)));
      assert Step(songId, s4, meterLine) == Ok(s5);
      var s6 := s5.(phase := Body);
      assert Step(songId, s5, radar) == Ok(s6);
      assert RunFrom(songId, s5, [radar]) == Ok(s6);
      assert RunFrom(songId, s4, [meterLine, radar]) == Ok(s6);
      assert RunFrom(songId, s3, lines[1..][1..][1..]) == Ok(s6);
      assert RunFrom(songId, s1, lines[1..]) == Ok(s6);
  }

  /** `#NOTES` followed by the five non-blank positional lines. */
  predicate ChartOpening(preamble: seq<string>) {
    && |preamble| == 6
    && OpensChart(preamble[0])
    && forall i | 1 <= i < 6 :: !Blank(preamble[i]) && !OpensChart(preamble[i])
  }

  /** A whole chart block: its opening, a plain body and the closing `;` line emit one
      chart that carries the song id, the composite id, the preamble's type, difficulty
      and meter, and the body's counts added to the counters it started with; then a
      fresh dictionary is begun. */
  lemma ChartBlock(songId: string, st: ScanState, preamble: seq<string>, body: seq<string>,
                   close: string, meter: int) returns (chart: Chart)
    requires Reachable(songId, st) && st.draft.chartType.None?
    requires ChartOpening(preamble) && PlainBody(body) && ClosesChart(close)
    requires ParseInt(Trim(Strip(preamble[4]), IsColon)) == Some(meter)
    ensures var difficulty := DifficultyLabel(Strip(preamble[3]));
            chart == Chart(ChartId(songId, difficulty, meter), songId, Strip(preamble[1]),
                           difficulty, meter, st.draft.steps + NoteRows(body, 1),
                           st.draft.jumps + NoteRows(body, 2), st.draft.beats + 4 * Separators(body))
    ensures RunFrom(songId, st, preamble + body + [close])
              == Ok(st.(phase := Body, draft := NewDraft(), charts := st.charts + [chart]))
  {
    var p := preamble;
    var difficulty := DifficultyLabel(Strip(p[3]));
    var inBody := OpenChart(songId, st, p, meter);
    BodyScan(songId, inBody, body);
    var filled := inBody.(draft := CountBody(inBody.draft, body));
    RunAppend(songId, st, p, body);
    assert RunFrom(songId, st, p + body) == Ok(filled);
    var closed := CloseChart(songId, filled, close);
    RunAppend(songId, st, p + body, [close]);
    assert RunFrom(songId, st, p + body + [close]) == Ok(closed);
    chart := Chart(ChartId(songId, difficulty, meter), songId, Strip(p[1]), difficulty, meter,
                       st.draft.steps + NoteRows(body, 1), st.draft.jumps + NoteRows(body, 2),
                       st.draft.beats + 4 * Separators(body));
    assert filled.draft == st.draft.(chartType := Some(Strip(p[1])), difficulty := Some(difficulty),
                                     meter := Some(meter), steps := chart.steps, jumps := chart.jumps,
                                     beats := chart.beats);
    assert closed == st.(phase := Body, draft := NewDraft(), charts := st.charts + [chart]);
  }

  /** Helper for `ChartBlock`: the opening lines of a chart whose meter is an integer. */
  lemma OpenChart(songId: string, st: ScanState, p: seq<string>, meter: int) returns (inBody: ScanState)
    requires Reachable(songId, st) && st.draft.chartType.None?
    requires ChartOpening(p)
    requires ParseInt(Trim(Strip(p[4]), IsColon)) == Some(meter)
    ensures inBody == st.(phase := Body,
                          draft := st.draft.(chartType := Some(Strip(p[1])),
                                             difficulty := Some(DifficultyLabel(Strip(p[3]))),
                                             meter := Some(meter)))
    ensures RunFrom(songId, st, p) == Ok(inBody)
  {
    assert p == [p[0], p[1], p[2], p[3], p[4], p[5]];
    assert forall l | l in [p[1], p[2], p[3], p[4], p[5]] :: !Blank(l) && !OpensChart(l) by {
      assert forall l | l in [p[1], p[2], p[3], p[4], p[5]] :: exists i | 1 <= i < 6 :: l == p[i];
    }
    ChartPreamble(songId, st, p[0], p[1], p[2], p[3], p[4], p[5]);
    inBody := RunFrom(songId, st, p).value;
  }

  /** Helper for `ChartBlock`: the closing line of a fully described chart. */
  lemma CloseChart(songId: string, filled: ScanState, close: string) returns (closed: ScanState)
    requires Reachable(songId, filled) && filled.phase == Body && ClosesChart(close)
    requires filled.draft.chartType.Some? && filled.draft.difficulty.Some? && filled.draft.meter.Some?
    ensures var d := filled.draft;
            && closed == filled.(draft := NewDraft(),
                                 charts := filled.charts
                                           + [Chart(ChartId(songId, d.difficulty.value, d.meter.value), songId,
                                                    d.chartType.value, d.difficulty.value, d.meter.value,
                                                    d.steps, d.jumps, d.beats)])
            && RunFrom(songId, filled, [close]) == Ok(closed)
  {
    var line := Strip(close);
    assert line[..1] == ";";
    assert line[0] == ';';
    assert |line| < 6 || line[..6][0] == ';';
    closed := BodyStep(songId, filled, line).value;
    assert Step(songId, filled, close) == Ok(closed);
  }

  /** A `#NOTES` line while the current chart already has a type is fatal for the file:
      in particular two chart openings with no `;` between them. */
  lemma NestedChartIsFatal(songId: string, st: ScanState, notes: string, typeLine: string, again: string)
    requires Reachable(songId, st)
    requires OpensChart(notes) && OpensChart(again)
    requires !Blank(typeLine) && !OpensChart(typeLine)
    ensures RunFrom(songId, st, [notes, typeLine, again]) == Err(SongFailure(NestedChart))
  {
    var lines := [notes, typeLine, again];
    assert lines[1..] == [typeLine, again] && lines[1..][1..] == [again];
    if st.draft.chartType.None? {
      var s1 := st.(phase := Preamble(0));
      assert Step(songId, st, notes) == Ok(s1);
      var s2 := s1.(phase := Preamble(1), draft := s1.draft.(chartType := Some(Strip(typeLine))));
      assert Step(songId, s1, typeLine) == Ok(s2);
      assert Step(songId, s2, again) == Err(SongFailure(NestedChart));
      assert RunFrom(songId, s2, [again]) == Err(SongFailure(NestedChart));
      assert RunFrom(songId, s1, [typeLine, again]) == Err(SongFailure(NestedChart));
    }
  }

  /** A file made of header lines and one complete chart: the metadata comes from the
      header, and the single chart counts the body from the fresh counters (no steps, no
      jumps, one measure). */
  lemma SingleChartFile(songId: string, header: seq<string>, preamble: seq<string>,
                        body: seq<string>, close: string, meter: int) returns (chart: Chart)
    requires forall l | l in header :: !OpensChart(l)
    requires ChartOpening(preamble) && PlainBody(body) && ClosesChart(close)
    requires ParseInt(Trim(Strip(preamble[4]), IsColon)) == Some(meter)
    ensures var difficulty := DifficultyLabel(Strip(preamble[3]));
            chart == Chart(ChartId(songId, difficulty, meter), songId, Strip(preamble[1]),
                           difficulty, meter, NoteRows(body, 1), NoteRows(body, 2),
                           4 + 4 * Separators(body))
    ensures ChartFile(songId, header + preamble + body + [close])
              == Ok((MetadataOf(HeaderLines(header)), [chart]))
  {
    var rest := preamble + body + [close];
    assert header + preamble + body + [close] == header + rest;
    HeaderOnly(songId, Start(), header);
    RunAppend(songId, Start(), header, rest);
    var afterHeader := Start().(headerLines := [] + HeaderLines(header));
    chart := ChartBlock(songId, afterHeader, preamble, body, close, meter);
    assert [] + HeaderLines(header) == HeaderLines(header);
    assert [] + [chart] == [chart];
  }

  /** A chart still open when the file ends is not returned: a file made of header lines
      and a chart opening and body without the closing `;` has no charts. */
  lemma UnclosedChartDropped(songId: string, header: seq<string>, preamble: seq<string>,
                             body: seq<string>, meter: int)
    requires forall l | l in header :: !OpensChart(l)
    requires ChartOpening(preamble) && PlainBody(body)
    requires ParseInt(Trim(Strip(preamble[4]), IsColon)) == Some(meter)
    ensures ChartFile(songId, header + preamble + body) == Ok((MetadataOf(HeaderLines(header)), []))
  {
    var rest := preamble + body;
    assert header + preamble + body == header + rest;
    HeaderOnly(songId, Start(), header);
    RunAppend(songId, Start(), header, rest);
    var afterHeader := Start().(headerLines := [] + HeaderLines(header));
    assert [] + HeaderLines(header) == HeaderLines(header);
    var inBody := OpenChart(songId, afterHeader, preamble, meter);
    RunAppend(songId, afterHeader, preamble, body);
    BodyScan(songId, inBody, body);
  }
}
