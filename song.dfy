/** Building one song from one chart-file path (`Song.__init__` with `get_song_path`,
    `parse_bpms` and the text part of `get_duration`).

    The checks run in the source's order: companion audio, then the chart file itself,
    then title and artist, then the `bpms` value, then the audio's duration. The file
    system and the external duration probe are the `Env` the song is built in. */
module SongAssembly {
  import opened Results
  import opened Text
  import opened Numbers
  import opened Metadata
  import opened ChartScanner

  /** What the external duration probe gives back for an audio file: it could not be
      run, its output is not valid UTF-8, or its output as text. */
  datatype ProbeOutcome = ProbeFailed | ProbeNotText | ProbeText(output: string)

  /** What the file system holds around one chart-file path: the `*.ogg` and `*.mp3`
      files of its directory in glob order, and the file's lines once decoded (`None`
      when it is not valid UTF-8). */
  datatype SongFiles = SongFiles(oggFiles: seq<string>, mp3Files: seq<string>, lines: Option<seq<string>>)

  /** The world a scan runs in: the path-to-id hash (an MD5 digest of the path in the
      source, kept abstract), the file system, and the duration probe. */
  datatype Env = Env(idOf: string -> string, files: string -> SongFiles, probe: string -> ProbeOutcome)

  datatype Song = Song(
    id: string, path: string, title: string, artist: string,
    bpm: Option<int>, bpms: seq<int>, seconds: int, songPath: string,
    metadata: map<string, string>, charts: seq<Chart>)

  // ---------------------------------------------------------------------------
  // Companion audio

  /** The first `*.ogg`, else the first `*.mp3`; neither is a `SongException`. */
  function ResolveAudio(oggFiles: seq<string>, mp3Files: seq<string>): (r: Result<string>)
    ensures r.Ok? <==> oggFiles != [] || mp3Files != []
    ensures r.Ok? ==> r.value in oggFiles || r.value in mp3Files
    ensures oggFiles != [] ==> r == Ok(oggFiles[0])
    ensures oggFiles == [] && mp3Files != [] ==> r == Ok(mp3Files[0])
    ensures r.Err? ==> r.failure == SongFailure(MissingAudio)
  {
    if oggFiles != [] then Ok(oggFiles[0])
    else if mp3Files != [] then Ok(mp3Files[0])
    else Err(SongFailure(MissingAudio))
  }

  // ---------------------------------------------------------------------------
  // Tempo

  /** One `beat=bpm` segment: the text after its last `=`, read as `int(float(...))`. */
  function BpmOf(segment: string): Option<int> {
    TruncFloat(LastPiece(segment, '='))
  }

  /** The list comprehension of `parse_bpms` over the segments, in order; the first
      segment that is not a number raises `ValueError`. */
  function BpmList(segments: seq<string>): (r: Result<seq<int>>)
    ensures r.Ok? <==> forall i | 0 <= i < |segments| :: BpmOf(segments[i]).Some?
    ensures r.Ok? ==> |r.value| == |segments|
    ensures r.Ok? ==> forall i | 0 <= i < |segments| :: r.value[i] == BpmOf(segments[i]).value
    ensures r.Err? ==> r.failure == OtherFailure(ValueError)
    decreases |segments|
  {
    if segments == [] then Ok([])
    else
      match BpmOf(segments[0])
      case None => Err(OtherFailure(ValueError))
      case Some(b) =>
        var rest :- BpmList(segments[1..]);
        Ok([b] + rest)
  }

  /** `parse_bpms`: one entry per `,`-separated segment of the `bpms` value, so never an
      empty list. */
  function ParseBpms(value: string): (r: Result<seq<int>>)
    ensures r.Ok? ==> |r.value| == |Split(value, ',')| && |r.value| >= 1
    ensures r.Err? ==> r.failure == OtherFailure(ValueError)
  {
    BpmList(Split(value, ','))
  }

  /** The single tempo: the only entry when there is exactly one. */
  function SingleBpm(bpms: seq<int>): (r: Option<int>)
    ensures r.Some? <==> |bpms| == 1
    ensures r.Some? ==> r.value == bpms[0] && r.value in bpms
  {
    if |bpms| == 1 then Some(bpms[0]) else None
  }

  // ---------------------------------------------------------------------------
  // Duration

  /** The stripped probe-output lines that start with `Duration`, in order. */
  function DurationLines(lines: seq<string>): seq<string>
    decreases |lines|
  {
    if lines == [] then []
    else
      (if StartsWith(Strip(lines[0]), "Duration") then [Strip(lines[0])] else [])
      + DurationLines(lines[1..])
  }

  /** The `:`-separated fields of a duration line: what follows `Duration: `, up to the
      first `, `. */
  function DurationFields(line: string): (fields: seq<string>)
    ensures |fields| >= 1
  {
    var rest := if |line| < |"Duration: "| then "" else line[|"Duration: "|..];
    Split(BeforeFirst(rest, ", "), ':')
  }

  /** The duration a `Duration` line states: the whole seconds of its last field plus
      sixty times the field before it. A single field is an `IndexError`, a field that is
      not a number a `ValueError`. */
  function DurationOfLine(line: string): (r: Result<int>)
    ensures r.Err? ==> r.failure == OtherFailure(IndexError) || r.failure == OtherFailure(ValueError)
  {
    var fields := DurationFields(line);
    match TruncFloat(fields[|fields| - 1])
    case None => Err(OtherFailure(ValueError))
    case Some(seconds) =>
      if |fields| < 2 then Err(OtherFailure(IndexError))
      else
        match ParseInt(fields[|fields| - 2])
        case None => Err(OtherFailure(ValueError))
        case Some(minutes) => Ok(seconds + 60 * minutes)
  }

  /** The text part of `get_duration`: the duration stated by the first `Duration` line of
      the probe output; no such line is an `IndexError`. */
  function ParseDuration(output: string): (r: Result<int>)
    ensures r.Err? ==> r.failure == OtherFailure(IndexError) || r.failure == OtherFailure(ValueError)
  {
    var candidates := DurationLines(Split(output, '\n'));
    if candidates == [] then Err(OtherFailure(IndexError))
    else DurationOfLine(candidates[0])
  }

  /** Running the probe and decoding its output; undecodable output is the same
      `UnicodeDecodeError` as an undecodable chart file. */
  function ProbeOutput(outcome: ProbeOutcome): (r: Result<string>)
    ensures r.Ok? <==> outcome.ProbeText?
    ensures r.Ok? ==> r.value == outcome.output
    ensures outcome.ProbeFailed? ==> r == Err(OtherFailure(ProbeError))
    ensures outcome.ProbeNotText? ==> r == Err(DecodeFailure)
  {
    match outcome
    case ProbeFailed => Err(OtherFailure(ProbeError))
    case ProbeNotText => Err(DecodeFailure)
    case ProbeText(output) => Ok(output)
  }

  // ---------------------------------------------------------------------------
  // The song

  /** `metadata.get(key)` is truthy. */
  predicate HasText(metadata: map<string, string>, key: string) {
    key in metadata && metadata[key] != []
  }

  /** Both the title and the artist are present and non-empty. */
  predicate Credited(metadata: map<string, string>) {
    HasText(metadata, "title") && HasText(metadata, "artist")
  }

  /** Reading the chart file; an undecodable file is a `UnicodeDecodeError`. */
  function Decoded(lines: Option<seq<string>>): Result<seq<string>> {
    match lines
    case None => Err(DecodeFailure)
    case Some(ls) => Ok(ls)
  }

  /** What every constructed song satisfies: it is keyed by its path's id, has a
      non-empty title and artist from its metadata, at least one tempo, the single
      tempo exactly when there is one, and charts that all belong to it. */
  predicate ValidSong(id: string, s: Song) {
    && s.id == id
    && HasText(s.metadata, "title") && s.title == s.metadata["title"]
    && HasText(s.metadata, "artist") && s.artist == s.metadata["artist"]
    && "bpms" in s.metadata && ParseBpms(s.metadata["bpms"]) == Ok(s.bpms)
    && |s.bpms| >= 1
    && (s.bpm.Some? <==> |s.bpms| == 1) && (s.bpm.Some? ==> s.bpm.value == s.bpms[0])
    && forall c | c in s.charts :: ChartConsistent(id, c)
  }

  /** `Song(path)`: the song, or the exception its construction raises. The checks come
      in the source's order: the companion audio first (before the chart file is read),
      then decoding, then the scan, then title and artist, then a `bpms` entry, whose
      absence is a `KeyError`; the empty-tempo-list check can never fire. */
  function Assemble(env: Env, path: string): (r: Result<Song>)
    ensures r.Ok? ==> ValidSong(env.idOf(path), r.value) && r.value.path == path
    ensures r != Err(SongFailure(NoBpm))
    ensures var f := env.files(path);
            && (f.oggFiles == [] && f.mp3Files == [] ==> r == Err(SongFailure(MissingAudio)))
            && ((f.oggFiles != [] || f.mp3Files != []) && f.lines.None? ==> r == Err(DecodeFailure))
            && ((f.oggFiles != [] || f.mp3Files != []) && f.lines.Some? ==>
                  var scan := ChartFile(env.idOf(path), f.lines.value);
                  && (scan.Err? ==> r == Err(scan.failure))
                  && (scan.Ok? && !Credited(scan.value.0) ==> r == Err(SongFailure(MissingTitleOrArtist)))
                  && (scan.Ok? && Credited(scan.value.0) && "bpms" !in scan.value.0 ==>
                        r == Err(OtherFailure(KeyError("bpms")))))
    ensures var f := env.files(path);
            var audio := ResolveAudio(f.oggFiles, f.mp3Files);
            r.Ok? <==>
              && audio.Ok? && f.lines.Some?
              && var scan := ChartFile(env.idOf(path), f.lines.value);
                 && scan.Ok? && Credited(scan.value.0) && "bpms" in scan.value.0
                 && ParseBpms(scan.value.0["bpms"]).Ok?
                 && env.probe(audio.value).ProbeText?
                 && ParseDuration(env.probe(audio.value).output).Ok?
    ensures var f := env.files(path);
            var audio := ResolveAudio(f.oggFiles, f.mp3Files);
            r.Ok? ==>
              && f.lines.Some?
              && ChartFile(env.idOf(path), f.lines.value) == Ok((r.value.metadata, r.value.charts))
              && audio == Ok(r.value.songPath)
              && env.probe(r.value.songPath).ProbeText?
              && ParseDuration(env.probe(r.value.songPath).output) == Ok(r.value.seconds)
    ensures var f := env.files(path);
            var audio := ResolveAudio(f.oggFiles, f.mp3Files);
            audio.Ok? && f.lines.Some? ==>
              var scan := ChartFile(env.idOf(path), f.lines.value);
              scan.Ok? && Credited(scan.value.0) && "bpms" in scan.value.0 ==>
                var bpms := ParseBpms(scan.value.0["bpms"]);
                var probe := env.probe(audio.value);
                && (bpms.Err? ==> r == Err(OtherFailure(ValueError)))
                && (bpms.Ok? && probe.ProbeFailed? ==> r == Err(OtherFailure(ProbeError)))
                && (bpms.Ok? && probe.ProbeNotText? ==> r == Err(DecodeFailure))
                && (bpms.Ok? && probe.ProbeText? && ParseDuration(probe.output).Err? ==>
                      r == Err(ParseDuration(probe.output).failure))
  {
    var id := env.idOf(path);
    var f := env.files(path);
    var songPath :- ResolveAudio(f.oggFiles, f.mp3Files);
    var lines :- Decoded(f.lines);
    var parsed :- ChartFile(id, lines);
    var metadata := parsed.0;
    if !Credited(metadata) then
      Err(SongFailure(MissingTitleOrArtist))
    else if "bpms" !in metadata then Err(OtherFailure(KeyError("bpms")))
    else
      var bpms :- ParseBpms(metadata["bpms"]);
      if bpms == [] then Err(SongFailure(NoBpm))
      else
        var output :- ProbeOutput(env.probe(songPath));
        var seconds :- ParseDuration(output);
        Ok(Song(id, path, metadata["title"], metadata["artist"], SingleBpm(bpms), bpms,
                seconds, songPath, metadata, parsed.1))
  }

  /** The constructor `Song.__init__`, step by step. */
  method NewSong(env: Env, path: string) returns (r: Result<Song>)
    ensures r == Assemble(env, path)
  {
    var id := env.idOf(path);
    var f := env.files(path);
    var songPath := ResolveAudio(f.oggFiles, f.mp3Files);
    if songPath.Err? {
      return Err(songPath.failure);
    }
    if f.lines.None? {
      return Err(DecodeFailure);
    }
    var parsed := ParseFile(id, f.lines.value);
    if parsed.Err? {
      return Err(parsed.failure);
    }
    var metadata, charts := parsed.value.0, parsed.value.1;
    if !Credited(metadata) {
      return Err(SongFailure(MissingTitleOrArtist));
    }
    if "bpms" !in metadata {
      return Err(OtherFailure(KeyError("bpms")));
    }
    var bpms := ParseBpms(metadata["bpms"]);
    if bpms.Err? {
      return Err(bpms.failure);
    }
    if bpms.value == [] {
      return Err(SongFailure(NoBpm));
    }
    var bpm := if |bpms.value| == 1 then Some(bpms.value[0]) else None;
    var output := ProbeOutput(env.probe(songPath.value));
    if output.Err? {
      return Err(output.failure);
    }
    var seconds := ParseDuration(output.value);
    if seconds.Err? {
      return Err(seconds.failure);
    }
    return Ok(Song(id, path, metadata["title"], metadata["artist"], bpm, bpms.value,
                   seconds.value, songPath.value, metadata, charts));
  }

  // ---------------------------------------------------------------------------
  // Lemmas

  /** The `bpms` text of a tempo map with whole-number beats and tempos. */
  function BpmSegment(beat: nat, bpm: int): string {
    NatToString(beat) + "=" + IntToString(bpm)
  }

  function BpmsText(beats: seq<nat>, bpms: seq<int>): string
    requires |beats| == |bpms|
  {
    Join(seq(|bpms|, i requires 0 <= i < |bpms| => BpmSegment(beats[i], bpms[i])), ',')
  }

  lemma NumberHasNo(n: int, c: char)
    requires c != '-' && !IsDigit(c)
    ensures c !in IntToString(n) && c !in NatToString(Abs(n))
  {
    var ds := NatToString(Abs(n));
    assert forall i | 0 <= i < |ds| :: ds[i] != c by {
      assert forall i | 0 <= i < |ds| :: IsDigit(ds[i]);
    }
  }

  /** Each segment reads back as its tempo. */
  lemma BpmOfSegment(beat: nat, bpm: int)
    ensures ',' !in BpmSegment(beat, bpm)
    ensures BpmOf(BpmSegment(beat, bpm)) == Some(bpm)
  {
    NumberHasNo(beat, ',');
    NumberHasNo(bpm, ',');
    NumberHasNo(bpm, '=');
    assert NatToString(Abs(beat)) == NatToString(beat);
    LastPieceAfter(NatToString(beat), '=', IntToString(bpm));
    TruncFloatOfString(bpm);
  }

  /** Writing a tempo map as `beat=bpm,...` and parsing it gives the tempos back, one per
      segment, in order. */
  lemma BpmsRoundTrip(beats: seq<nat>, bpms: seq<int>)
    requires |beats| == |bpms| >= 1
    ensures ParseBpms(BpmsText(beats, bpms)) == Ok(bpms)
  {
    var segments := seq(|bpms|, i requires 0 <= i < |bpms| => BpmSegment(beats[i], bpms[i]));
    forall i | 0 <= i < |segments|
      ensures ',' !in segments[i] && BpmOf(segments[i]) == Some(bpms[i])
    {
      BpmOfSegment(beats[i], bpms[i]);
    }
    SplitJoin(segments, ',');
    var r := BpmList(segments);
    assert r.Ok?;
    assert r.value == bpms;
  }

  /** The decimal `w.f`. */
  function DecimalText(w: string, f: string): string {
    w + "." + f
  }

  lemma DigitsHaveNo(ds: string, c: char)
    requires AllDigits(ds) && !IsDigit(c)
    ensures c !in ds
  {
    assert forall i | 0 <= i < |ds| :: ds[i] != c by {
      assert forall i | 0 <= i < |ds| :: IsDigit(ds[i]);
    }
  }

  /** A segment `a.b=c.d` of digit runs reads as the whole part of `c.d`. */
  lemma DecimalSegment(a: string, b: string, c: string, d: string)
    requires a != [] && c != [] && AllDigits(a) && AllDigits(b) && AllDigits(c) && AllDigits(d)
    ensures ',' !in DecimalText(a, b) + "=" + DecimalText(c, d)
    ensures BpmOf(DecimalText(a, b) + "=" + DecimalText(c, d)) == Some(DigitsValue(c))
  {
    DigitsHaveNo(a, ','); DigitsHaveNo(b, ','); DigitsHaveNo(c, ','); DigitsHaveNo(d, ',');
    DigitsHaveNo(c, '='); DigitsHaveNo(d, '=');
    LastPieceAfter(DecimalText(a, b), '=', DecimalText(c, d));
    TruncFloatOfDecimal(c, d);
  }

  /** The probe's duration line `Duration: H:M:S.F, tail`. */
  function ProbeDurationLine(hours: string, minutes: string, seconds: string, fraction: string,
                             tail: string): string {
    "Duration: " + DurationClock(hours, minutes, seconds, fraction) + ", " + tail
  }

  /** `H:M:S.F`. */
  function DurationClock(hours: string, minutes: string, seconds: string, fraction: string): string {
    hours + ":" + minutes + ":" + DecimalText(seconds, fraction)
  }

  lemma {:induction false} DurationLinesAppend(xs: seq<string>, ys: seq<string>)
    ensures DurationLines(xs + ys) == DurationLines(xs) + DurationLines(ys)
    decreases |xs|
  {
    if xs == [] {
      assert xs + ys == ys;
    } else {
      assert (xs + ys)[0] == xs[0] && (xs + ys)[1..] == xs[1..] + ys;
      DurationLinesAppend(xs[1..], ys);
    }
  }

  lemma {:induction false} NoDurationLines(lines: seq<string>)
    requires forall l | l in lines :: !StartsWith(Strip(l), "Duration")
    ensures DurationLines(lines) == []
    decreases |lines|
  {
    if lines != [] {
      assert lines[0] in lines;
      assert forall l | l in lines[1..] :: l in lines;
      NoDurationLines(lines[1..]);
    }
  }

  /** The fields of a duration line are hours, minutes and the decimal seconds. */
  lemma ClockFields(hours: string, minutes: string, seconds: string, fraction: string, tail: string)
    requires AllDigits(hours) && AllDigits(minutes) && AllDigits(seconds) && AllDigits(fraction)
    ensures DurationFields(ProbeDurationLine(hours, minutes, seconds, fraction, tail))
              == [hours, minutes, DecimalText(seconds, fraction)]
  {
    var clock := DurationClock(hours, minutes, seconds, fraction);
    var line := ProbeDurationLine(hours, minutes, seconds, fraction, tail);
    var rest := clock + ", " + tail;
    assert line == "Duration: " + rest;
    assert line[|"Duration: "|..] == rest;
    DigitsHaveNo(hours, ','); DigitsHaveNo(minutes, ','); DigitsHaveNo(seconds, ','); DigitsHaveNo(fraction, ',');
    DigitsHaveNo(hours, ':'); DigitsHaveNo(minutes, ':'); DigitsHaveNo(seconds, ':'); DigitsHaveNo(fraction, ':');
    assert ',' !in clock;
    assert FirstOccurrence(rest, ", ", 0) == |clock| by {
      assert OccursAt(rest, ", ", |clock|) by {
        assert rest[|clock|..|clock| + 2] == ", ";
      }
      forall j | 0 <= j < |clock| ensures !OccursAt(rest, ", ", j) {
        assert rest[j] == clock[j] && clock[j] != ',';
        assert rest[j..j + 2][0] == rest[j];
      }
    }
    assert BeforeFirst(rest, ", ") == clock;
    var parts := [hours, minutes, DecimalText(seconds, fraction)];
    assert parts[1..] == [minutes, DecimalText(seconds, fraction)] && parts[1..][1..] == [DecimalText(seconds, fraction)];
    assert Join(parts[1..][1..], ':') == DecimalText(seconds, fraction);
    assert Join(parts[1..], ':') == minutes + [':'] + DecimalText(seconds, fraction);
    assert Join(parts, ':') == hours + [':'] + (minutes + [':'] + DecimalText(seconds, fraction));
    assert Join(parts, ':') == clock;
    SplitJoin(parts, ':');
  }

  /** The first `Duration` line of `before + [raw] + after` is `raw` stripped, when no
      line of `before` is one and `raw` is. */
  lemma FirstDurationLine(before: seq<string>, raw: string, after: seq<string>)
    requires forall l | l in before :: !StartsWith(Strip(l), "Duration")
    requires StartsWith(Strip(raw), "Duration")
    ensures DurationLines(before + [raw] + after) != []
    ensures DurationLines(before + [raw] + after)[0] == Strip(raw)
  {
    NoDurationLines(before);
    DurationLinesAppend(before + [raw], after);
    DurationLinesAppend(before, [raw]);
    assert DurationLines([raw]) == [Strip(raw)];
  }

  /** The probe line, indented with spaces, strips to itself and is a `Duration` line. */
  lemma IndentedProbeLine(indent: string, line: string, clock: string, tail: string)
    requires forall i | 0 <= i < |indent| :: indent[i] == ' '
    requires tail != [] && !IsSpace(tail[|tail| - 1])
    requires line == "Duration: " + clock + ", " + tail
    ensures Strip(indent + line) == line && StartsWith(line, "Duration")
  {
    assert line[0] == 'D' && line[|line| - 1] == tail[|tail| - 1];
    TrimPadded(indent, line, [], IsSpace);
    assert indent + line + [] == indent + line;
  }

  /** From probe output whose first `Duration` line reads `Duration: H:M:S.F, tail`, the
      duration is `S + 60 * M` whole seconds: the fraction is truncated and the hours are
      ignored. */
  lemma DurationIgnoresHours(before: seq<string>, indent: string, hours: string, minutes: string,
                             seconds: string, fraction: string, tail: string, after: seq<string>)
    requires forall l | l in before :: '\n' !in l && !StartsWith(Strip(l), "Duration")
    requires forall l | l in after :: '\n' !in l
    requires forall i | 0 <= i < |indent| :: indent[i] == ' '
    requires AllDigits(hours) && minutes != [] && AllDigits(minutes)
    requires seconds != [] && AllDigits(seconds) && AllDigits(fraction)
    requires tail != [] && '\n' !in tail && !IsSpace(tail[|tail| - 1])
    ensures ParseDuration(Join(before + [indent + ProbeDurationLine(hours, minutes, seconds, fraction, tail)] + after, '\n'))
              == Ok(DigitsValue(seconds) + 60 * DigitsValue(minutes))
  {
    var line := ProbeDurationLine(hours, minutes, seconds, fraction, tail);
    var raw := indent + line;
    var lines := before + [raw] + after;
    DigitsHaveNo(hours, '\n'); DigitsHaveNo(minutes, '\n'); DigitsHaveNo(seconds, '\n'); DigitsHaveNo(fraction, '\n');
    assert '\n' !in indent;
    assert '\n' !in raw;
    assert forall i | 0 <= i < |lines| :: '\n' !in lines[i] by {
      forall i | 0 <= i < |lines| ensures '\n' !in lines[i] {
        if i < |before| { assert lines[i] in before; }
        else if i > |before| { assert lines[i] in after; }
      }
    }
    SplitJoin(lines, '\n');
    IndentedProbeLine(indent, line, DurationClock(hours, minutes, seconds, fraction), tail);
    FirstDurationLine(before, raw, after);
    ProbeLineDuration(hours, minutes, seconds, fraction, tail);
  }

  /** The duration stated by `Duration: H:M:S.F, tail` is `S + 60 * M`. */
  lemma ProbeLineDuration(hours: string, minutes: string, seconds: string, fraction: string, tail: string)
    requires AllDigits(hours) && minutes != [] && AllDigits(minutes)
    requires seconds != [] && AllDigits(seconds) && AllDigits(fraction)
    ensures DurationOfLine(ProbeDurationLine(hours, minutes, seconds, fraction, tail))
              == Ok(DigitsValue(seconds) + 60 * DigitsValue(minutes))
  {
    ClockFields(hours, minutes, seconds, fraction, tail);
    TruncFloatOfDecimal(seconds, fraction);
    ParseIntOfDigits(minutes);
    DurationOfFields(ProbeDurationLine(hours, minutes, seconds, fraction, tail),
                     [hours, minutes, DecimalText(seconds, fraction)]);
  }

  /** A line whose last field reads as whole seconds and whose field before it reads as
      minutes states their sum. */
  lemma DurationOfFields(line: string, fields: seq<string>)
    requires DurationFields(line) == fields && |fields| >= 2
    requires TruncFloat(fields[|fields| - 1]).Some? && ParseInt(fields[|fields| - 2]).Some?
    ensures DurationOfLine(line)
              == Ok(TruncFloat(fields[|fields| - 1]).value + 60 * ParseInt(fields[|fields| - 2]).value)
  {
  }

}
