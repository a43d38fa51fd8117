/**
  `StepOutputBuilder`: the text of a StepMania `.sm` file for a song, its
  header of `#TAG:value;` lines followed by one `#NOTES` block per chart,
  each holding the chart's measures: one line of cell characters per tick,
  ticks separated by a newline, measures by a line holding a comma, and a
  semicolon at the end.
 */
module StepOutputBuilder {
  import opened Wrappers
  import opened Strings
  import opened StepTypes
  import opened MapTypes
  import SaberParser

  // ---------------------------------------------------------------------
  // The measures of a chart

  /** `notes.join('')`: one character per cell. */
  function TickText(t: Tick): (r: string)
    ensures |r| == |t| && forall i :: 0 <= i < |t| ==> r[i] == CellChar(t[i])
  {
    seq(|t|, i requires 0 <= i < |t| => CellChar(t[i]))
  }

  function TickTexts(m: Measure): (r: seq<string>)
    ensures |r| == |m| && forall i :: 0 <= i < |m| ==> r[i] == TickText(m[i])
  {
    seq(|m|, i requires 0 <= i < |m| => TickText(m[i]))
  }

  /** `note.join('\n')`: the ticks of a measure, one per line. */
  function MeasureText(m: Measure): string
  {
    Join(TickTexts(m), "\n")
  }

  function MeasureTexts(ms: seq<Measure>): (r: seq<string>)
    ensures |r| == |ms| && forall i :: 0 <= i < |ms| ==> r[i] == MeasureText(ms[i])
  {
    seq(|ms|, i requires 0 <= i < |ms| => MeasureText(ms[i]))
  }

  const MeasureSeparator: string := "\n,\n"

  /** `notesString.join('\n,\n')`. */
  function NotesText(ms: seq<Measure>): string
  {
    Join(MeasureTexts(ms), MeasureSeparator)
  }

  /** Reading a cell character back. */
  function CellOf(c: char): Cell
  {
    if c == '1' then Tap else if c == 'M' then Mine else Empty
  }

  function ParseTick(s: string): (t: Tick)
    ensures |t| == |s|
  {
    seq(|s|, i requires 0 <= i < |s| => CellOf(s[i]))
  }

  function ParseMeasure(s: string): (m: Measure)
  {
    var lines := Split(s, "\n");
    seq(|lines|, i requires 0 <= i < |lines| => ParseTick(lines[i]))
  }

  /** Splitting a notes body on the measure separator, then on newlines,
      and reading each character as a cell. */
  function ParseNotes(s: string): (ms: seq<Measure>)
  {
    var parts := Split(s, MeasureSeparator);
    seq(|parts|, i requires 0 <= i < |parts| => ParseMeasure(parts[i]))
  }

  /** A cell reads back from its character. */
  lemma CellRoundTrip(cell: Cell)
    ensures CellOf(CellChar(cell)) == cell
  {
  }

  lemma TickRoundTrip(t: Tick)
    ensures ParseTick(TickText(t)) == t
  {
  }

  lemma TickTextHasNoSeparator(t: Tick, c: char)
    requires c == '\n' || c == ','
    ensures c !in TickText(t)
  {
  }

  /** A newline is a marker of itself, and the comma of the measure
      separator occurs in it once. */
  lemma SeparatorsHaveMarkers()
    ensures MarkerAt("\n", 0) && MarkerAt(MeasureSeparator, 1)
  {
    assert MeasureSeparator == ['\n', ',', '\n'];
  }

  /** No comma in the text of a measure. */
  lemma {:induction false} NoCommaInJoin(parts: seq<string>)
    requires forall i :: 0 <= i < |parts| ==> ',' !in parts[i]
    ensures ',' !in Join(parts, "\n")
    decreases |parts|
  {
    if |parts| > 1 {
      NoCommaInJoin(parts[1..]);
    }
  }

  /** A measure with at least one tick reads back as itself. */
  lemma MeasureRoundTrip(m: Measure)
    requires |m| > 0
    ensures ParseMeasure(MeasureText(m)) == m
    ensures ',' !in MeasureText(m)
  {
    var texts := TickTexts(m);
    SeparatorsHaveMarkers();
    forall i | 0 <= i < |texts| ensures '\n' !in texts[i] && ',' !in texts[i] {
      TickTextHasNoSeparator(m[i], '\n');
      TickTextHasNoSeparator(m[i], ',');
    }
    SplitJoin(texts, "\n", 0);
    NoCommaInJoin(texts);
    forall i | 0 <= i < |m| ensures ParseMeasure(MeasureText(m))[i] == m[i] {
      TickRoundTrip(m[i]);
    }
  }

  /** The notes body reads back as the measures it was written from, when
      there is at least one measure and every measure has a tick (as every
      measure the builder emits does). */
  lemma NotesRoundTrip(ms: seq<Measure>)
    requires |ms| > 0 && forall i :: 0 <= i < |ms| ==> |ms[i]| > 0
    ensures ParseNotes(NotesText(ms)) == ms
  {
    var texts := MeasureTexts(ms);
    SeparatorsHaveMarkers();
    forall i | 0 <= i < |texts| ensures ',' !in texts[i] && ParseMeasure(texts[i]) == ms[i] {
      MeasureRoundTrip(ms[i]);
    }
    SplitJoin(texts, MeasureSeparator, 1);
  }

  // ---------------------------------------------------------------------
  // A chart block

  /** The lines of a `#NOTES` block before its measures. */
  function ChartHeader(chartType: string, difficulty: string, meter: string): string
  {
    "\n#NOTES:\n//---------------" + chartType + " - ----------------\n     " + chartType +
    ":\n     :\n     " + difficulty + ":\n     " + meter + ":\n     0,0,0,0,0:\n"
  }

  /** `chart.name.split('_')[0]`: the chart's difficulty as StepMania reads it. */
  function Difficulty(name: string): (d: string)
    ensures d <= name && '_' !in d
  {
    BeforeFirst(name, '_')
  }

  /** `buildChartInfo`: a block opens with the `#NOTES` line and closes
      with a line holding only the semicolon. */
  function BuildChartInfo(chart: Chart): (r: string)
    ensures "\n#NOTES:\n" <= r
    ensures |r| >= 2 && r[|r| - 2..] == "\n;"
  {
    ChartHeader(chart.chartType, Difficulty(chart.name), chart.meter) + NotesText(chart.notes) + "\n;"
  }

  /** A block is its header, then the measures, which read back as the
      chart's notes, then the closing line. */
  lemma ChartBlockLayout(chart: Chart)
    requires |chart.notes| > 0 && forall i :: 0 <= i < |chart.notes| ==> |chart.notes[i]| > 0
    ensures var header := ChartHeader(chart.chartType, Difficulty(chart.name), chart.meter);
      var block := BuildChartInfo(chart);
      header <= block && |block| >= |header| + 2 &&
      block[|block| - 2..] == "\n;" &&
      ParseNotes(block[|header|..|block| - 2]) == chart.notes
  {
    var header := ChartHeader(chart.chartType, Difficulty(chart.name), chart.meter);
    var body := NotesText(chart.notes);
    var block := BuildChartInfo(chart);
    assert block == header + body + "\n;";
    assert block[|header|..|block| - 2] == body;
    NotesRoundTrip(chart.notes);
  }

  lemma BeforeFirstOfPrefix(p: string, c: char, rest: string)
    requires c !in p
    ensures BeforeFirst(p + [c] + rest, c) == p
  {
    var s := p + [c] + rest;
    assert s[|p|] == c;
  }

  /** No level name holds an underscore. */
  lemma LevelsArePlain()
    ensures forall j :: 0 <= j < |SaberParser.ItgLevelMap| ==> '_' !in SaberParser.ItgLevelMap[j]
  {
  }

  /** The `_Edit` name of a level is written as the level. */
  lemma EditNameIsLevel(level: string)
    requires '_' !in level
    ensures Difficulty(level + "_Edit") == level && Difficulty(level) == level
  {
    BeforeFirstOfPrefix(level, '_', "Edit");
    assert level + ['_'] + "Edit" == level + "_Edit";
  }

  /** Every name `getChartDifficultyNames` hands out is written as one of
      the five ITG levels: `Hard_Edit` is written `Hard`. */
  lemma DifficultiesAreLevels(n: nat, i: nat)
    requires n <= SaberParser.MaxCharts && i < |SaberParser.DifficultyNames(n)|
    ensures Difficulty(SaberParser.DifficultyNames(n)[i]) in SaberParser.ItgLevelMap
  {
    var j, edit := SaberParser.NameLevel(n, i);
    LevelsArePlain();
    EditNameIsLevel(SaberParser.ItgLevelMap[j]);
  }

  // ---------------------------------------------------------------------
  // The song header

  /** One `#TAG:value;` line of the header. */
  datatype Field = Field(tag: string, value: string)

  function FieldLine(f: Field): string
  {
    "#" + f.tag + ":" + f.value + ";"
  }

  /** The tags of the header, in order: names, files, timing, changes. */
  const NameTags: seq<string> := ["TITLE", "SUBTITLE", "ARTIST", "TITLETRANSLIT", "SUBTITLETRANSLIT", "ARTISTTRANSLIT"]
  const FileTags: seq<string> := ["GENRE", "CREDIT", "BANNER", "BACKGROUND", "LYRICSPATH", "CDTITLE", "MUSIC"]
  const TimingTags: seq<string> := ["OFFSET", "SAMPLESTART", "SAMPLELENGTH", "SELECTABLE", "BPMS"]
  const ChangeTags: seq<string> := ["STOPS", "BGCHANGES", "FGCHANGES", "KEYSOUNDS", "ATTACKS"]
  const SongTags: seq<string> := NameTags + FileTags + TimingTags + ChangeTags

  /** The values of the header, tag by tag; `parseFloat(num).toFixed(6)`
      is the parameter `toDecimals`. */
  function SongValues(sc: StepChart, toDecimals: string -> string): (values: seq<string>)
    ensures |values| == |SongTags|
  {
    [sc.title,
     OrElse(sc.subtitle, ""),
     OrElse(sc.artist, ""),
     "", "", "",
     OrElse(sc.genre, ""),
     OrElse(sc.credit, ""),
     OrElse(sc.banner, ""),
     OrElse(sc.background, ""),
     "", "",
     ReplaceFirst(OrElse(sc.music, ""), "egg", "ogg"),
     toDecimals(OrElse(sc.outputOffset, "0")),
     toDecimals(OrElse(sc.sampleStart, "0")),
     toDecimals(OrElse(sc.sampleLength, "10")),
     "YES",
     "0.000000=" + toDecimals(sc.bpms),
     "", "", "", "", ""]
  }

  /** Tags paired with their values. */
  function Fields(tags: seq<string>, values: seq<string>): (fields: seq<Field>)
    requires |tags| == |values|
    ensures |fields| == |tags|
    ensures forall i :: 0 <= i < |tags| ==> fields[i] == Field(tags[i], values[i])
  {
    seq(|tags|, i requires 0 <= i < |tags| => Field(tags[i], values[i]))
  }

  function SongFields(sc: StepChart, toDecimals: string -> string): (fields: seq<Field>)
    ensures |fields| == |SongTags|
  {
    Fields(SongTags, SongValues(sc, toDecimals))
  }

  /** A tag is upper-case letters only. */
  predicate PlainTag(tag: string)
  {
    forall i :: 0 <= i < |tag| ==> 'A' <= tag[i] <= 'Z'
  }

  predicate PlainTags(tags: seq<string>)
  {
    forall i :: 0 <= i < |tags| ==> PlainTag(tags[i])
  }

  lemma NameTagsArePlain() ensures PlainTags(NameTags) { }
  lemma FileTagsArePlain() ensures PlainTags(FileTags) { }
  lemma TimingTagsArePlain() ensures PlainTags(TimingTags) { }
  lemma ChangeTagsArePlain() ensures PlainTags(ChangeTags) { }

  /** No tag holds a colon or a line break. */
  lemma TagsArePlain()
    ensures forall i :: 0 <= i < |SongTags| ==> ':' !in SongTags[i] && '\n' !in SongTags[i]
  {
    NameTagsArePlain();
    FileTagsArePlain();
    TimingTagsArePlain();
    ChangeTagsArePlain();
    forall i | 0 <= i < |SongTags| ensures PlainTag(SongTags[i]) {
      if i < 6 {
        assert SongTags[i] == NameTags[i];
      } else if i < 13 {
        assert SongTags[i] == FileTags[i - 6];
      } else if i < 18 {
        assert SongTags[i] == TimingTags[i - 13];
      } else {
        assert SongTags[i] == ChangeTags[i - 18];
      }
    }
  }

  function FieldLines(fields: seq<Field>): (r: seq<string>)
    ensures |r| == |fields| && forall i :: 0 <= i < |fields| ==> r[i] == FieldLine(fields[i])
  {
    seq(|fields|, i requires 0 <= i < |fields| => FieldLine(fields[i]))
  }

  /** What follows the last header line: a newline and eight spaces. */
  const HeaderTail: string := "\n        "

  /** The header text of a list of fields. */
  function HeaderText(fields: seq<Field>): string
  {
    "\n" + Join(FieldLines(fields), "\n") + HeaderTail
  }

  /** A header opens with a newline and its first field's line. */
  lemma HeaderOpensWith(fields: seq<Field>)
    requires |fields| > 0
    ensures "\n" + FieldLine(fields[0]) <= HeaderText(fields)
  {
    var lines := FieldLines(fields);
    if |lines| > 1 {
      assert Join(lines, "\n") == lines[0] + "\n" + Join(lines[1..], "\n");
    }
  }

  /** The title line is the first line of a song's header. */
  lemma TitleOpensHeader(sc: StepChart, toDecimals: string -> string)
    ensures "\n#TITLE:" + sc.title + ";" <= HeaderText(SongFields(sc, toDecimals))
  {
    var fields := SongFields(sc, toDecimals);
    assert fields[0] == Field("TITLE", sc.title);
    HeaderOpensWith(fields);
    assert "\n" + FieldLine(fields[0]) == "\n#TITLE:" + sc.title + ";";
  }

  /** The header of a song reads back as its fields when no value holds a
      line break. */
  lemma SongHeaderReadsBack(sc: StepChart, toDecimals: string -> string)
    requires forall i :: 0 <= i < |SongTags| ==> '\n' !in SongValues(sc, toDecimals)[i]
    ensures ParseHeader(HeaderText(SongFields(sc, toDecimals))) == SongFields(sc, toDecimals)
  {
    TagsArePlain();
    HeaderRoundTrip(SongFields(sc, toDecimals));
  }

  /** `buildSongInfo`: the header opens with the title line, and it reads
      back as its fields when no value holds a line break. */
  function BuildSongInfo(sc: StepChart, toDecimals: string -> string): (r: string)
    ensures "\n#TITLE:" + sc.title + ";" <= r
    ensures (forall i :: 0 <= i < |SongTags| ==> '\n' !in SongValues(sc, toDecimals)[i]) ==>
      ParseHeader(r) == SongFields(sc, toDecimals)
  {
    var fields := SongFields(sc, toDecimals);
    TitleOpensHeader(sc, toDecimals);
    if forall i :: 0 <= i < |SongTags| ==> '\n' !in SongValues(sc, toDecimals)[i] then
      SongHeaderReadsBack(sc, toDecimals);
      HeaderText(fields)
    else
      HeaderText(fields)
  }

  /** The value of the first field with the given tag. */
  function Lookup(fields: seq<Field>, tag: string): Option<string>
  {
    if |fields| == 0 then None
    else if fields[0].tag == tag then Some(fields[0].value)
    else Lookup(fields[1..], tag)
  }

  /** The first field with a tag gives its value. */
  lemma {:induction false} LookupAt(fields: seq<Field>, k: nat)
    requires k < |fields|
    requires forall j :: 0 <= j < k ==> fields[j].tag != fields[k].tag
    ensures Lookup(fields, fields[k].tag) == Some(fields[k].value)
  {
    if k > 0 {
      LookupAt(fields[1..], k - 1);
    }
  }

  /** The value of a tag in a song's header. */
  lemma SongLookup(sc: StepChart, toDecimals: string -> string, k: nat)
    requires k < |SongTags|
    requires forall j :: 0 <= j < k ==> SongTags[j] != SongTags[k]
    ensures Lookup(SongFields(sc, toDecimals), SongTags[k]) == Some(SongValues(sc, toDecimals)[k])
  {
    LookupAt(SongFields(sc, toDecimals), k);
  }

  /** The header's `#OFFSET` comes from `outputOffset`, 0 when unset. */
  lemma OffsetField(sc: StepChart, toDecimals: string -> string)
    ensures Lookup(SongFields(sc, toDecimals), "OFFSET") == Some(toDecimals(OrElse(sc.outputOffset, "0")))
    ensures sc.outputOffset.None? ==> Lookup(SongFields(sc, toDecimals), "OFFSET") == Some(toDecimals("0"))
  {
    SongLookup(sc, toDecimals, 13);
  }

  /** The header's `#SUBTITLE` is the song's subtitle as it is, and empty when
      unset. */
  lemma SubtitleField(sc: StepChart, toDecimals: string -> string)
    ensures Lookup(SongFields(sc, toDecimals), "SUBTITLE") == Some(OrElse(sc.subtitle, ""))
    ensures sc.subtitle.None? ==> Lookup(SongFields(sc, toDecimals), "SUBTITLE") == Some("")
  {
    SongLookup(sc, toDecimals, 1);
  }

  /** The header's `#ARTIST` is the song's artist as it is, and empty when
      unset. */
  lemma ArtistField(sc: StepChart, toDecimals: string -> string)
    ensures Lookup(SongFields(sc, toDecimals), "ARTIST") == Some(OrElse(sc.artist, ""))
    ensures sc.artist.None? ==> Lookup(SongFields(sc, toDecimals), "ARTIST") == Some("")
  {
    SongLookup(sc, toDecimals, 2);
  }

  /** The header's `#GENRE` is the song's genre as it is, and empty when
      unset. */
  lemma GenreField(sc: StepChart, toDecimals: string -> string)
    ensures Lookup(SongFields(sc, toDecimals), "GENRE") == Some(OrElse(sc.genre, ""))
    ensures sc.genre.None? ==> Lookup(SongFields(sc, toDecimals), "GENRE") == Some("")
  {
    SongLookup(sc, toDecimals, 6);
  }

  /** The header's `#CREDIT` is the song's credit as it is, and empty when
      unset. */
  lemma CreditField(sc: StepChart, toDecimals: string -> string)
    ensures Lookup(SongFields(sc, toDecimals), "CREDIT") == Some(OrElse(sc.credit, ""))
    ensures sc.credit.None? ==> Lookup(SongFields(sc, toDecimals), "CREDIT") == Some("")
  {
    SongLookup(sc, toDecimals, 7);
  }

  /** The header's `#BANNER` is the song's banner as it is, and empty when
      unset. */
  lemma BannerField(sc: StepChart, toDecimals: string -> string)
    ensures Lookup(SongFields(sc, toDecimals), "BANNER") == Some(OrElse(sc.banner, ""))
    ensures sc.banner.None? ==> Lookup(SongFields(sc, toDecimals), "BANNER") == Some("")
  {
    SongLookup(sc, toDecimals, 8);
  }

  /** The header's `#BACKGROUND` is the song's background as it is, and empty when
      unset. */
  lemma BackgroundField(sc: StepChart, toDecimals: string -> string)
    ensures Lookup(SongFields(sc, toDecimals), "BACKGROUND") == Some(OrElse(sc.background, ""))
    ensures sc.background.None? ==> Lookup(SongFields(sc, toDecimals), "BACKGROUND") == Some("")
  {
    SongLookup(sc, toDecimals, 9);
  }

  /** The header's `#SAMPLESTART` starts at 0 when unset or empty. */
  lemma SampleStartField(sc: StepChart, toDecimals: string -> string)
    ensures sc.sampleStart.Some? && sc.sampleStart.value != "" ==>
      Lookup(SongFields(sc, toDecimals), "SAMPLESTART") == Some(toDecimals(sc.sampleStart.value))
    ensures sc.sampleStart.None? || sc.sampleStart == Some("") ==>
      Lookup(SongFields(sc, toDecimals), "SAMPLESTART") == Some(toDecimals("0"))
  {
    SongLookup(sc, toDecimals, 14);
  }

  /** The header's `#SAMPLELENGTH` is 10 seconds when unset or empty. */
  lemma SampleLengthField(sc: StepChart, toDecimals: string -> string)
    ensures sc.sampleLength.Some? && sc.sampleLength.value != "" ==>
      Lookup(SongFields(sc, toDecimals), "SAMPLELENGTH") == Some(toDecimals(sc.sampleLength.value))
    ensures sc.sampleLength.None? || sc.sampleLength == Some("") ==>
      Lookup(SongFields(sc, toDecimals), "SAMPLELENGTH") == Some(toDecimals("10"))
  {
    SongLookup(sc, toDecimals, 15);
  }

  /** The header's `#BPMS` is the single entry: the song's bpm from beat 0. */
  lemma BpmsField(sc: StepChart, toDecimals: string -> string)
    ensures Lookup(SongFields(sc, toDecimals), "BPMS") == Some("0.000000=" + toDecimals(sc.bpms))
  {
    SongLookup(sc, toDecimals, 17);
  }

  /** The header's `#MUSIC` has the first `egg` of the file name turned
      into `ogg`, and is the name as it is without one. */
  lemma MusicField(sc: StepChart, toDecimals: string -> string)
    ensures Lookup(SongFields(sc, toDecimals), "MUSIC") == Some(ReplaceFirst(OrElse(sc.music, ""), "egg", "ogg"))
    ensures sc.music.Some? && IndexOfFrom(sc.music.value, "egg", 0) == -1 ==>
      Lookup(SongFields(sc, toDecimals), "MUSIC") == sc.music
  {
    SongLookup(sc, toDecimals, 12);
  }

  /** Reading a header line back: the tag runs up to the first colon, the
      value from there to the closing semicolon. */
  function ParseField(line: string): Field
  {
    if |line| < 2 then Field("", "")
    else
      var body := line[1..|line| - 1];
      var tag := BeforeFirst(body, ':');
      if |tag| < |body| then Field(tag, body[|tag| + 1..]) else Field(tag, "")
  }

  lemma FieldRoundTrip(f: Field)
    requires ':' !in f.tag
    ensures ParseField(FieldLine(f)) == f
  {
    var line := FieldLine(f);
    var body := line[1..|line| - 1];
    assert body == f.tag + [':'] + f.value;
    BeforeFirstOfPrefix(f.tag, ':', f.value);
    assert body[|f.tag| + 1..] == f.value;
  }

  function ParseFields(lines: seq<string>): (fields: seq<Field>)
    ensures |fields| == |lines|
  {
    seq(|lines|, i requires 0 <= i < |lines| => ParseField(lines[i]))
  }

  /** Reading a header back into its fields. */
  function ParseHeader(s: string): seq<Field>
  {
    if |s| < 1 + |HeaderTail| then []
    else ParseFields(Split(s[1..|s| - |HeaderTail|], "\n"))
  }

  /** A header reads back as its fields when no tag holds a colon and no
      field holds a line break. */
  lemma HeaderRoundTrip(fields: seq<Field>)
    requires |fields| > 0
    requires forall i :: 0 <= i < |fields| ==> ':' !in fields[i].tag && '\n' !in fields[i].tag && '\n' !in fields[i].value
    ensures ParseHeader(HeaderText(fields)) == fields
  {
    var lines := FieldLines(fields);
    var s := HeaderText(fields);
    assert s[1..|s| - |HeaderTail|] == Join(lines, "\n");
    SeparatorsHaveMarkers();
    forall i | 0 <= i < |lines| ensures '\n' !in lines[i] {
      assert lines[i] == "#" + fields[i].tag + ":" + fields[i].value + ";";
    }
    SplitJoin(lines, "\n", 0);
    forall i | 0 <= i < |fields| ensures ParseField(lines[i]) == fields[i] {
      FieldRoundTrip(fields[i]);
    }
  }

  // ---------------------------------------------------------------------
  // The file

  function ChartBlocks(charts: seq<Chart>): (r: seq<string>)
    ensures |r| == |charts| && forall i :: 0 <= i < |charts| ==> r[i] == BuildChartInfo(charts[i])
  {
    seq(|charts|, i requires 0 <= i < |charts| => BuildChartInfo(charts[i]))
  }

  /** Text followed by the blocks of the charts: the text alone when there
      are none, and otherwise ending with the last block's closing line. */
  lemma BlocksClose(head: string, charts: seq<Chart>)
    ensures var r := head + Join(ChartBlocks(charts), "\n");
      head <= r && (|charts| == 0 ==> r == head) &&
      (|charts| > 0 ==> |r| >= 2 && r[|r| - 2..] == "\n;")
  {
    var blocks := ChartBlocks(charts);
    var r := head + Join(blocks, "\n");
    if |charts| > 0 {
      var last := blocks[|blocks| - 1];
      JoinEndsWithLast(blocks, "\n");
      assert r[|r| - |last|..] == last;
      assert r[|r| - 2..] == last[|last| - 2..];
    } else {
      assert r == head + "";
    }
  }

  /** `getSongFileContent`: the header, a newline, and the chart blocks
      separated by newlines; a song with charts ends with the last chart's
      closing line. */
  function GetSongFileContent(sc: StepChart, toDecimals: string -> string): (r: string)
    ensures BuildSongInfo(sc, toDecimals) + "\n" <= r
    ensures |sc.charts| == 0 ==> r == BuildSongInfo(sc, toDecimals) + "\n"
    ensures |sc.charts| > 0 ==> |r| >= 2 && r[|r| - 2..] == "\n;"
  {
    var head := BuildSongInfo(sc, toDecimals) + "\n";
    BlocksClose(head, sc.charts);
    head + Join(ChartBlocks(sc.charts), "\n")
  }

  /** `copySMContent` builds the same text as `getSongFileContent`. */
  function CopySMContent(sc: StepChart, toDecimals: string -> string): (r: string)
    ensures r == GetSongFileContent(sc, toDecimals)
  {
    BuildSongInfo(sc, toDecimals) + "\n" + Join(ChartBlocks(sc.charts), "\n")
  }

  /** A file of one chart is the header, a newline and that chart's block,
      so it starts with the header and ends with the chart's closing line. */
  lemma SingleChartFile(sc: StepChart, toDecimals: string -> string)
    requires |sc.charts| == 1
    ensures var text := GetSongFileContent(sc, toDecimals);
      text == BuildSongInfo(sc, toDecimals) + "\n" + BuildChartInfo(sc.charts[0]) &&
      BuildSongInfo(sc, toDecimals) <= text && text[|text| - 2..] == "\n;"
  {
  }

  /** A song fresh from the parser has no `outputOffset`, so its header
      carries offset 0 whatever the map's song time offset; a map without a
      preview duration gets the 10-second sample length. */
  lemma ParsedSongHeader(info: MapInfoDataV2, charts: seq<RawMapData>, itgOffset: real,
                         meterOf: real -> nat, numToString: real -> string, toDecimals: string -> string)
    requires SaberParser.HasTempo(info) && SaberParser.ChartsInRange(charts)
    ensures var sc := SaberParser.StepFileOf(info, charts, itgOffset, meterOf, numToString);
      var fields := SongFields(sc, toDecimals);
      Lookup(fields, "OFFSET") == Some(toDecimals("0")) &&
      (info.previewDuration == 0.0 ==> Lookup(fields, "SAMPLELENGTH") == Some(toDecimals("10"))) &&
      Lookup(fields, "BPMS") == Some("0.000000=" + toDecimals(numToString(info.beatsPerMinute.value)))
  {
    var sc := SaberParser.StepFileOf(info, charts, itgOffset, meterOf, numToString);
    OffsetField(sc, toDecimals);
    SampleLengthField(sc, toDecimals);
    BpmsField(sc, toDecimals);
  }
}
