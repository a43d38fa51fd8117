/**
  The older serialiser of `StepOutput.ts`. It writes the same `.sm`
  layout as `StepOutputBuilder`, with three differences: every chart is
  labelled `Challenge`, the music file name is written as it is and the
  offset comes from the song's `offset`. Only the first chart goes into
  the text.
 */
module StepOutput {
  import opened Wrappers
  import opened Strings
  import opened StepTypes
  import SaberParser
  import B = StepOutputBuilder

  /** `buildChartInfo`: the chart's block under the fixed difficulty
      `Challenge`, so it is the newer builder's block of the same chart
      renamed `Challenge`. */
  function BuildChartInfo(chart: Chart): (r: string)
    ensures r == B.BuildChartInfo(chart.(name := "Challenge"))
  {
    ChallengeIsPlain();
    B.ChartHeader(chart.chartType, "Challenge", chart.meter) + B.NotesText(chart.notes) + "\n;"
  }

  /** `Challenge` is written as itself. */
  lemma ChallengeIsPlain()
    ensures B.Difficulty("Challenge") == "Challenge"
  {
    B.LevelsArePlain();
    assert "Challenge" == SaberParser.ItgLevelMap[0];
  }

  /** The chart's name is not written: charts that agree on type, meter and
      notes get the same block. */
  lemma NameIgnored(c1: Chart, c2: Chart)
    requires c1.chartType == c2.chartType && c1.meter == c2.meter && c1.notes == c2.notes
    ensures BuildChartInfo(c1) == BuildChartInfo(c2)
  {
    assert c1.(name := "Challenge") == c2.(name := "Challenge").(hands := c1.hands, jump := c1.jump, tap := c1.tap,
      hold := c1.hold, bomb := c1.bomb);
  }

  /** The block's measures read back as the chart's notes, and it ends with
      the closing line. */
  lemma ChartBlockLayout(chart: Chart)
    requires |chart.notes| > 0 && forall i :: 0 <= i < |chart.notes| ==> |chart.notes[i]| > 0
    ensures var header := B.ChartHeader(chart.chartType, "Challenge", chart.meter);
      var block := BuildChartInfo(chart);
      header <= block && |block| >= |header| + 2 &&
      block[|block| - 2..] == "\n;" &&
      B.ParseNotes(block[|header|..|block| - 2]) == chart.notes
  {
    B.ChartBlockLayout(chart.(name := "Challenge"));
    ChallengeIsPlain();
  }

  /** The values of the header, tag by tag: the newer builder's values but
      for `#MUSIC`, written as it is, and `#OFFSET`, taken from `offset`. */
  function SongValues(sc: StepChart, toDecimals: string -> string): (values: seq<string>)
    ensures |values| == |B.SongTags|
    ensures values == B.SongValues(sc, toDecimals)[12 := OrElse(sc.music, "")][13 := toDecimals(OrElse(sc.offset, "0"))]
  {
    [sc.title,
     OrElse(sc.subtitle, ""),
     OrElse(sc.artist, ""),
     "", "", "",
     OrElse(sc.genre, ""),
     OrElse(sc.credit, ""),
     OrElse(sc.banner, ""),
     OrElse(sc.background, ""),
     "", "",
     OrElse(sc.music, ""),
     toDecimals(OrElse(sc.offset, "0")),
     toDecimals(OrElse(sc.sampleStart, "0")),
     toDecimals(OrElse(sc.sampleLength, "10")),
     "YES",
     "0.000000=" + toDecimals(sc.bpms),
     "", "", "", "", ""]
  }

  function SongFields(sc: StepChart, toDecimals: string -> string): (fields: seq<B.Field>)
    ensures |fields| == |B.SongTags|
  {
    B.Fields(B.SongTags, SongValues(sc, toDecimals))
  }

  /** The title line is the first line of a song's header. */
  lemma TitleOpensHeader(sc: StepChart, toDecimals: string -> string)
    ensures "\n#TITLE:" + sc.title + ";" <= B.HeaderText(SongFields(sc, toDecimals))
  {
    var fields := SongFields(sc, toDecimals);
    assert fields[0] == B.Field("TITLE", sc.title);
    B.HeaderOpensWith(fields);
    assert "\n" + B.FieldLine(fields[0]) == "\n#TITLE:" + sc.title + ";";
  }

  /** The header of a song reads back as its fields when no value holds a
      line break. */
  lemma SongHeaderReadsBack(sc: StepChart, toDecimals: string -> string)
    requires forall i :: 0 <= i < |B.SongTags| ==> '\n' !in SongValues(sc, toDecimals)[i]
    ensures B.ParseHeader(B.HeaderText(SongFields(sc, toDecimals))) == SongFields(sc, toDecimals)
  {
    B.TagsArePlain();
    B.HeaderRoundTrip(SongFields(sc, toDecimals));
  }

  /** `buildSongInfo`: the header opens with the title line, and it reads
      back as its fields when no value holds a line break. */
  function BuildSongInfo(sc: StepChart, toDecimals: string -> string): (r: string)
    ensures "\n#TITLE:" + sc.title + ";" <= r
    ensures (forall i :: 0 <= i < |B.SongTags| ==> '\n' !in SongValues(sc, toDecimals)[i]) ==>
      B.ParseHeader(r) == SongFields(sc, toDecimals)
  {
    TitleOpensHeader(sc, toDecimals);
    if forall i :: 0 <= i < |B.SongTags| ==> '\n' !in SongValues(sc, toDecimals)[i] then
      SongHeaderReadsBack(sc, toDecimals);
      B.HeaderText(SongFields(sc, toDecimals))
    else
      B.HeaderText(SongFields(sc, toDecimals))
  }

  /** The header's `#MUSIC` is the file name as it is, `egg` and all. */
  lemma MusicField(sc: StepChart, toDecimals: string -> string)
    ensures B.Lookup(SongFields(sc, toDecimals), "MUSIC") == Some(OrElse(sc.music, ""))
  {
    B.LookupAt(SongFields(sc, toDecimals), 12);
  }

  /** The header's `#OFFSET` comes from `offset`, 0 when unset. */
  lemma OffsetField(sc: StepChart, toDecimals: string -> string)
    ensures B.Lookup(SongFields(sc, toDecimals), "OFFSET") == Some(toDecimals(OrElse(sc.offset, "0")))
  {
    B.LookupAt(SongFields(sc, toDecimals), 13);
  }

  /** The text `copySMContent` returns: the header, a newline and the block
      of the first chart. A song without charts has no first chart, and
      the source fails reading its type. */
  function CopySMContent(sc: StepChart, toDecimals: string -> string): (r: Option<string>)
    ensures r.None? <==> |sc.charts| == 0
    ensures r.Some? ==> BuildSongInfo(sc, toDecimals) + "\n" <= r.value
  {
    if |sc.charts| == 0 then None
    else Some(BuildSongInfo(sc, toDecimals) + "\n" + BuildChartInfo(sc.charts[0]))
  }

  /** Only the first chart is written: songs that differ in the charts after
      the first give the same text. */
  lemma OnlyFirstChart(sc: StepChart, toDecimals: string -> string, rest: seq<Chart>)
    requires |sc.charts| > 0
    ensures CopySMContent(sc.(charts := [sc.charts[0]] + rest), toDecimals) == CopySMContent(sc, toDecimals)
  {
    var other := sc.(charts := [sc.charts[0]] + rest);
    assert SongValues(other, toDecimals) == SongValues(sc, toDecimals);
  }

  /** The two serialisers write the same text for a song of one chart named
      `Challenge`, a music name without `egg` and the same `offset` and
      `outputOffset`. */
  lemma AgreesWithBuilder(sc: StepChart, toDecimals: string -> string)
    requires |sc.charts| == 1 && sc.charts[0].name == "Challenge"
    requires sc.music.None? || IndexOfFrom(sc.music.value, "egg", 0) == -1
    requires OrElse(sc.offset, "0") == OrElse(sc.outputOffset, "0")
    ensures CopySMContent(sc, toDecimals) == Some(B.GetSongFileContent(sc, toDecimals))
  {
    var values := B.SongValues(sc, toDecimals);
    assert values[12] == OrElse(sc.music, "");
    assert SongValues(sc, toDecimals) == values;
    assert sc.charts[0].(name := "Challenge") == sc.charts[0];
    assert B.ChartBlocks(sc.charts) == [BuildChartInfo(sc.charts[0])];
  }
}
